/** Blanks at the ends of a text, as Python's `strip` sees them. */
module Text {

  predicate IsSpace(c: char) {
    || c in " \t\n\r" || '\U{0B}' <= c <= '\U{0C}' || '\U{1C}' <= c <= '\U{1F}' || c == '\U{85}' || c == '\U{A0}'
    || c == '\U{1680}' || '\U{2000}' <= c <= '\U{200A}' || '\U{2028}' <= c <= '\U{2029}' || c == '\U{202F}'
      || c == '\U{205F}' || c == '\U{3000}'
  }

  function StripLeft(s: string): string {
    if s != "" && IsSpace(s[0]) then StripLeft(s[1..]) else s
  }

  function StripRight(s: string): string {
    if s != "" && IsSpace(s[|s| - 1]) then StripRight(s[..|s| - 1]) else s
  }

  function Strip(s: string): string { StripRight(StripLeft(s)) }

  // ---- what is stripped ----

  predicate Blank(s: string) {
    forall k | 0 <= k < |s| :: IsSpace(s[k])
  }

  predicate NoBlankEnds(s: string) {
    s == "" || (!IsSpace(s[0]) && !IsSpace(s[|s| - 1]))
  }

  lemma {:induction false} StripLeftExactly(s: string)
    ensures var t := StripLeft(s);
      && |t| <= |s| && t == s[|s| - |t|..] && (t == "" || !IsSpace(t[0]))
      && forall k | 0 <= k < |s| - |t| :: IsSpace(s[k])
  {
    if s != "" && IsSpace(s[0]) {
      StripLeftExactly(s[1..]);
    }
  }

  lemma {:induction false} StripRightExactly(s: string)
    ensures var t := StripRight(s);
      t <= s && (t == "" || !IsSpace(t[|t| - 1])) && forall k | |t| <= k < |s| :: IsSpace(s[k])
  {
    if s != "" && IsSpace(s[|s| - 1]) {
      StripRightExactly(s[..|s| - 1]);
    }
  }

  /** Stripping cuts blanks off both ends, all of them and nothing else. */
  lemma {:induction false} StripExactly(s: string) returns (left: string, right: string)
    ensures s == left + Strip(s) + right && Blank(left) && Blank(right) && NoBlankEnds(Strip(s))
  {
    hide IsSpace, StripLeft, StripRight;
    StripLeftExactly(s);
    StripRightExactly(StripLeft(s));
    var i := |s| - |StripLeft(s)|;
    left, right := s[..i], s[i + |Strip(s)|..];
  }

  /** And nothing else leaves a text without blanks at its ends. */
  lemma {:induction false} StripAround(left: string, m: string, right: string)
    requires Blank(left) && Blank(right) && NoBlankEnds(m)
    ensures Strip(left + m + right) == m
  {
    hide IsSpace;
    var s := left + m + right;
    var a, b := StripExactly(s);
    hide Strip;
    var t := Strip(s);
    if m == "" {
      assert Blank(s);
      assert t == s[|a|..|a| + |t|];
    } else {
      assert s[|left|] == m[0] && s[|left| + |m| - 1] == m[|m| - 1];
      assert forall k | 0 <= k < |left| :: IsSpace(s[k]);
      assert forall k | |left| + |m| <= k < |s| :: IsSpace(s[k]);
      assert forall k | 0 <= k < |a| :: s[k] == a[k];
      assert forall k | 0 <= k < |b| :: s[|a| + |t| + k] == b[k];
      assert |a| <= |left| && |b| <= |right|;
      assert t == s[|a|..|s| - |b|];
      assert t[0] == s[|a|] && t[|t| - 1] == s[|s| - |b| - 1];
      assert |a| == |left| && |b| == |right|;
    }
  }

  lemma {:induction false} NothingLeftIff(s: string)
    ensures Strip(s) == "" <==> Blank(s)
  {
    var left, right := StripExactly(s);
    hide IsSpace, Strip;
    assert Strip(s) == "" ==> s == left + right;
    if Strip(s) != "" {
      assert s[|left|] == Strip(s)[0];
    }
  }
}
