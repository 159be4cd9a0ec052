/**
 * The normaliser of scope paths that the coordination layer uses. Paths that begin at the root or at
 * a home directory go through the file system; `resolve` stands for it.
 */
module ScopePaths {
  import opened Text

  /** Every backslash becomes a slash. */
  function Slashes(s: string): string {
    if s == "" then "" else [if s[0] == '\\' then '/' else s[0]] + Slashes(s[1..])
  }

  /** Position of the first slash, or the length. */
  function Slash(s: string): (i: nat)
    ensures i <= |s| && (i < |s| ==> s[i] == '/')
    ensures forall k | 0 <= k < i :: s[k] != '/'
  {
    if s == "" || s[0] == '/' then 0 else 1 + Slash(s[1..])
  }

  function Split(s: string): (p: seq<string>)
    ensures |p| > 0
    decreases |s|
  {
    var i := Slash(s);
    if i == |s| then [s] else [s[..i]] + Split(s[i + 1..])
  }

  function Join(parts: seq<string>): string {
    if parts == [] then "" else if |parts| == 1 then parts[0] else parts[0] + "/" + Join(parts[1..])
  }

  /** Empty parts and dots say nothing. */
  function Clean(parts: seq<string>): seq<string> {
    if parts == [] then []
    else (if parts[0] == "" || parts[0] == "." then [] else [parts[0]]) + Clean(parts[1..])
  }

  function Posix(s: string): string {
    var parts := Clean(Split(s));
    if parts == [] then "." else Join(parts)
  }

  /** The path begins at the root or, once cleaned, at a home directory. */
  predicate Resolves(raw: string) {
    var parts := Clean(Split(raw));
    (raw != "" && raw[0] == '/') || (parts != [] && parts[0] != "" && parts[0][0] == '~')
  }

  function DispatchNorm(resolve: string -> string, path: string): string {
    var raw := Slashes(Strip(path));
    if raw == "" then "" else if Resolves(raw) then resolve(raw) else Posix(raw)
  }

  // ---- parts ----

  predicate NoSlash(s: string) {
    forall k | 0 <= k < |s| :: s[k] != '/'
  }

  lemma {:induction false} SplitParts(s: string)
    ensures forall i | 0 <= i < |Split(s)| :: NoSlash(Split(s)[i])
    ensures Join(Split(s)) == s
    decreases |s|
  {
    var i := Slash(s);
    if i < |s| {
      SplitParts(s[i + 1..]);
      assert s == s[..i] + "/" + s[i + 1..];
    }
  }

  /** The parts that are left: not empty, no dot, no slash. */
  ghost predicate AllClean(parts: seq<string>) {
    forall i | 0 <= i < |parts| :: parts[i] != "" && parts[i] != "." && NoSlash(parts[i])
  }

  lemma {:induction false} CleanIsClean(parts: seq<string>)
    requires forall i | 0 <= i < |parts| :: NoSlash(parts[i])
    ensures AllClean(Clean(parts))
  {
    if parts != [] {
      CleanIsClean(parts[1..]);
      hide NoSlash;
      assert forall i | 0 <= i < |parts| - 1 :: parts[1..][i] == parts[i + 1];
    }
  }

  lemma {:induction false} CleanAgain(parts: seq<string>)
    requires AllClean(parts)
    ensures Clean(parts) == parts
  {
    if parts != [] {
      hide NoSlash;
      assert forall i | 0 <= i < |parts| - 1 :: parts[1..][i] == parts[i + 1];
      CleanAgain(parts[1..]);
    }
  }

  lemma {:induction false} SplitJoin(parts: seq<string>)
    requires parts != [] && forall i | 0 <= i < |parts| :: NoSlash(parts[i])
    ensures Split(Join(parts)) == parts
  {
    var s := Join(parts);
    if |parts| == 1 {
      assert Slash(s) == |s|;
    } else {
      var rest := parts[1..];
      assert forall i | 0 <= i < |rest| :: rest[i] == parts[i + 1];
      SplitJoin(rest);
      FirstSlash(parts[0], Join(rest));
      assert s[..|parts[0]|] == parts[0] && s[|parts[0]| + 1..] == Join(rest);
    }
  }

  lemma FirstSlash(part: string, rest: string)
    requires NoSlash(part)
    ensures Slash(part + "/" + rest) == |part|
  {
    var s := part + "/" + rest;
    assert s[|part|] == '/' && forall k | 0 <= k < |part| :: s[k] == part[k];
  }

  lemma {:induction false} CleanIsShorter(parts: seq<string>)
    ensures |Join(Clean(parts))| <= |Join(parts)|
  {
    if parts != [] {
      CleanIsShorter(parts[1..]);
      var c := Clean(parts[1..]);
      assert ([parts[0]] + c)[1..] == c && [] + c == c;
    }
  }

  // ---- normalising twice ----

  lemma PosixShape(s: string)
    ensures Posix(s) != "" && Clean(Split(Posix(s))) == Clean(Split(s)) && Posix(Posix(s)) == Posix(s)
    ensures s != "" ==> |Posix(s)| <= |s|
  {
    var c := Clean(Split(s));
    SplitParts(s);
    CleanIsClean(Split(s));
    CleanIsShorter(Split(s));
    if c == [] {
      assert Split(".") == ["."];
    } else {
      SplitJoin(c);
      CleanAgain(c);
      assert Join(c) != "" by {
        assert c[0] != "";
      }
    }
  }

  lemma {:induction false} SlashesStay(s: string)
    ensures |Slashes(s)| == |s| && forall k | 0 <= k < |s| :: Slashes(s)[k] == if s[k] == '\\' then '/' else s[k]
  {
    if s != "" {
      SlashesStay(s[1..]);
    }
  }

  predicate NoBackslash(s: string) {
    forall k | 0 <= k < |s| :: s[k] != '\\'
  }

  lemma {:induction false} SlashesNothing(s: string)
    requires NoBackslash(s)
    ensures Slashes(s) == s
  {
    SlashesStay(s);
  }

  lemma {:induction false} PartsNoBackslash(s: string)
    requires NoBackslash(s)
    ensures forall i | 0 <= i < |Split(s)| :: NoBackslash(Split(s)[i])
    decreases |s|
  {
    var i := Slash(s);
    if i < |s| {
      PartsNoBackslash(s[i + 1..]);
    }
  }

  lemma {:induction false} CleanNoBackslash(parts: seq<string>)
    requires forall i | 0 <= i < |parts| :: NoBackslash(parts[i])
    ensures NoBackslash(Join(Clean(parts)))
  {
    if parts != [] {
      assert forall i | 0 <= i < |parts| - 1 :: parts[1..][i] == parts[i + 1];
      CleanNoBackslash(parts[1..]);
      var c := Clean(parts[1..]);
      assert ([parts[0]] + c)[1..] == c && [] + c == c;
    }
  }

  lemma PosixNoBackslash(s: string)
    requires NoBackslash(s)
    ensures NoBackslash(Posix(s))
  {
    PartsNoBackslash(s);
    CleanNoBackslash(Split(s));
  }

  /** Stripping leaves a part of the text, all of it or a shorter one. */
  lemma {:induction false} StripLeftPart(s: string)
    ensures StripLeft(s) == s || |StripLeft(s)| < |s|
    ensures NoBackslash(s) ==> NoBackslash(StripLeft(s))
  {
    if s != "" && IsSpace(s[0]) {
      StripLeftPart(s[1..]);
    }
  }

  lemma {:induction false} StripRightPart(s: string)
    ensures StripRight(s) == s || |StripRight(s)| < |s|
    ensures NoBackslash(s) ==> NoBackslash(StripRight(s))
  {
    if s != "" && IsSpace(s[|s| - 1]) {
      StripRightPart(s[..|s| - 1]);
    }
  }

  lemma StripPart(s: string)
    ensures Strip(s) == s || |Strip(s)| < |s|
    ensures NoBackslash(s) ==> NoBackslash(Strip(s))
  {
    StripLeftPart(s);
    StripRightPart(StripLeft(s));
  }

  /** What the file system gives is an absolute path. */
  ghost predicate Absolute(resolve: string -> string) {
    forall p :: resolve(p) != "" && resolve(p)[0] == '/'
  }

  /** A relative path has a stable normal form if and only if that form has no blank at either end:
      blanks are stripped before the path is cleaned, and cleaning can bring others to the ends. */
  lemma StableIffNoBlankEnds(resolve: string -> string, path: string)
    requires Absolute(resolve) && Slashes(Strip(path)) != "" && !Resolves(Slashes(Strip(path)))
    ensures var n := DispatchNorm(resolve, path);
      DispatchNorm(resolve, n) == n <==> Strip(n) == n
  {
    var raw := Slashes(Strip(path));
    var n := Posix(raw);
    SlashesStay(Strip(path));
    PosixShape(raw);
    PosixNoBackslash(raw);
    PosixStart(raw);
    StripPart(n);
    SlashesNothing(Strip(n));
    hide Slashes, Posix, Strip, Clean, Split;
    if Strip(n) != "" && Strip(n) != n {
      PosixShape(Strip(n));
    }
  }

  /** The cleaned form of a relative path does not begin at the root. */
  lemma PosixStart(raw: string)
    requires raw != "" && !Resolves(raw)
    ensures Posix(raw) != "" && Posix(raw)[0] != '/' && !Resolves(Posix(raw))
  {
    var c := Clean(Split(raw));
    SplitParts(raw);
    CleanIsClean(Split(raw));
    PosixShape(raw);
    if c != [] {
      assert c[0] != "" && NoSlash(c[0]) && Join(c)[0] == c[0][0];
    }
  }

  // ---- paths that are not stable ----

  /** The normal form of a path whose parts are known. */
  lemma NormalForm(resolve: string -> string, path: string, parts: seq<string>)
    requires parts != [] && parts[0] != "" && Strip(path) == Join(parts) && NoBackslash(Join(parts))
    requires forall i | 0 <= i < |parts| :: NoSlash(parts[i])
    requires Clean(parts) != [] && Clean(parts)[0] != "" && Clean(parts)[0][0] != '~'
    ensures DispatchNorm(resolve, path) == Join(Clean(parts))
  {
    SplitJoin(parts);
    SlashesNothing(Join(parts));
    assert Join(parts)[0] == parts[0][0];
    hide Slashes, Split, Strip, Clean;
  }

  lemma CleanTwo(a: string, b: string)
    ensures Clean([a]) == if a == "" || a == "." then [] else [a]
    ensures Clean([a, b]) == Clean([a]) + Clean([b])
  {
    assert [a, b][1..] == [b] && [a][1..] == [];
  }

  lemma OnePart(resolve: string -> string, path: string, a: string)
    requires Strip(path) == a && a != "" && a != "." && NoSlash(a) && NoBackslash(a) && a[0] != '~'
    ensures DispatchNorm(resolve, path) == a
  {
    CleanTwo(a, a);
    hide DispatchNorm, Clean;
    NormalForm(resolve, path, [a]);
  }

  lemma TwoParts(resolve: string -> string, path: string, a: string, b: string)
    requires Strip(path) == a + "/" + b && a != "" && NoSlash(a) && NoSlash(b) && NoBackslash(a) && NoBackslash(b)
    requires a != "." && a[0] != '~'
    ensures DispatchNorm(resolve, path) == if b == "" || b == "." then a else a + "/" + b
  {
    CleanTwo(a, b);
    CleanTwo(b, b);
    hide DispatchNorm, Clean;
    assert [a, b][1..] == [b];
    NormalForm(resolve, path, [a, b]);
  }

  /** A path below the current directory. */
  lemma DotFirst(resolve: string -> string, path: string, parts: seq<string>)
    requires Strip(path) == "./" + Join(parts) && NoBackslash(Join(parts))
    requires AllClean(parts) && parts != [] && parts[0][0] != '~'
    ensures DispatchNorm(resolve, path) == Join(parts)
  {
    var all := ["."] + parts;
    assert all[1..] == parts && Join(all) == "./" + Join(parts);
    CleanAgain(parts);
    assert Clean(all) == parts;
    hide DispatchNorm, Clean, Join;
    NormalForm(resolve, path, all);
  }

  lemma NothingToStrip(s: string)
    requires s != "" && !IsSpace(s[0]) && !IsSpace(s[|s| - 1])
    ensures Strip(s) == s
  {
  }

  lemma StripOneLeft(s: string)
    requires s != "" && !IsSpace(s[0]) && !IsSpace(s[|s| - 1])
    ensures Strip(" " + s) == s
  {
    assert (" " + s)[1..] == s;
    assert StripLeft(" " + s) == StripLeft(s);
  }

  lemma StripOneRight(s: string)
    requires s != "" && !IsSpace(s[0]) && !IsSpace(s[|s| - 1])
    ensures Strip(s + " ") == s
  {
    assert (s + " ")[..|s|] == s;
    assert StripRight(s + " ") == StripRight(s);
  }

  /** Cleaning brings a blank to the end. */
  lemma BlankAtTheEnd(resolve: string -> string)
    ensures DispatchNorm(resolve, "x /") == "x " && DispatchNorm(resolve, "x ") == "x"
    ensures DispatchNorm(resolve, "x /y") == "x /y"
  {
    hide DispatchNorm, Strip, IsSpace;
    assert !IsSpace('x') && !IsSpace('y') && !IsSpace('/') by { PlainCharacters(); }
    NothingToStrip("x /");
    TwoParts(resolve, "x /", "x ", "");
    StripOneRight("x");
    assert "x" + " " == "x ";
    OnePart(resolve, "x ", "x");
    NothingToStrip("x /y");
    TwoParts(resolve, "x /y", "x ", "y");
  }

  lemma PlainCharacters()
    ensures !IsSpace('x') && !IsSpace('y') && !IsSpace('b') && !IsSpace('.') && !IsSpace('/')
  {
  }

  /** Cleaning brings a blank to the start, twice. */
  lemma BlankAtTheStart(resolve: string -> string)
    ensures DispatchNorm(resolve, "./ ./ b") == " ./ b" && DispatchNorm(resolve, " ./ b") == " b"
    ensures DispatchNorm(resolve, " b") == "b"
  {
    hide DispatchNorm, Strip, IsSpace;
    assert !IsSpace('b') && !IsSpace('.') by { PlainCharacters(); }
    NothingToStrip("./ ./ b");
    TwoBlankParts();
    DotFirst(resolve, "./ ./ b", [" .", " b"]);
    StripOneLeft("./ b");
    assert " " + "./ b" == " ./ b" && " " + "b" == " b";
    DotFirst(resolve, " ./ b", [" b"]);
    StripOneLeft("b");
    OnePart(resolve, " b", "b");
  }

  lemma TwoBlankParts()
    ensures Join([" .", " b"]) == " ./ b" && Join([" b"]) == " b"
    ensures AllClean([" .", " b"]) && AllClean([" b"])
  {
    assert [" .", " b"][1..] == [" b"];
  }
}
