/**
 * Scanning the tail of a file of JSON lines: at most so many bytes from the end, starting at a
 * whole line, every row under its physical line number.
 */
module JsonlTail {

  type Byte = b: int | 0 <= b < 256

  const LF: Byte := 10

  /** What one physical line holds once stripped: nothing, no JSON object, or one. */
  datatype Line<R> = Blank | Unparsable | Row(row: R)

  datatype Numbered<R> = Numbered(line: nat, row: R)

  datatype Scan<R> = Scan(rows: seq<Numbered<R>>, bytesRead: nat, truncated: bool, scanned: nat, outside: nat,
    unparsable: nat)

  // ---- lines ----

  function FirstLf(s: seq<Byte>): (i: nat)
    ensures i <= |s| && (i < |s| ==> s[i] == LF)
    ensures forall k | 0 <= k < i :: s[k] != LF
  {
    if s == [] || s[0] == LF then 0 else 1 + FirstLf(s[1..])
  }

  /** The physical lines: the pieces between line feeds, the last one unterminated. */
  function Split(s: seq<Byte>): (p: seq<seq<Byte>>)
    ensures |p| > 0
    decreases |s|
  {
    var i := FirstLf(s);
    if i == |s| then [s] else [s[..i]] + Split(s[i + 1..])
  }

  function CountLf(s: seq<Byte>): nat {
    if s == [] then 0 else (if s[|s| - 1] == LF then 1 else 0) + CountLf(s[..|s| - 1])
  }

  /** The row a line holds, if any, under a number. */
  function RowOf<R>(l: Line<R>, number: nat): (rows: seq<Numbered<R>>)
    ensures |rows| <= 1
  {
    match l case Row(r) => [Numbered(number, r)] case _ => []
  }

  /** The rows of the lines from index `from` on, numbered from 1. */
  function RowsFrom<R>(parse: seq<Byte> -> Line<R>, lines: seq<seq<Byte>>, from: nat): seq<Numbered<R>>
    decreases |lines| - from
  {
    if from >= |lines| then [] else RowOf(parse(lines[from]), from + 1) + RowsFrom(parse, lines, from + 1)
  }

  /** Where the window starts: after the first line feed at or after max bytes from the end. */
  function Offset(content: seq<Byte>, max: nat): (o: nat)
    ensures o <= |content|
  {
    if |content| <= max then 0
    else
      var start := |content| - max;
      var i := FirstLf(content[start..]);
      if i == max then |content| else start + i + 1
  }

  // ---- physical numbers ----

  lemma SplitFirst(line: seq<Byte>, rest: seq<Byte>)
    requires FirstLf(line) == |line|
    ensures Split(line + [LF] + rest) == [line] + Split(rest)
  {
    var s := line + [LF] + rest;
    assert s[|line|] == LF && forall k | 0 <= k < |line| :: s[k] == line[k];
    assert FirstLf(s) == |line|;
    assert s[..|line|] == line && s[|line| + 1..] == rest;
  }

  lemma {:induction false} SplitJoins(a: seq<Byte>, b: seq<Byte>)
    ensures Split(a + [LF] + b) == Split(a) + Split(b)
    decreases |a|
  {
    var i := FirstLf(a);
    if i == |a| {
      SplitFirst(a, b);
    } else {
      var line, rest := a[..i], a[i + 1..];
      assert FirstLf(line) == i;
      assert a == line + [LF] + rest && a + [LF] + b == line + [LF] + (rest + [LF] + b);
      SplitFirst(line, rest + [LF] + b);
      hide Split;
      SplitFirst(line, rest);
      SplitJoins(rest, b);
      Regroup([line], Split(rest), Split(b));
    }
  }

  lemma {:induction false} CountJoins(a: seq<Byte>, b: seq<Byte>)
    ensures CountLf(a + b) == CountLf(a) + CountLf(b)
  {
    if b == [] {
      assert a + b == a;
    } else {
      assert (a + b)[..|a + b| - 1] == a + b[..|b| - 1];
      CountJoins(a, b[..|b| - 1]);
    }
  }

  lemma {:induction false} NoneBefore(s: seq<Byte>)
    requires forall k | 0 <= k < |s| :: s[k] != LF
    ensures CountLf(s) == 0
  {
    if s != [] {
      NoneBefore(s[..|s| - 1]);
    }
  }

  /** There is one line more than there are line feeds. */
  lemma {:induction false} LinesCounted(s: seq<Byte>)
    ensures |Split(s)| == CountLf(s) + 1
    decreases |s|
  {
    var i := FirstLf(s);
    if i == |s| {
      NoneBefore(s);
    } else {
      LinesCounted(s[i + 1..]);
      assert s == s[..i] + [LF] + s[i + 1..];
      CountJoins(s[..i] + [LF], s[i + 1..]);
      CountJoins(s[..i], [LF]);
      assert [LF][..0] == [];
      NoneBefore(s[..i]);
    }
  }

  lemma {:induction false} RowsShift<R>(parse: seq<Byte> -> Line<R>, front: seq<seq<Byte>>, back: seq<seq<Byte>>,
      i: nat)
    requires i <= |back|
    ensures RowsFrom(parse, front + back, |front| + i) == Shifted(RowsFrom(parse, back, i), |front|)
    decreases |back| - i
  {
    if i < |back| {
      RowsShift(parse, front, back, i + 1);
      ShiftOne(parse(back[i]), i + 1, RowsFrom(parse, back, i + 1), |front|);
    }
  }

  function Shifted<R>(rows: seq<Numbered<R>>, shift: nat): seq<Numbered<R>> {
    if rows == [] then [] else [rows[0].(line := rows[0].line + shift)] + Shifted(rows[1..], shift)
  }

  lemma ShiftOne<R>(l: Line<R>, number: nat, rest: seq<Numbered<R>>, shift: nat)
    ensures Shifted(RowOf(l, number) + rest, shift) == RowOf(l, number + shift) + Shifted(rest, shift)
  {
    match l {
      case Row(r) =>
        assert ([Numbered(number, r)] + rest)[1..] == rest;
      case _ =>
        assert [] + rest == rest;
    }
  }

  /** The window of a long file is empty or starts right after a line feed. */
  lemma {:induction false} WindowStarts(content: seq<Byte>, max: nat)
    requires |content| > max
    ensures var o := Offset(content, max);
      o == |content| || (o > 0 && content[o - 1] == LF)
    ensures var o := Offset(content, max); var start := |content| - max;
      if forall k | start <= k < |content| :: content[k] != LF then o == |content|
      else o > start && content[o - 1] == LF && forall k | start <= k < o - 1 :: content[k] != LF
  {
  }

  /** The first line whose rows the window holds, counting from 0. */
  function FirstLine(content: seq<Byte>, max: nat): nat {
    var o := Offset(content, max);
    if o == |content| > 0 && content[o - 1] != LF then |Split(content)| else CountLf(content[..o])
  }

  /** The rows of the window are the rows of the whole file's lines from the window on, with the
      same physical numbers. */
  lemma {:induction false} TailIsSuffix<R>(parse: seq<Byte> -> Line<R>, content: seq<Byte>, max: nat)
    requires parse([]) == Blank
    ensures var o := Offset(content, max);
      Shifted(RowsFrom(parse, Split(content[o..]), 0), CountLf(content[..o])) ==
        RowsFrom(parse, Split(content), FirstLine(content, max))
  {
    hide Split, RowsFrom, Shifted, CountLf, Offset;
    var o := Offset(content, max);
    if |content| > max {
      WindowStarts(content, max);
    } else {
      OffsetOfShort(content, max);
    }
    if o == 0 || content[o - 1] == LF {
      AtLineStart(parse, content, o);
    } else {
      NothingLeft(parse, content);
      assert content[o..] == [];
    }
  }

  lemma OffsetOfShort(content: seq<Byte>, max: nat)
    requires |content| <= max
    ensures Offset(content, max) == 0
  {
  }

  lemma {:induction false} AtLineStart<R>(parse: seq<Byte> -> Line<R>, content: seq<Byte>, o: nat)
    requires o <= |content| && (o == 0 || content[o - 1] == LF)
    ensures Shifted(RowsFrom(parse, Split(content[o..]), 0), CountLf(content[..o])) ==
      RowsFrom(parse, Split(content), CountLf(content[..o]))
  {
    hide Split, CountLf, RowsFrom, Shifted;
    if o == 0 {
      assert content[..0] == [] && content[0..] == content;
      NoneBefore(content[..0]);
      RowsShift(parse, [], Split(content), 0);
      assert [] + Split(content) == Split(content);
    } else {
      var front, back := content[..o - 1], content[o..];
      assert content == front + [LF] + back && content[..o] == front + [LF];
      SplitJoins(front, back);
      LinesCounted(front);
      CountJoins(front, [LF]);
      OneLf();
      RowsShift(parse, Split(front), Split(back), 0);
    }
  }

  lemma OneLf()
    ensures CountLf([LF]) == 1
  {
  }

  lemma NothingLeft<R>(parse: seq<Byte> -> Line<R>, content: seq<Byte>)
    requires parse([]) == Blank
    ensures forall k: nat :: Shifted(RowsFrom(parse, Split([]), 0), k) == []
    ensures RowsFrom(parse, Split(content), |Split(content)|) == []
  {
  }

  /** From any line on: a suffix of all rows. */
  lemma {:induction false} RowsSuffix<R>(parse: seq<Byte> -> Line<R>, lines: seq<seq<Byte>>, i: nat, from: nat)
    requires i <= from <= |lines|
    ensures var all := RowsFrom(parse, lines, i); var tail := RowsFrom(parse, lines, from);
      |tail| <= |all| && all[|all| - |tail|..] == tail
    decreases from - i
  {
    hide RowOf;
    if i < from {
      RowsSuffix(parse, lines, i + 1, from);
      var one, rest, tail := RowOf(parse(lines[i]), i + 1), RowsFrom(parse, lines, i + 1), RowsFrom(parse, lines, from);
      assert (one + rest)[|one + rest| - |tail|..] == rest[|rest| - |tail|..];
    }
  }

  lemma RowOfExactly<R>(l: Line<R>, number: nat, n: Numbered<R>)
    ensures n in RowOf(l, number) <==> n.line == number && l == Row(n.row)
  {
  }

  lemma InEither<T>(a: seq<T>, b: seq<T>, x: T)
    ensures x in a + b <==> x in a || x in b
  {
  }

  /** A row's number is the physical line it was read from. */
  lemma {:induction false} NumbersArePhysical<R>(parse: seq<Byte> -> Line<R>, lines: seq<seq<Byte>>, from: nat,
      n: Numbered<R>)
    ensures n in RowsFrom(parse, lines, from) <==> from < n.line <= |lines| && parse(lines[n.line - 1]) == Row(n.row)
    decreases |lines| - from
  {
    if from < |lines| {
      var one, rest := RowOf(parse(lines[from]), from + 1), RowsFrom(parse, lines, from + 1);
      assert RowsFrom(parse, lines, from) == one + rest;
      hide RowsFrom;
      NumbersArePhysical(parse, lines, from + 1, n);
      RowOfExactly(parse(lines[from]), from + 1, n);
      hide RowOf;
      InEither(one, rest, n);
    }
  }

  ghost predicate IsSuffix<T>(tail: seq<T>, all: seq<T>) {
    |tail| <= |all| && all[|all| - |tail|..] == tail
  }

  lemma FirstLineBound(content: seq<Byte>, max: nat)
    ensures FirstLine(content, max) <= |Split(content)|
    ensures |content| <= max ==> FirstLine(content, max) == 0
  {
    hide Split, CountLf;
    var o := Offset(content, max);
    LinesCounted(content);
    CutCounted(content, o);
    if |content| <= max {
      NoneBefore(content[..o]);
    }
  }

  lemma CutCounted(content: seq<Byte>, o: nat)
    requires o <= |content|
    ensures CountLf(content[..o]) <= CountLf(content)
  {
    hide CountLf;
    assert content == content[..o] + content[o..];
    CountJoins(content[..o], content[o..]);
  }

  /** The window's rows are the last of the whole file's rows; with a limit of at least the file's
      size they are all of them. */
  lemma WindowIsSuffix<R>(parse: seq<Byte> -> Line<R>, content: seq<Byte>, max: nat)
    ensures IsSuffix(RowsFrom(parse, Split(content), FirstLine(content, max)), RowsFrom(parse, Split(content), 0))
    ensures |content| <= max ==> FirstLine(content, max) == 0
  {
    hide Split, FirstLine, RowsFrom;
    FirstLineBound(content, max);
    RowsSuffix(parse, Split(content), 0, FirstLine(content, max));
  }

  // ---- the scan ----

  /** How many of the first n lines hold anything. */
  function Scanned<R>(parse: seq<Byte> -> Line<R>, lines: seq<seq<Byte>>, n: nat): nat
    requires n <= |lines|
  {
    if n == 0 then 0 else Scanned(parse, lines, n - 1) + if parse(lines[n - 1]) == Blank then 0 else 1
  }

  /** How many of them hold something else than an object. */
  function Bad<R>(parse: seq<Byte> -> Line<R>, lines: seq<seq<Byte>>, n: nat): nat
    requires n <= |lines|
  {
    if n == 0 then 0 else Bad(parse, lines, n - 1) + if parse(lines[n - 1]) == Unparsable then 1 else 0
  }

  /** Their rows, numbered from `first`. */
  function RowsUpTo<R>(parse: seq<Byte> -> Line<R>, lines: seq<seq<Byte>>, n: nat, first: nat): seq<Numbered<R>>
    requires n <= |lines|
  {
    if n == 0 then [] else RowsUpTo(parse, lines, n - 1, first) + RowOf(parse(lines[n - 1]), first + n - 1)
  }

  lemma {:induction false} RowsBothWays<R>(parse: seq<Byte> -> Line<R>, lines: seq<seq<Byte>>, i: nat, shift: nat)
    requires i <= |lines|
    ensures RowsUpTo(parse, lines, i, shift + 1) + Shifted(RowsFrom(parse, lines, i), shift) ==
      RowsUpTo(parse, lines, |lines|, shift + 1)
    decreases |lines| - i
  {
    if i == |lines| {
      assert RowsUpTo(parse, lines, i, shift + 1) + [] == RowsUpTo(parse, lines, i, shift + 1);
    } else {
      RowsBothWays(parse, lines, i + 1, shift);
      var one, rest := RowOf(parse(lines[i]), shift + 1 + i), RowsFrom(parse, lines, i + 1);
      ShiftOne(parse(lines[i]), i + 1, rest, shift);
      hide Shifted, RowOf;
      Regroup(RowsUpTo(parse, lines, i, shift + 1), one, Shifted(rest, shift));
    }
  }

  lemma Regroup<T>(a: seq<T>, b: seq<T>, c: seq<T>)
    ensures a + (b + c) == (a + b) + c
  {
  }

  /** The loop over the lines of the window. */
  method ScanLines<R>(parse: seq<Byte> -> Line<R>, lines: seq<seq<Byte>>, first: nat)
    returns (rows: seq<Numbered<R>>, scanned: nat, unparsable: nat)
    ensures rows == RowsUpTo(parse, lines, |lines|, first)
    ensures scanned == Scanned(parse, lines, |lines|) && unparsable == Bad(parse, lines, |lines|)
  {
    rows, scanned, unparsable := [], 0, 0;
    for i := 0 to |lines|
      invariant rows == RowsUpTo(parse, lines, i, first)
      invariant scanned == Scanned(parse, lines, i) && unparsable == Bad(parse, lines, i)
    {
      match parse(lines[i]) {
        case Blank =>
        case Unparsable => scanned, unparsable := scanned + 1, unparsable + 1;
        case Row(r) => scanned, rows := scanned + 1, rows + [Numbered(first + i, r)];
      }
    }
  }

  /** Seeks to the window and reads the rest of the line it falls into. */
  method SeekWindow(content: seq<Byte>, max: nat) returns (offset: nat)
    ensures offset == Offset(content, max)
  {
    offset := 0;
    if |content| > max {
      var start := |content| - max;
      offset := start + FirstLf(content[start..]);
      if offset < |content| {
        offset := offset + 1;
      }
    }
  }

  method ScanTail<R>(parse: seq<Byte> -> Line<R>, content: seq<Byte>, max: nat) returns (scan: Scan<R>)
    requires parse([]) == Blank
    ensures scan.rows == RowsFrom(parse, Split(content), FirstLine(content, max))
    ensures IsSuffix(scan.rows, RowsFrom(parse, Split(content), 0))
    ensures |content| <= max ==> scan.rows == RowsFrom(parse, Split(content), 0)
    ensures var o := Offset(content, max); var window := Split(content[o..]);
      && scan.scanned == Scanned(parse, window, |window|) && scan.unparsable == Bad(parse, window, |window|)
      && scan.bytesRead == |content| - o && (scan.truncated <==> |content| > max)
        && scan.outside == CountLf(content[..o])
  {
    hide Split, CountLf, RowsFrom, RowsUpTo, Scanned, Bad, Offset, FirstLine;
    var offset := SeekWindow(content, max);
    var raw := content[offset..];
    var first := CountLf(content[..offset]) + 1;
    var rows, scanned, unparsable := ScanLines(parse, Split(raw), first);
    scan := Scan(rows, |raw|, |content| > max, scanned, first - 1, unparsable);
    RowsAsNumbered(parse, Split(raw), first - 1);
    TailIsSuffix(parse, content, max);
    WindowIsSuffix(parse, content, max);
  }

  lemma RowsAsNumbered<R>(parse: seq<Byte> -> Line<R>, lines: seq<seq<Byte>>, shift: nat)
    ensures RowsUpTo(parse, lines, |lines|, shift + 1) == Shifted(RowsFrom(parse, lines, 0), shift)
  {
    RowsBothWays(parse, lines, 0, shift);
    assert [] + Shifted(RowsFrom(parse, lines, 0), shift) == Shifted(RowsFrom(parse, lines, 0), shift);
  }

  /** `outside` is the number of lines the window leaves out, except that a last line without line
      feed is not counted when it has at least as many bytes as the window. */
  lemma OutsideMissesOne(content: seq<Byte>, max: nat)
    ensures var o := Offset(content, max); var skipped := CountLf(content[..o]);
      if o == |content| > 0 && content[o - 1] != LF then skipped + 1 == |Split(content)|
      else skipped + |Split(content[o..])| == |Split(content)|
  {
    var o := Offset(content, max);
    LinesCounted(content);
    LinesCounted(content[o..]);
    assert content == content[..o] + content[o..];
    CountJoins(content[..o], content[o..]);
  }

  // ---- what is counted ----

  function Glue(pieces: seq<seq<Byte>>): seq<Byte> {
    if pieces == [] then [] else if |pieces| == 1 then pieces[0] else pieces[0] + [LF] + Glue(pieces[1..])
  }

  /** The lines are the text cut at every line feed. */
  lemma {:induction false} LinesAreCutAtLf(s: seq<Byte>)
    ensures Glue(Split(s)) == s && forall i | 0 <= i < |Split(s)| :: LF !in Split(s)[i]
    decreases |s|
  {
    var i := FirstLf(s);
    if i < |s| {
      LinesAreCutAtLf(s[i + 1..]);
      assert Split(s)[1..] == Split(s[i + 1..]);
      assert s == s[..i] + [LF] + s[i + 1..];
    }
  }

  lemma OneMoreCounted(was: set<nat>, now: set<nat>, n: nat, hit: bool)
    requires forall i | i in was :: i < n
    requires now == was + if hit then {n} else {}
    ensures |now| == |was| + if hit then 1 else 0
  {
  }

  function LfBelow(s: seq<Byte>, n: nat): set<nat> { set i: nat | i < n && i < |s| && s[i] == LF }

  lemma {:induction false} CountedLf(s: seq<Byte>)
    ensures CountLf(s) == |LfBelow(s, |s|)|
  {
    if s != [] {
      var n: nat := |s| - 1;
      CountedLf(s[..n]);
      assert LfBelow(s, n) == LfBelow(s[..n], n);
      OneMoreCounted(LfBelow(s, n), LfBelow(s, |s|), n, s[n] == LF);
    }
  }

  ghost function Holding<R>(parse: seq<Byte> -> Line<R>, lines: seq<seq<Byte>>, n: nat): set<nat> {
    set i: nat | i < n && i < |lines| && parse(lines[i]) != Blank
  }

  /** `scanned` counts the lines that hold anything. */
  lemma {:induction false} ScannedIsTrue<R>(parse: seq<Byte> -> Line<R>, lines: seq<seq<Byte>>, n: nat)
    requires n <= |lines|
    ensures Scanned(parse, lines, n) == |Holding(parse, lines, n)|
  {
    if n > 0 {
      ScannedIsTrue(parse, lines, n - 1);
      var hit := parse(lines[n - 1]) != Blank;
      var was, now := Holding(parse, lines, n - 1), Holding(parse, lines, n);
      assert now == was + if hit then {n - 1} else {};
      OneMoreCounted(was, now, n - 1, hit);
    }
  }

  ghost function Unreadable<R>(parse: seq<Byte> -> Line<R>, lines: seq<seq<Byte>>, n: nat): set<nat> {
    set i: nat | i < n && i < |lines| && parse(lines[i]) == Unparsable
  }

  /** `unparsable` counts those that hold no object. */
  lemma {:induction false} UnparsableIsTrue<R>(parse: seq<Byte> -> Line<R>, lines: seq<seq<Byte>>, n: nat)
    requires n <= |lines|
    ensures Bad(parse, lines, n) == |Unreadable(parse, lines, n)|
  {
    if n > 0 {
      UnparsableIsTrue(parse, lines, n - 1);
      var hit := parse(lines[n - 1]) == Unparsable;
      var was, now := Unreadable(parse, lines, n - 1), Unreadable(parse, lines, n);
      assert now == was + if hit then {n - 1} else {};
      OneMoreCounted(was, now, n - 1, hit);
    }
  }
}
