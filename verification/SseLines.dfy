/**
 * Reading server-sent events: chunks of text are cut into lines at any line ending and the data
 * lines are parsed. However the text is cut into chunks, what comes out is the same.
 */
module SseLines {
  import opened Options
  import opened Text

  // ---- one line ----

  const BOM := '\U{FEFF}'

  function StripBom(s: string): string {
    if s != "" && s[0] == BOM then StripBom(s[1..]) else s
  }

  function DropCr(s: string): string {
    if s != "" && s[|s| - 1] == '\r' then s[..|s| - 1] else s
  }

  const DATA := "data:"
  const DONE := "[DONE]"

  /** The text after `data:`, or None for any other line. */
  function Payload(line: string): Option<string> {
    var l := Strip(DropCr(StripBom(Strip(line))));
    if DATA <= l then Some(Strip(l[|DATA|..])) else None
  }

  /** The data of a line, as a list of at most one element. */
  function DataOf(line: string): (d: seq<string>)
    ensures |d| <= 1
  {
    match Payload(line) case None => [] case Some(p) => [p]
  }

  /** The objects among the data; `parse` stands for JSON and yields None for anything that is not an object. */
  function Objects<O>(parse: string -> Option<O>, data: seq<string>): seq<O> {
    if data == [] then []
    else
      var last := data[|data| - 1];
      Objects(parse, data[..|data| - 1])
      + if last == "" || last == DONE then [] else match parse(last) case None => [] case Some(o) => [o]
  }

  // ---- a whole text ----

  function ReplaceCrLf(s: string): string {
    if s == "" then ""
    else if s[0] == '\r' && |s| > 1 && s[1] == '\n' then "\n" + ReplaceCrLf(s[2..])
    else [s[0]] + ReplaceCrLf(s[1..])
  }

  function ReplaceCr(s: string): string {
    if s == "" then "" else [if s[0] == '\r' then '\n' else s[0]] + ReplaceCr(s[1..])
  }

  /** Every line ending becomes a newline. */
  function Normalised(s: string): string { ReplaceCr(ReplaceCrLf(s)) }

  /** Position of the first newline, or the length. */
  function Newline(s: string): (i: nat)
    ensures i <= |s| && (i < |s| ==> s[i] == '\n')
    ensures forall k | 0 <= k < i :: s[k] != '\n'
  {
    if s == "" || s[0] == '\n' then 0 else 1 + Newline(s[1..])
  }

  /** The data of all lines of a normalised text. */
  function Data(s: string): seq<string>
    decreases |s|
  {
    var i := Newline(s);
    if i == |s| then DataOf(s) else DataOf(s[..i]) + Data(s[i + 1..])
  }

  function Flat(chunks: seq<string>): string {
    if chunks == [] then "" else chunks[0] + Flat(chunks[1..])
  }

  /** What a reader sees who normalises chunk by chunk. */
  function Seen(chunks: seq<string>): string {
    if chunks == [] then "" else Normalised(chunks[0]) + Seen(chunks[1..])
  }

  // ---- what one line says ----

  predicate Boms(s: string) {
    forall k | 0 <= k < |s| :: s[k] == BOM
  }

  /** The line is `data:` and p, with blanks around each and byte order marks in front. */
  ghost predicate Says(line: string, p: string) {
    NoBlankEnds(p) && exists a, b, c, d, e ::
      (Blank(a) && Boms(b) && Blank(c) && Blank(d) && Blank(e) && line == a + b + c + DATA + d + p + e)
  }

  lemma {:induction false} BomsAreCut(b: string, rest: string)
    requires Boms(b) && (rest == "" || rest[0] != BOM)
    ensures StripBom(b + rest) == rest
  {
    if b != "" {
      assert (b + rest)[1..] == b[1..] + rest;
      BomsAreCut(b[1..], rest);
    } else {
      assert b + rest == rest;
    }
  }

  lemma {:induction false} BomsExactly(s: string) returns (b: string)
    ensures Boms(b) && s == b + StripBom(s) && (StripBom(s) == "" || StripBom(s)[0] != BOM)
  {
    b := "";
    if s != "" && s[0] == BOM {
      b := BomsExactly(s[1..]);
      b := [BOM] + b;
    }
  }

  /** A stripped line has no return left at its end. */
  lemma {:induction false} NoReturnLeft(t: string, b: string, u: string)
    requires NoBlankEnds(t) && t == b + u
    ensures DropCr(u) == u
  {
    assert u != "" ==> u[|u| - 1] == t[|t| - 1];
  }

  /** A line has the data p exactly when it says p. */
  lemma {:induction false} PayloadIff(line: string, p: string)
    ensures Payload(line) == Some(p) <==> Says(line, p)
  {
    if Payload(line) == Some(p) {
      PayloadIsSaid(line, p);
    }
    if Says(line, p) {
      var a, b, c, d, e :| Blank(a) && Boms(b) && Blank(c) && Blank(d) && Blank(e)
        && line == a + b + c + DATA + d + p + e;
      SaidIsPayload(a, b, c, d, p, e);
    }
  }

  lemma {:induction false} PayloadIsSaid(line: string, p: string)
    requires Payload(line) == Some(p)
    ensures Says(line, p)
  {
    hide Payload, Strip, StripBom, DropCr, IsSpace, Blank, Boms, NoBlankEnds, Says;
    var l := Strip(DropCr(StripBom(Strip(line))));
    PayloadStarts(line, p);
    var a, b, c, y, z := PartsOf(line);
    var d, x := StripExactly(l[|DATA|..]);
    BlankJoins(x, y);
    BlankJoins(x + y, z);
    SaysThese(a, b, c, d, p, x + y + z);
    assert l == DATA + (d + p + x);
    assert line == a + b + c + DATA + d + p + (x + y + z);
  }

  lemma SaysThese(a: string, b: string, c: string, d: string, p: string, e: string)
    requires Blank(a) && Boms(b) && Blank(c) && Blank(d) && Blank(e) && NoBlankEnds(p)
    ensures Says(a + b + c + DATA + d + p + e, p)
  {
  }

  lemma PayloadStarts(line: string, p: string)
    requires Payload(line) == Some(p)
    ensures var l := Strip(DropCr(StripBom(Strip(line)))); DATA <= l && p == Strip(l[|DATA|..])
  {
    hide Strip, StripBom, DropCr;
  }

  /** What is cut off a line: blanks, marks and blanks in front, blanks behind. */
  lemma {:induction false} PartsOf(line: string) returns (a: string, b: string, c: string, y: string, z: string)
    ensures line == a + b + c + Strip(DropCr(StripBom(Strip(line)))) + y + z
    ensures Blank(a) && Boms(b) && Blank(c) && Blank(y) && Blank(z)
  {
    hide Strip, StripBom, DropCr, IsSpace, Blank, Boms, NoBlankEnds;
    var t := Strip(line);
    a, z := StripExactly(line);
    b := BomsExactly(t);
    var u := StripBom(t);
    NoReturnLeft(t, b, u);
    c, y := StripExactly(u);
    assert t == b + (c + Strip(u) + y);
  }

  lemma BlankJoins(a: string, b: string)
    requires Blank(a) && Blank(b)
    ensures Blank(a + b)
  {
  }

  lemma {:induction false} SaidIsPayload(a: string, b: string, c: string, d: string, p: string, e: string)
    requires NoBlankEnds(p) && Blank(a) && Boms(b) && Blank(c) && Blank(d) && Blank(e)
    ensures Payload(a + b + c + DATA + d + p + e) == Some(p)
  {
    var line := a + b + c + DATA + d + p + e;
    if p == "" {
      var tail := d + e;
      assert line == a + b + c + DATA + tail;
      CutsToCore(a, b, c, DATA, tail);
      assert DATA[|DATA|..] == "";
    } else {
      CoreOf(d, p);
      var core := DATA + d + p;
      assert line == a + b + c + core + e;
      hide Blank, NoBlankEnds, Strip, StripBom, DropCr;
      CutsToCore(a, b, c, core, e);
    }
  }

  lemma {:induction false} CoreOf(d: string, p: string)
    requires Blank(d) && NoBlankEnds(p) && p != ""
    ensures var core := DATA + d + p;
      NoBlankEnds(core) && core[0] != BOM && DATA <= core && Strip(core[|DATA|..]) == p
  {
    var core := DATA + d + p;
    assert core[0] == 'd' && core[|core| - 1] == p[|p| - 1];
    assert core[|DATA|..] == d + p + "";
    hide Strip;
    StripAround(d, p, "");
  }

  lemma {:induction false} CutsToCore(a: string, b: string, c: string, core: string, tail: string)
    requires Blank(a) && Boms(b) && Blank(c) && Blank(tail) && core != "" && NoBlankEnds(core) && core[0] != BOM
    ensures Strip(DropCr(StripBom(Strip(a + b + c + core + tail)))) == core
  {
    var line, u := a + b + c + core + tail, c + core;
    hide Strip, StripBom, DropCr, IsSpace, Blank, Boms;
    FirstIsNoBom(c, core);
    if b == "" {
      assert line == (a + c) + core + tail && "" + core == core;
      BlankJoins(a, c);
      StripAround(a + c, core, tail);
      BomsAreCut("", core);
      NoReturnLeft(core, "", core);
      StripAgain(core);
    } else {
      var t := b + u;
      assert line == a + t + tail;
      EndsStay(b, u, core);
      StripAround(a, t, tail);
      BomsAreCut(b, u);
      NoReturnLeft(t, b, u);
      StripBlankFront(c, core);
    }
  }

  lemma FirstIsNoBom(c: string, core: string)
    requires Blank(c) && core != "" && core[0] != BOM
    ensures (c + core)[0] != BOM
  {
  }

  /** Marks are no blanks, so a text that begins with them has no blank there. */
  lemma EndsStay(b: string, u: string, core: string)
    requires Boms(b) && b != "" && core != "" && NoBlankEnds(core)
    requires |core| <= |u| && u[|u| - |core|..] == core
    ensures NoBlankEnds(b + u)
  {
    assert (b + u)[0] == BOM;
    assert (b + u)[|b + u| - 1] == u[|u| - 1] == core[|core| - 1];
  }

  lemma StripAgain(core: string)
    requires NoBlankEnds(core)
    ensures Strip(core) == core
  {
    hide Strip;
    StripAround("", core, "");
    assert "" + core + "" == core;
  }

  lemma StripBlankFront(c: string, core: string)
    requires Blank(c) && NoBlankEnds(core)
    ensures Strip(c + core) == core
  {
    hide Strip;
    StripAround(c, core, "");
    assert c + core + "" == c + core;
  }

  /** A line ends at a line feed, at a return, or at both together, and each ending ends one line. */
  lemma {:induction false} EachLineCounts(line: string, end: string, rest: string)
    requires forall k | 0 <= k < |line| :: line[k] != '\n' && line[k] != '\r'
    requires end == "\n" || end == "\r\n" || (end == "\r" && (rest == "" || rest[0] != '\n'))
    ensures Data(Normalised(line + end + rest)) == DataOf(line) + Data(Normalised(rest))
    ensures Data(Normalised(line)) == DataOf(line)
  {
    hide Data, DataOf;
    PlainStays(line);
    NormalisedJoins(line, end + rest);
    assert line + end + rest == line + (end + rest);
    assert Normalised(end + rest) == "\n" + Normalised(rest) by {
      EndsAreNewlines(rest);
      NormalisedJoins(end, rest);
    }
    assert Newline(line) == |line|;
    FirstLine(line, Normalised(rest));
    LastLine(line);
    assert line + ("\n" + Normalised(rest)) == line + "\n" + Normalised(rest);
  }

  lemma {:induction false} PlainStays(line: string)
    requires forall k | 0 <= k < |line| :: line[k] != '\n' && line[k] != '\r'
    ensures Normalised(line) == line && Newline(line) == |line|
  {
    if line != "" {
      PlainStays(line[1..]);
    }
  }

  /** Each text of the data that is not empty, not the end mark and parses is one object, in its place. */
  lemma EachObjectCounts<O>(parse: string -> Option<O>, a: seq<string>, d: string, b: seq<string>)
    ensures Objects(parse, a + [d] + b) == Objects(parse, a)
      + (if d != "" && d != DONE && parse(d).Some? then [parse(d).value] else []) + Objects(parse, b)
  {
    ObjectsJoin(parse, a + [d], b);
    ObjectsJoin(parse, a, [d]);
    assert [d][..0] == [];
  }

  // ---- where lines end does not depend on the chunks ----

  lemma FirstLine(line: string, rest: string)
    requires Newline(line) == |line|
    ensures Data(line + "\n" + rest) == DataOf(line) + Data(rest)
  {
    hide DataOf;
    var s := line + "\n" + rest;
    assert s[|line|] == '\n' && forall k | 0 <= k < |line| :: s[k] == line[k];
    assert Newline(s) == |line|;
    assert s[..|line|] == line && s[|line| + 1..] == rest;
  }

  lemma {:induction false} DataSplits(a: string, b: string)
    ensures Data(a + "\n" + b) == Data(a) + Data(b)
    decreases |a|
  {
    hide DataOf;
    var i := Newline(a);
    if i == |a| {
      FirstLine(a, b);
    } else {
      var line, rest := a[..i], a[i + 1..];
      assert Newline(line) == i;
      assert a == line + "\n" + rest;
      assert a + "\n" + b == line + "\n" + (rest + "\n" + b);
      FirstLine(line, rest + "\n" + b);
      DataSplits(rest, b);
    }
  }

  lemma {:induction false} ReplaceCrJoins(a: string, b: string)
    ensures ReplaceCr(a + b) == ReplaceCr(a) + ReplaceCr(b)
  {
    if a == "" {
      assert a + b == b;
    } else {
      assert (a + b)[0] == a[0] && (a + b)[1..] == a[1..] + b;
      ReplaceCrJoins(a[1..], b);
    }
  }

  /** Unless the cut is between CR and LF. */
  lemma {:induction false} ReplaceCrLfJoins(a: string, b: string)
    requires !(a != "" && a[|a| - 1] == '\r' && b != "" && b[0] == '\n')
    ensures ReplaceCrLf(a + b) == ReplaceCrLf(a) + ReplaceCrLf(b)
    decreases |a|
  {
    if a == "" {
      assert a + b == b;
    } else if a[0] == '\r' && |a| > 1 && a[1] == '\n' {
      assert (a + b)[2..] == a[2..] + b;
      ReplaceCrLfJoins(a[2..], b);
    } else {
      assert (a + b)[1..] == a[1..] + b;
      ReplaceCrLfJoins(a[1..], b);
    }
  }

  lemma NormalisedJoins(a: string, b: string)
    requires !(a != "" && a[|a| - 1] == '\r' && b != "" && b[0] == '\n')
    ensures Normalised(a + b) == Normalised(a) + Normalised(b)
  {
    ReplaceCrLfJoins(a, b);
    ReplaceCrJoins(ReplaceCrLf(a), ReplaceCrLf(b));
  }

  /** A cut between CR and LF makes one empty line more, which holds no data. */
  lemma CutIsHarmless(p: string, a: string, b: string)
    ensures Data(p + Normalised(a) + Normalised(b)) == Data(p + Normalised(a + b))
  {
    hide Normalised, Data;
    if a != "" && a[|a| - 1] == '\r' && b != "" && b[0] == '\n' {
      var front, back := a[..|a| - 1], b[1..];
      assert a == front + "\r" && b == "\n" + back && a + b == front + ("\r\n" + back);
      NormalisedJoins(front, "\r");
      NormalisedJoins("\n", back);
      NormalisedJoins(front, "\r\n" + back);
      EndsAreNewlines(back);
      OneLineMore(p + Normalised(front), Normalised(back));
      assert p + Normalised(a) + Normalised(b) == p + Normalised(front) + "\n" + "\n" + Normalised(back);
      assert p + Normalised(a + b) == p + Normalised(front) + "\n" + Normalised(back);
    } else {
      NormalisedJoins(a, b);
      assert p + Normalised(a) + Normalised(b) == p + (Normalised(a) + Normalised(b));
    }
  }

  lemma OneLineMore(q: string, rest: string)
    ensures Data(q + "\n" + "\n" + rest) == Data(q + "\n" + rest)
  {
    hide Data;
    assert q + "\n" + "" == q + "\n";
    DataSplits(q, "");
    EndsAreNewlines("");
    assert Data(q + "\n") == Data(q);
    DataSplits(q + "\n", rest);
    DataSplits(q, rest);
  }

  lemma EndsAreNewlines(s: string)
    ensures Normalised("\r") == "\n" && Normalised("\n") == "\n" && Normalised("\r\n" + s) == "\n" + Normalised(s)
    ensures Data("") == []
  {
  }

  lemma {:induction false} ChunksDoNotMatter(p: string, chunks: seq<string>)
    ensures Data(p + Seen(chunks)) == Data(p + Normalised(Flat(chunks)))
    decreases |chunks|
  {
    if chunks != [] {
      hide Normalised, Data;
      var c, rest := chunks[0], chunks[1..];
      var q := p + Normalised(c);
      assert p + Seen(chunks) == q + Seen(rest) && Flat(chunks) == c + Flat(rest);
      hide Seen, Flat;
      ChunksDoNotMatter(q, rest);
      CutIsHarmless(p, c, Flat(rest));
    }
  }

  /** Two ways of cutting one text into chunks give the same data, so the same objects and end mark. */
  lemma CutAnyway(left: seq<string>, right: seq<string>)
    requires Flat(left) == Flat(right)
    ensures Data(Seen(left)) == Data(Seen(right))
  {
    ChunksDoNotMatter("", left);
    ChunksDoNotMatter("", right);
    assert "" + Seen(left) == Seen(left) && "" + Seen(right) == Seen(right);
  }

  // ---- the loop ----

  lemma {:induction false} ObjectsJoin<O>(parse: string -> Option<O>, a: seq<string>, b: seq<string>)
    ensures Objects(parse, a + b) == Objects(parse, a) + Objects(parse, b)
    decreases |b|
  {
    if b == [] {
      assert a + b == a;
    } else {
      var n := |b| - 1;
      assert (a + b)[..|a| + n] == a + b[..n];
      ObjectsJoin(parse, a, b[..n]);
    }
  }

  lemma {:induction false} SeenGrows(chunks: seq<string>, i: nat)
    requires i < |chunks|
    ensures Seen(chunks[..i + 1]) == Seen(chunks[..i]) + Normalised(chunks[i])
  {
    if i == 0 {
      assert chunks[..1][1..] == [] && chunks[..0] == [];
    } else {
      SeenGrows(chunks[1..], i - 1);
      assert chunks[..i + 1][1..] == chunks[1..][..i] && chunks[..i][1..] == chunks[1..][..i - 1];
    }
  }

  lemma {:induction false} BlankStrips(s: string)
    requires Strip(s) == ""
    ensures DataOf(s) == []
  {
  }

  /** Yields the objects of all chunks; `done` says whether the end mark was seen. */
  method IterSseObjects<O>(parse: string -> Option<O>, chunks: seq<string>) returns (objects: seq<O>, done: bool)
    ensures objects == Objects(parse, Data(Normalised(Flat(chunks))))
    ensures done <==> DONE in Data(Normalised(Flat(chunks)))
  {
    hide Normalised, DataOf, Data, Objects, Seen, Flat, Strip, Consumed;
    objects, done := [], false;
    var buf := "";
    ghost var data: seq<string>, read := [], "";
    NothingYet(parse);
    for i := 0 to |chunks|
      invariant read + buf == Seen(chunks[..i]) && Consumed(read, data) && Newline(buf) == |buf|
      invariant objects == Objects(parse, data) && (done <==> DONE in data)
    {
      SeenGrows(chunks, i);
      buf := buf + Normalised(chunks[i]);
      while Newline(buf) < |buf|
        invariant read + buf == Seen(chunks[..i + 1]) && Consumed(read, data)
        invariant objects == Objects(parse, data) && (done <==> DONE in data)
        decreases |buf|
      {
        var n := Newline(buf);
        var one := buf[..n];
        assert buf == one + "\n" + buf[n + 1..];
        ConsumeLine(read, data, one);
        ObjectsJoin(parse, data, DataOf(one));
        objects, done := Feed(parse, one, objects, done);
        data, read, buf := data + DataOf(one), read + (one + "\n"), buf[n + 1..];
      }
    }
    assert chunks[..|chunks|] == chunks;
    ChunksDoNotMatter("", chunks);
    assert "" + Seen(chunks) == Seen(chunks) && "" + Normalised(Flat(chunks)) == Normalised(Flat(chunks));
    ConsumedData(read, data, buf);
    LastLine(buf);
    ObjectsJoin(parse, data, DataOf(buf));
    if Strip(buf) != "" {
      objects, done := Feed(parse, buf, objects, done);
    } else {
      BlankStrips(buf);
      assert data + [] == data;
    }
  }

  /** The lines read so far, each with its newline, hold `data`. */
  ghost predicate Consumed(read: string, data: seq<string>) {
    (read == "" && data == []) || exists r :: read == r + "\n" && Data(r) == data
  }

  lemma NothingYet<O>(parse: string -> Option<O>)
    ensures Consumed("", []) && Objects(parse, []) == [] && Seen([]) == ""
  {
  }

  lemma ConsumedData(read: string, data: seq<string>, more: string)
    requires Consumed(read, data)
    ensures Data(read + more) == data + Data(more)
  {
    if read == "" {
      assert read + more == more;
    } else {
      var r :| read == r + "\n" && Data(r) == data;
      DataSplits(r, more);
    }
  }

  lemma LastLine(line: string)
    requires Newline(line) == |line|
    ensures Data(line) == DataOf(line)
  {
  }

  lemma ConsumeLine(read: string, data: seq<string>, one: string)
    requires Consumed(read, data) && Newline(one) == |one|
    ensures Consumed(read + (one + "\n"), data + DataOf(one))
  {
    hide Data, DataOf, Newline;
    ConsumedData(read, data, one);
    LastLine(one);
    var r := read + one;
    assert read + (one + "\n") == r + "\n";
    assert Data(r) == data + DataOf(one);
  }

  method Feed<O>(parse: string -> Option<O>, one: string, objects: seq<O>, done: bool)
      returns (more: seq<O>, ended: bool)
    ensures more == objects + Objects(parse, DataOf(one)) && (ended <==> done || DONE in DataOf(one))
  {
    more, ended := objects, done;
    match Payload(one) {
      case None =>
      case Some(p) =>
        assert DataOf(one)[..0] == [];
        if p == DONE {
          ended := true;
        }
        if p != "" && p != DONE {
          var o := parse(p);
          if o.Some? {
            more := more + [o.value];
          }
        }
    }
  }
}
