/** Rewriting the lines between two marker lines of a text, as replaceBlockLines does, seen as a lens:
    `Put` writes the block, `Get` reads it back. */
module MarkerBlocks {
  import opened JsMaps
  import opened Text

  // ---- indexOf and lastIndexOf ----

  ghost predicate OccursAt(t: string, p: string, i: int) {
    0 <= i <= |t| - |p| && t[i..i + |p|] == p
  }

  /** `i` is the first place at or after `from` where `p` occurs. */
  ghost predicate IsFirst(t: string, p: string, from: int, i: int) {
    from <= i && OccursAt(t, p, i) && forall j :: from <= j < i ==> !OccursAt(t, p, j)
  }

  function IndexOf(t: string, p: string, from: nat): (r: Option<nat>)
    ensures r.Some? ==> IsFirst(t, p, from, r.value)
    ensures r.None? ==> forall j :: from <= j ==> !OccursAt(t, p, j)
    decreases |t| - from
  {
    if from + |p| > |t| then None
    else if t[from..from + |p|] == p then Some(from)
    else IndexOf(t, p, from + 1)
  }

  lemma FirstIsIndexOf(t: string, p: string, from: nat, i: nat)
    requires IsFirst(t, p, from, i)
    ensures IndexOf(t, p, from) == Some(i)
  {
    var r := IndexOf(t, p, from);
    assert OccursAt(t, p, i);
    if r.Some? { assert OccursAt(t, p, r.value); }
  }

  /** Where the line of position `i` starts: after the last newline at or before it. */
  function LineStart(t: string, i: nat): (r: nat)
    requires i < |t|
    ensures r <= i + 1 && (r > 0 ==> t[r - 1] == '\n')
    ensures forall j :: r <= j <= i ==> t[j] != '\n'
  {
    if t[i] == '\n' then i + 1 else if i == 0 then 0 else LineStart(t, i - 1)
  }

  /** Just past the newline that ends the line of position `i`, or the end of the text. */
  function LineEnd(t: string, i: nat): (r: nat)
    requires i <= |t|
    ensures i <= r <= |t|
    ensures forall j :: i <= j < r - 1 ==> t[j] != '\n'
    ensures r < |t| ==> r > i && t[r - 1] == '\n'
    decreases |t| - i
  {
    if i == |t| then i else if t[i] == '\n' then i + 1 else LineEnd(t, i + 1)
  }

  // ---- the block ----

  datatype Error = MissingStart | MissingEnd
  datatype Result<+T> = Ok(value: T) | Err(error: Error)

  /** The two marker positions, where the start marker's line starts and the end marker's line ends, and the
      text before the start marker on its line. */
  datatype Block = Block(start: nat, end: nat, lineStart: nat, lineEnd: nat, indent: string)

  function Find(t: string, s: string, e: string): (r: Result<Block>)
    requires s != ""
    ensures r.Ok? ==> r.value.lineStart <= |t| && r.value.lineEnd <= |t|
    ensures r == Err(MissingStart) <==> forall j :: !OccursAt(t, s, j)
    ensures r == Err(MissingEnd) ==> exists i :: IsFirst(t, s, 0, i) && forall j :: i <= j ==> !OccursAt(t, e, j)
    ensures r.Ok? ==> IsFirst(t, s, 0, r.value.start) && IsFirst(t, e, r.value.start, r.value.end)
  {
    match IndexOf(t, s, 0)
    case None => Err(MissingStart)
    case Some(start) =>
      assert OccursAt(t, s, start);
      match IndexOf(t, e, start)
      case None => Err(MissingEnd)
      case Some(end) =>
        assert OccursAt(t, e, end);
        var lineStart := LineStart(t, start);
        Ok(Block(start, end, lineStart, LineEnd(t, end), if lineStart <= start then t[lineStart..start] else ""))
  }

  /** The lines of the block as written: the two marker lines and the given lines, all with the indent. */
  function BlockLines(indent: string, s: string, e: string, lines: seq<string>): seq<string> {
    [indent + s] + Indented(indent, lines) + [indent + e]
  }

  function Indented(indent: string, lines: seq<string>): seq<string> {
    seq(|lines|, i requires 0 <= i < |lines| => indent + lines[i])
  }

  /** replaceBlockLines. */
  function Put(t: string, s: string, e: string, lines: seq<string>): Result<string>
    requires s != ""
  {
    match Find(t, s, e)
    case Err(error) => Err(error)
    case Ok(b) =>
      var before, after := t[..b.lineStart], t[b.lineEnd..];
      var replacement := Join(BlockLines(b.indent, s, e, lines), "\n");
      if after == "" then Ok(before + replacement) else Ok(before + replacement + "\n" + after)
  }

  /** Reads the lines between the markers back, without their indent. */
  function Get(t: string, s: string, e: string): Result<seq<string>>
    requires s != ""
  {
    match Find(t, s, e)
    case Err(error) => Err(error)
    case Ok(b) =>
      var body := if b.start + |s| <= b.end <= |t| then t[b.start + |s|..b.end] else "";
      var parts := Split(body, '\n');
      if |parts| < 2 then Ok([])
      else Ok(seq(|parts| - 2, i requires 0 <= i < |parts| - 2 => DropIndent(parts[i + 1], b.indent)))
  }

  function DropIndent(line: string, indent: string): string {
    if indent <= line then line[|indent|..] else line
  }

  // ---- when the end marker is found where it was written ----

  ghost predicate Absent(t: string, p: string) {
    forall j :: !OccursAt(t, p, j)
  }

  /** What the markers must be for the line arithmetic to work at all. */
  predicate Markers(s: string, e: string) {
    s != "" && s[0] != '\n' && e != "" && '\n' !in e
  }

  /** No line that is written before the last contains the end marker. */
  ghost predicate NoEarlyEnd(indent: string, s: string, e: string, lines: seq<string>) {
    Absent(s, e) && forall l :: l in lines ==> Absent(indent + l, e)
  }

  lemma NotAcrossNewline(a: string, b: string, e: string, j: int)
    requires '\n' !in e && OccursAt(a + "\n" + b, e, j) && j <= |a|
    ensures j + |e| <= |a|
  {
    var w := a + "\n" + b;
    assert w[|a|] == '\n';
    assert forall i :: 0 <= i < |e| ==> e[i] == w[j + i];
  }

  /** A newline-free pattern occurs before or after a newline, never across it. */
  lemma OccursOnOneSide(a: string, b: string, e: string, j: int)
    requires '\n' !in e && OccursAt(a + "\n" + b, e, j)
    ensures OccursAt(a, e, j) || OccursAt(b, e, j - |a| - 1)
  {
    var w := a + "\n" + b;
    if j > |a| {
      assert w[j..j + |e|] == b[j - |a| - 1..j - |a| - 1 + |e|];
    } else {
      NotAcrossNewline(a, b, e, j);
      assert w[j..j + |e|] == a[j..j + |e|];
    }
  }

  lemma FirstAfterNewline(a: string, b: string, e: string, k: nat)
    requires e != "" && '\n' !in e && Absent(a, e) && IsFirst(b, e, 0, k)
    ensures IsFirst(a + "\n" + b, e, 0, |a| + 1 + k)
  {
    var w := a + "\n" + b;
    assert w[|a| + 1 + k..|a| + 1 + k + |e|] == b[k..k + |e|];
    forall j | OccursAt(w, e, j) ensures j >= |a| + 1 + k {
      OccursOnOneSide(a, b, e, j);
    }
  }

  /** The lines after the start marker's, as one text. */
  function Following(indent: string, e: string, lines: seq<string>): string {
    Join(Indented(indent, lines) + [indent + e], "\n")
  }

  lemma FollowingUnfolds(indent: string, e: string, lines: seq<string>)
    requires lines != []
    ensures Following(indent, e, lines) == indent + lines[0] + "\n" + Following(indent, e, lines[1..])
  {
    var all := Indented(indent, lines) + [indent + e];
    assert all[1..] == Indented(indent, lines[1..]) + [indent + e];
  }

  /** Without an early end marker the first one is on the last line, where the last line alone has it. */
  lemma {:induction false} FirstInLines(indent: string, e: string, lines: seq<string>, k: nat)
    requires e != "" && '\n' !in e && IsFirst(indent + e, e, 0, k) && k <= |indent|
    requires forall l :: l in lines ==> Absent(indent + l, e)
    ensures var w := Following(indent, e, lines);
      && |w| >= |indent + e| && w[|w| - |indent + e|..] == indent + e
      && IsFirst(w, e, 0, |w| - |indent + e| + k)
  {
    hide IsFirst, OccursAt, Absent;
    if lines == [] {
      assert Indented(indent, lines) + [indent + e] == [indent + e];
    } else {
      FirstInLines(indent, e, lines[1..], k);
      FollowingUnfolds(indent, e, lines);
      hide Following;
      assert lines[0] in lines;
      var rest := Following(indent, e, lines[1..]);
      FirstAfterNewline(indent + lines[0], rest, e, |rest| - |indent + e| + k);
      LastOf(indent + lines[0] + "\n", rest, |indent + e|);
    }
  }

  lemma LastOf(a: string, b: string, n: nat)
    requires n <= |b|
    ensures (a + b)[|a + b| - n..] == b[|b| - n..]
  {
  }

  /** The end marker is followed by a newline somewhere after its first occurrence: it came early. */
  ghost predicate Early(w: string, e: string) {
    exists j :: OccursAt(w, e, j) && '\n' in w[j..]
  }

  lemma EarlyBefore(a: string, b: string, e: string)
    requires !Absent(a, e)
    ensures Early(a + "\n" + b, e)
  {
    var j :| OccursAt(a, e, j);
    var w := a + "\n" + b;
    assert w[j..j + |e|] == a[j..j + |e|];
    assert w[j..][|a| - j] == '\n';
  }

  lemma EarlyAfter(a: string, b: string, e: string)
    requires Early(b, e)
    ensures Early(a + "\n" + b, e)
  {
    var j :| OccursAt(b, e, j) && '\n' in b[j..];
    var w := a + "\n" + b;
    assert w[|a| + 1 + j..|a| + 1 + j + |e|] == b[j..j + |e|];
    assert w[|a| + 1 + j..] == b[j..];
    assert OccursAt(w, e, |a| + 1 + j);
  }

  lemma {:induction false} EarlyInLines(indent: string, e: string, lines: seq<string>)
    requires exists l :: l in lines && !Absent(indent + l, e)
    ensures Early(Following(indent, e, lines), e)
  {
    hide Early, Absent, Following;
    FollowingUnfolds(indent, e, lines);
    if !Absent(indent + lines[0], e) {
      EarlyBefore(indent + lines[0], Following(indent, e, lines[1..]), e);
    } else {
      EarlyInLines(indent, e, lines[1..]);
      EarlyAfter(indent + lines[0], Following(indent, e, lines[1..]), e);
    }
  }

  /** What follows the indent of the start marker in a written block. */
  function Tail(indent: string, s: string, e: string, lines: seq<string>): string {
    s + "\n" + Following(indent, e, lines)
  }

  lemma WrittenBlock(indent: string, s: string, e: string, lines: seq<string>)
    ensures Join(BlockLines(indent, s, e, lines), "\n") == indent + Tail(indent, s, e, lines)
  {
    var rest := Indented(indent, lines) + [indent + e];
    assert BlockLines(indent, s, e, lines) == [indent + s] + rest;
    JoinConcat([indent + s], rest, "\n");
    assert indent + s + "\n" + Join(rest, "\n") == indent + (s + "\n" + Join(rest, "\n"));
  }

  lemma {:induction false} FollowingEnds(indent: string, e: string, lines: seq<string>)
    ensures var w := Following(indent, e, lines); |w| >= |e| && w[|w| - |e|..] == e
  {
    if lines == [] {
      assert Indented(indent, lines) + [indent + e] == [indent + e];
    } else {
      FollowingEnds(indent, e, lines[1..]);
      FollowingUnfolds(indent, e, lines);
      hide Following;
      LastOf(indent + lines[0] + "\n", Following(indent, e, lines[1..]), |e|);
    }
  }

  lemma TailEnds(indent: string, s: string, e: string, lines: seq<string>)
    ensures var w := Tail(indent, s, e, lines); |w| >= |e| && w[|w| - |e|..] == e && s <= w
  {
    FollowingEnds(indent, e, lines);
    hide Following;
    LastOf(s + "\n", Following(indent, e, lines), |e|);
  }

  /** The first end marker in a written block. */
  function EndIn(indent: string, s: string, e: string, lines: seq<string>): (q: nat)
    ensures var w := Tail(indent, s, e, lines); q + |e| <= |w| && IsFirst(w, e, 0, q)
  {
    var w := Tail(indent, s, e, lines);
    TailEnds(indent, s, e, lines);
    assert OccursAt(w, e, |w| - |e|);
    IndexOf(w, e, 0).value
  }

  lemma FirstIsUnique(w: string, e: string, i: int, j: int)
    requires IsFirst(w, e, 0, i) && IsFirst(w, e, 0, j)
    ensures i == j
  {
  }

  /** The first end marker is on the last line exactly when no earlier line contains it. */
  lemma EndOnLastLineExactly(indent: string, s: string, e: string, lines: seq<string>)
    requires Markers(s, e) && '\n' !in indent
    ensures NoEarlyEnd(indent, s, e, lines) <==> '\n' !in Tail(indent, s, e, lines)[EndIn(indent, s, e, lines)..]
  {
    if NoEarlyEnd(indent, s, e, lines) {
      EndOnLastLine(indent, s, e, lines);
    } else {
      EarlyEnd(indent, s, e, lines);
    }
  }

  lemma EndOnLastLine(indent: string, s: string, e: string, lines: seq<string>)
    requires Markers(s, e) && '\n' !in indent && NoEarlyEnd(indent, s, e, lines)
    ensures '\n' !in Tail(indent, s, e, lines)[EndIn(indent, s, e, lines)..]
    ensures IsFirst(indent + e, e, 0, |indent|) ==> EndIn(indent, s, e, lines) == |Tail(indent, s, e, lines)| - |e|
  {
    hide *;
    var k := FirstInLast(indent, e);
    var w := Tail(indent, s, e, lines);
    FirstInTail(indent, s, e, lines, k);
    FirstIsUnique(w, e, EndIn(indent, s, e, lines), |w| - |indent + e| + k);
    LastFrom(w, indent, e, k) by { OneLineMarkers(s, e); }
    if IsFirst(indent + e, e, 0, |indent|) { FirstIsUnique(indent + e, e, k, |indent|); }
  }

  lemma OneLineMarkers(s: string, e: string)
    requires Markers(s, e)
    ensures '\n' !in e
  {
  }

  lemma FirstInLast(indent: string, e: string) returns (k: nat)
    ensures k <= |indent| && IsFirst(indent + e, e, 0, k)
  {
    var last := indent + e;
    assert last[|indent|..|indent| + |e|] == e;
    assert OccursAt(last, e, |indent|);
    k := IndexOf(last, e, 0).value;
  }

  lemma FirstInTail(indent: string, s: string, e: string, lines: seq<string>, k: nat)
    requires Markers(s, e) && NoEarlyEnd(indent, s, e, lines) && k <= |indent| && IsFirst(indent + e, e, 0, k)
    ensures var w := Tail(indent, s, e, lines);
      && |w| >= |indent + e| && w[|w| - |indent + e|..] == indent + e && IsFirst(w, e, 0, |w| - |indent + e| + k)
  {
    hide Following, OccursAt, IsFirst, Absent;
    var rest := Following(indent, e, lines);
    FirstInLines(indent, e, lines, k);
    FirstAfterNewline(s, rest, e, |rest| - |indent + e| + k);
    LastOf(s + "\n", rest, |indent + e|);
  }

  lemma LastFrom(w: string, indent: string, e: string, k: nat)
    requires |w| >= |indent + e| && w[|w| - |indent + e|..] == indent + e && k <= |indent|
    requires '\n' !in indent && '\n' !in e
    ensures '\n' !in w[|w| - |indent + e| + k..]
  {
    assert w[|w| - |indent + e| + k..] == (indent + e)[k..];
    assert forall c :: c in (indent + e)[k..] ==> c in indent + e;
  }

  lemma EarlyEnd(indent: string, s: string, e: string, lines: seq<string>)
    requires Markers(s, e) && !NoEarlyEnd(indent, s, e, lines)
    ensures '\n' in Tail(indent, s, e, lines)[EndIn(indent, s, e, lines)..]
  {
    var w, q := Tail(indent, s, e, lines), EndIn(indent, s, e, lines);
    assert Early(w, e) by {
      hide Early, Following, Absent;
      if !Absent(s, e) {
        EarlyBefore(s, Following(indent, e, lines), e);
      } else {
        EarlyInLines(indent, e, lines);
        EarlyAfter(s, Following(indent, e, lines), e);
      }
    }
    var j :| OccursAt(w, e, j) && '\n' in w[j..];
    assert q <= j && w[j..] == w[q..][j - q..];
  }

  // ---- positions in a rewritten text ----

  lemma SamePart(t: string, u: string, k: nat, i: nat, j: nat)
    requires i <= j <= k <= |t| && k <= |u| && u[..k] == t[..k]
    ensures u[i..j] == t[i..j] && u[..i] == t[..i]
  {
    PartOfPrefix(t, k, i, j);
    PartOfPrefix(u, k, i, j);
  }

  lemma PartOfPrefix(t: string, k: nat, i: nat, j: nat)
    requires i <= j <= k <= |t|
    ensures t[i..j] == t[..k][i..j] && t[..i] == t[..k][..i]
  {
  }

  lemma FirstByPrefix(t: string, u: string, p: string, from: nat, i: nat, k: nat)
    requires IsFirst(t, p, from, i) && i + |p| <= k <= |t| && k <= |u| && u[..k] == t[..k]
    ensures IsFirst(u, p, from, i)
  {
    forall j: nat | j <= i ensures OccursAt(u, p, j) <==> OccursAt(t, p, j) {
      SamePart(t, u, k, j, j + |p|);
    }
  }

  lemma OccursInMiddle(a: string, w: string, b: string, e: string, j: int)
    requires 0 <= j <= |w| - |e|
    ensures OccursAt(a + w + b, e, |a| + j) <==> OccursAt(w, e, j)
  {
    assert (a + w + b)[|a| + j..|a| + j + |e|] == w[j..j + |e|];
  }

  lemma FirstEmbedded(a: string, w: string, b: string, e: string, q: nat)
    requires IsFirst(w, e, 0, q)
    ensures IsFirst(a + w + b, e, |a|, |a| + q)
  {
    var u := a + w + b;
    assert OccursAt(w, e, q) && q <= |w| - |e|;
    OccursInMiddle(a, w, b, e, q);
    hide OccursAt;
    forall j | |a| <= j < |a| + q ensures OccursAt(u, e, j) <==> OccursAt(w, e, j - |a|) {
      OccursInMiddle(a, w, b, e, j - |a|);
    }
  }

  lemma {:induction false} LineStartByPrefix(t: string, u: string, i: nat)
    requires i < |t| && i < |u| && t[..i + 1] == u[..i + 1]
    ensures LineStart(t, i) == LineStart(u, i)
  {
    assert t[i] == t[..i + 1][i] && u[i] == u[..i + 1][i];
    if t[i] != '\n' && i > 0 {
      assert t[..i] == t[..i + 1][..i] && u[..i] == u[..i + 1][..i];
      LineStartByPrefix(t, u, i - 1);
    }
  }

  lemma {:induction false} LineEndAfter(a: string, w: string, after: string)
    requires '\n' !in w
    ensures LineEnd(a + w, |a|) == |a + w|
    ensures LineEnd(a + w + "\n" + after, |a|) == |a + w| + 1
    decreases |w|
  {
    var u, v := a + w, a + w + "\n" + after;
    if w == "" {
      assert v[|a|] == '\n';
    } else {
      assert u[|a|] == w[0] && v[|a|] == w[0];
      assert a + [w[0]] + w[1..] == u;
      LineEndAfter(a + [w[0]], w[1..], after);
    }
  }

  /** The rest of a text after its block, with the newline that ends the end marker's line. */
  function Rest(after: string): string {
    if after == "" then "" else "\n" + after
  }

  lemma EndFound(a: string, w: string, e: string, q: nat, x: string)
    requires IsFirst(w, e, 0, q)
    ensures IndexOf(a + w + x, e, |a|) == Some(|a| + q)
  {
    hide IndexOf, IsFirst, OccursAt;
    FirstEmbedded(a, w, x, e, q);
    FirstIsIndexOf(a + w + x, e, |a|, |a| + q);
  }

  lemma EndLine(a: string, e: string, after: string)
    requires '\n' !in e
    ensures var u := a + e + Rest(after); |a| <= |u| && u[LineEnd(u, |a|)..] == after
  {
    LineEndAfter(a, e, after);
    var u := a + e + Rest(after);
    if after == "" {
      assert u == a + e;
    } else {
      assert u == a + e + "\n" + after;
    }
  }

  lemma PutIs(t: string, s: string, e: string, lines: seq<string>)
    requires s != "" && s[0] != '\n' && Find(t, s, e).Ok?
    ensures var b := Find(t, s, e).value;
      b.start <= |t| && Put(t, s, e, lines) == Ok(t[..b.start] + Tail(b.indent, s, e, lines) + Rest(t[b.lineEnd..]))
  {
    hide Tail, Find, LineStart, LineEnd, IndexOf, IsFirst, OccursAt, BlockLines, Join;
    var b := Find(t, s, e).value;
    StartOnItsLine(t, s, e);
    WrittenBlock(b.indent, s, e, lines);
    JoinPieces(t[..b.lineStart], b.indent, Tail(b.indent, s, e, lines), t[b.lineEnd..]);
    assert t[..b.start] == t[..b.lineStart] + b.indent;
  }

  lemma JoinPieces(before: string, indent: string, w: string, after: string)
    ensures before + (indent + w) + Rest(after) == before + indent + w + Rest(after)
    ensures before + (indent + w) == before + indent + w + ""
    ensures before + (indent + w) + "\n" + after == before + indent + w + ("\n" + after)
  {
  }

  lemma FindIs(u: string, s: string, e: string, start: nat, end: nat)
    requires s != "" && IndexOf(u, s, 0) == Some(start) && IndexOf(u, e, start) == Some(end)
    requires start < |u| && end <= |u| && LineStart(u, start) <= start
    ensures Find(u, s, e) ==
      Ok(Block(start, end, LineStart(u, start), LineEnd(u, end), u[LineStart(u, start)..start]))
  {
    hide IndexOf, LineStart, LineEnd;
  }

  lemma FindWritten(t: string, b: Block, u: string, s: string, e: string, w: string, q: nat, x: string)
    requires s != "" && s <= w && q <= |w|
    requires IsFirst(t, s, 0, b.start) && IsFirst(w, e, 0, q) && b.start < |t|
    requires b.lineStart == LineStart(t, b.start) <= b.start && b.indent == t[b.lineStart..b.start]
    requires u == t[..b.start] + w + x
    ensures b.start + q <= |u| && Find(u, s, e) == Ok(Block(b.start, b.start + q, b.lineStart, LineEnd(u, b.start + q), b.indent))
  {
    hide LineEnd, LineStart, IndexOf, Find, IsFirst, OccursAt;
    var a := t[..b.start];
    FirstPart(a, w, x);
    SameStart(t, u, s, b.start, w + x);
    EndFound(a, w, e, q, x);
    FindIs(u, s, e, b.start, b.start + q);
    SamePart(t, u, b.start, b.lineStart, b.start);
  }

  /** What Find sees in a text whose block was just written, early end marker or not. */
  lemma FindAfterPut(t: string, s: string, e: string, lines: seq<string>)
    requires Markers(s, e) && Find(t, s, e).Ok?
    ensures Put(t, s, e, lines).Ok?
    ensures var b, u := Find(t, s, e).value, Put(t, s, e, lines).value;
      var w, q := Tail(b.indent, s, e, lines), EndIn(b.indent, s, e, lines);
      && b.start <= |t| && u == t[..b.start] + w + Rest(t[b.lineEnd..]) && b.start + q <= |u|
      && Find(u, s, e) == Ok(Block(b.start, b.start + q, b.lineStart, LineEnd(u, b.start + q), b.indent))
  {
    hide LineEnd, LineStart, IndexOf, Find, IsFirst, OccursAt, Put, Tail, EndIn, Rest;
    var b := Find(t, s, e).value;
    PutIs(t, s, e, lines);
    StartOnItsLine(t, s, e);
    TailEnds(b.indent, s, e, lines);
    FoundLineStart(t, s, e);
    var w, q := Tail(b.indent, s, e, lines), EndIn(b.indent, s, e, lines);
    var u := t[..b.start] + w + Rest(t[b.lineEnd..]);
    FindWritten(t, b, u, s, e, w, q, Rest(t[b.lineEnd..]));
  }

  /** What follows the block afterwards: the same as before, unless the end marker was found early. */
  lemma AfterBlock(a: string, w: string, e: string, q: nat, after: string)
    requires e != "" && '\n' !in e && q + |e| <= |w| && w[|w| - |e|..] == e
    ensures var u := a + w + Rest(after);
      && ('\n' !in w[q..] ==> u[LineEnd(u, |a| + q)..] == after)
      && ('\n' in w[q..] ==> |u[LineEnd(u, |a| + q)..]| > |after|)
  {
    hide *;
    if '\n' !in w[q..] {
      EndLine(a + w[..q], w[q..], after);
      CutAnywhere(a, w, q);
    } else {
      LineEndsEarly(a, w, e, q, after);
    }
  }

  lemma CutAnywhere(a: string, w: string, q: nat)
    requires q <= |w|
    ensures a + w[..q] + w[q..] == a + w && |a + w[..q]| == |a| + q
  {
  }

  lemma LineEndsEarly(a: string, w: string, e: string, q: nat, after: string)
    requires e != "" && '\n' !in e && q + |e| <= |w| && w[|w| - |e|..] == e && '\n' in w[q..]
    ensures var u := a + w + Rest(after); |u[LineEnd(u, |a| + q)..]| > |after|
  {
    var u := a + w + Rest(after);
    var i :| q <= i < |w| && w[i] == '\n';
    assert i < |w| - |e| by { assert forall j :: |w| - |e| <= j < |w| ==> w[j] == e[j - (|w| - |e|)]; }
    assert u[|a| + i] == '\n';
    assert LineEnd(u, |a| + q) <= |a| + i + 1;
  }

  lemma FoundLineStart(t: string, s: string, e: string)
    requires s != "" && Find(t, s, e).Ok?
    ensures var b := Find(t, s, e).value; b.start < |t| && b.lineStart == LineStart(t, b.start)
  {
  }

  lemma FirstPart(a: string, w: string, x: string)
    ensures (a + w + x)[..|a|] == a && a + w + x == a + (w + x)
  {
  }

  lemma StartOnItsLine(t: string, s: string, e: string)
    requires s != "" && s[0] != '\n' && Find(t, s, e).Ok?
    ensures var b := Find(t, s, e).value;
      b.lineStart <= b.start < |t| && b.indent == t[b.lineStart..b.start] && t[b.start] == s[0]
  {
    var b := Find(t, s, e).value;
    assert OccursAt(t, s, b.start);
    assert t[b.start..b.start + |s|][0] == s[0];
  }

  lemma SameStart(t: string, u: string, s: string, start: nat, rest: string)
    requires s != "" && IsFirst(t, s, 0, start) && u == t[..start] + rest && s <= rest
    ensures IndexOf(u, s, 0) == Some(start) && start < |u| && start < |t| && LineStart(u, start) == LineStart(t, start)
  {
    assert t[..start + |s|] == t[..start] + s by { assert t[start..start + |s|] == s; }
    assert u[..start + |s|] == t[..start] + s;
    FirstByPrefix(t, u, s, 0, start, start + |s|);
    FirstIsIndexOf(u, s, 0, start);
    assert t[..start + 1] == t[..start + |s|][..start + 1] == u[..start + |s|][..start + 1] == u[..start + 1];
    LineStartByPrefix(t, u, start);
  }

  // ---- the laws ----

  /** A later write sees the rewritten text as it would the original, except for what follows the block. */
  lemma PutAfterPut(t: string, s: string, e: string, a: seq<string>, b: seq<string>)
    requires Markers(s, e) && Find(t, s, e).Ok?
    ensures var f, u := Find(t, s, e).value, Put(t, s, e, a).value;
      && Find(u, s, e).Ok? && f.start <= |t|
      && Put(u, s, e, b) == Ok(t[..f.start] + Tail(f.indent, s, e, b) + Rest(u[Find(u, s, e).value.lineEnd..]))
  {
    FindAfterPut(t, s, e, a);
    var f, u := Find(t, s, e).value, Put(t, s, e, a).value;
    PutIs(u, s, e, b);
    hide Find, Put, Tail, Rest, EndIn, LineEnd;
    FirstPart(t[..f.start], Tail(f.indent, s, e, a), Rest(t[f.lineEnd..]));
  }

  /** What is left after the block when it is found again. */
  function Left(t: string, s: string, e: string, a: seq<string>): string
    requires s != "" && Find(t, s, e).Ok?
  {
    var r := Find(Put(t, s, e, a).value, s, e);
    if r.Ok? then Put(t, s, e, a).value[r.value.lineEnd..] else ""
  }

  lemma LeftIs(t: string, s: string, e: string, a: seq<string>, before: string, q: nat)
    requires s != "" && Find(t, s, e).Ok? && Put(t, s, e, a).Ok?
    requires var u := Put(t, s, e, a).value;
      && Find(u, s, e).Ok? && |before| + q <= |u| && Find(u, s, e).value.lineEnd == LineEnd(u, |before| + q)
    ensures var u := Put(t, s, e, a).value; Left(t, s, e, a) == u[LineEnd(u, |before| + q)..]
  {
    hide Find, Put, LineEnd;
  }

  lemma LeftExactly(t: string, s: string, e: string, a: seq<string>)
    requires Markers(s, e) && Find(t, s, e).Ok?
    ensures var f := Find(t, s, e).value;
      if NoEarlyEnd(f.indent, s, e, a) then Left(t, s, e, a) == t[f.lineEnd..] else |Left(t, s, e, a)| > |t[f.lineEnd..]|
  {
    hide *;
    MarkersStart(s, e);
    OneLineMarkers(s, e);
    FindAfterPut(t, s, e, a);
    IndentIsOneLine(t, s, e);
    var f := Find(t, s, e).value;
    var before, w, q := t[..f.start], Tail(f.indent, s, e, a), EndIn(f.indent, s, e, a);
    EndOnLastLineExactly(f.indent, s, e, a);
    TailEnds(f.indent, s, e, a);
    LeftIs(t, s, e, a, before, q);
    AfterBlock(before, w, e, q, t[f.lineEnd..]);
  }

  lemma SamePutExactly(t: string, s: string, e: string, a: seq<string>, b: seq<string>)
    requires Markers(s, e) && Find(t, s, e).Ok?
    ensures Put(Put(t, s, e, a).value, s, e, b) == Put(t, s, e, b) <==>
      Rest(Left(t, s, e, a)) == Rest(t[Find(t, s, e).value.lineEnd..])
  {
    var f := Find(t, s, e).value;
    PutAfterPut(t, s, e, a, b);
    PutIs(t, s, e, b);
    hide Put, Find, Tail, Rest;
    SameTail(t[..f.start] + Tail(f.indent, s, e, b), Rest(Left(t, s, e, a)), Rest(t[f.lineEnd..]));
  }

  /** Writing A and then B is writing B, for every B, exactly when no line of A, nor the start marker, contains
      the end marker. */
  lemma PutPutExactly(t: string, s: string, e: string, a: seq<string>)
    requires Markers(s, e) && Find(t, s, e).Ok?
    ensures (forall b: seq<string> :: Put(Put(t, s, e, a).value, s, e, b) == Put(t, s, e, b))
      <==> NoEarlyEnd(Find(t, s, e).value.indent, s, e, a)
  {
    var after := t[Find(t, s, e).value.lineEnd..];
    LeftExactly(t, s, e, a);
    if |Left(t, s, e, a)| > |after| { RestGrows(Left(t, s, e, a), after); }
    hide *;
    forall b: seq<string>
      ensures Put(Put(t, s, e, a).value, s, e, b) == Put(t, s, e, b) <==> Rest(Left(t, s, e, a)) == Rest(after)
    {
      SamePutExactly(t, s, e, a, b);
    }
    SamePutExactly(t, s, e, a, []);
  }

  lemma SameTail(a: string, x: string, y: string)
    ensures a + x == a + y <==> x == y
  {
    assert (a + x)[|a|..] == x && (a + y)[|a|..] == y;
  }

  lemma RestGrows(x: string, y: string)
    requires |x| > |y|
    ensures Rest(x) != Rest(y)
  {
  }

  lemma IndentIsOneLine(t: string, s: string, e: string)
    requires s != "" && s[0] != '\n' && Find(t, s, e).Ok?
    ensures '\n' !in Find(t, s, e).value.indent
  {
    StartOnItsLine(t, s, e);
  }

  /** The text before the start marker's line and after the end marker's line is kept. */
  lemma OutsideIsKept(t: string, s: string, e: string, lines: seq<string>)
    requires Markers(s, e) && Find(t, s, e).Ok? && NoEarlyEnd(Find(t, s, e).value.indent, s, e, lines)
    ensures var b, u := Find(t, s, e).value, Put(t, s, e, lines).value;
      Find(u, s, e).Ok? && var r := Find(u, s, e).value;
      u[..r.lineStart] == t[..b.lineStart] && u[r.lineEnd..] == t[b.lineEnd..]
  {
    hide LineEnd, LineStart, IndexOf, Find, IsFirst, OccursAt, Put, Tail, EndIn, Rest, NoEarlyEnd;
    FindAfterPut(t, s, e, lines);
    var b, u := Find(t, s, e).value, Put(t, s, e, lines).value;
    LeftExactly(t, s, e, lines);
    StartOnItsLine(t, s, e);
    FirstPart(t[..b.start], Tail(b.indent, s, e, lines), Rest(t[b.lineEnd..]));
    SamePart(t, u, b.start, b.lineStart, b.start);
  }

  /** The rewritten text ends with the end marker when the block was the last thing in the text, even if a newline stood
      behind it; otherwise the marker is followed by one newline and what followed the block before. */
  lemma EndsAsBefore(t: string, s: string, e: string, lines: seq<string>)
    requires Markers(s, e) && Find(t, s, e).Ok?
    ensures Put(t, s, e, lines).Ok?
    ensures var u, after := Put(t, s, e, lines).value, t[Find(t, s, e).value.lineEnd..];
      var tail := if after == "" then e else e + "\n" + after;
      |tail| <= |u| && u[|u| - |tail|..] == tail
  {
    hide Find, Put, Tail, Following, Markers;
    MarkersStart(s, e);
    PutIs(t, s, e, lines);
    var b := Find(t, s, e).value;
    TailEnds(b.indent, s, e, lines);
    var w := Tail(b.indent, s, e, lines);
    assert w == w[..|w| - |e|] + e;
    assert t[..b.start] + w + Rest(t[b.lineEnd..]) == t[..b.start] + w[..|w| - |e|] + (e + Rest(t[b.lineEnd..]));
  }

  lemma MarkersStart(s: string, e: string)
    requires Markers(s, e)
    ensures s != "" && s[0] != '\n' && e != ""
  {
  }

  lemma {:induction false} BodyLines(indent: string, e: string, lines: seq<string>)
    requires '\n' !in indent && forall l :: l in lines ==> '\n' !in l
    ensures var w := Following(indent, e, lines);
      |w| >= |e| && Split(w[..|w| - |e|], '\n') == Indented(indent, lines) + [indent]
  {
    var w := Following(indent, e, lines);
    if lines == [] {
      assert Indented(indent, lines) + [indent + e] == [indent + e];
      assert w[..|w| - |e|] == indent;
      SplitPlain(indent, '\n');
    } else {
      BodyLines(indent, e, lines[1..]);
      FollowingUnfolds(indent, e, lines);
      assert lines[0] in lines;
      hide Following;
      var rest := Following(indent, e, lines[1..]);
      assert w[..|w| - |e|] == indent + lines[0] + "\n" + rest[..|rest| - |e|];
      SplitFirst(indent + lines[0], rest[..|rest| - |e|], '\n');
      assert Indented(indent, lines) + [indent] == [indent + lines[0]] + (Indented(indent, lines[1..]) + [indent]);
    }
  }

  /** The text between the markers of a written block. */
  lemma BodyAfterPut(t: string, s: string, e: string, lines: seq<string>)
    requires Markers(s, e) && Find(t, s, e).Ok?
    requires EndIn(Find(t, s, e).value.indent, s, e, lines) == |Tail(Find(t, s, e).value.indent, s, e, lines)| - |e|
    ensures var b, u := Find(t, s, e).value, Put(t, s, e, lines).value;
      var rest := Following(b.indent, e, lines);
      Find(u, s, e).Ok? && var r := Find(u, s, e).value;
      && r.start == b.start && r.indent == b.indent && r.start + |s| <= r.end <= |u| && |rest| >= |e|
      && u[r.start + |s|..r.end] == "\n" + rest[..|rest| - |e|]
  {
    hide LineEnd, LineStart, IndexOf, Find, IsFirst, OccursAt, Put, EndIn, Rest, Following;
    FindAfterPut(t, s, e, lines);
    var b := Find(t, s, e).value;
    FollowingEnds(b.indent, e, lines);
    BodyOf(t[..b.start], s, Following(b.indent, e, lines), e, Rest(t[b.lineEnd..]));
  }

  /** What was written is read back, line for line. */
  lemma PutGet(t: string, s: string, e: string, lines: seq<string>)
    requires Markers(s, e) && Find(t, s, e).Ok?
    requires var indent := Find(t, s, e).value.indent;
      NoEarlyEnd(indent, s, e, lines) && IsFirst(indent + e, e, 0, |indent|)
    requires forall l :: l in lines ==> '\n' !in l
    ensures Get(Put(t, s, e, lines).value, s, e) == Ok(lines)
  {
    hide LineEnd, LineStart, IndexOf, Find, IsFirst, OccursAt, Put, EndIn, Rest, Following, NoEarlyEnd, Tail, Split;
    var b := Find(t, s, e).value;
    IndentIsOneLine(t, s, e);
    EndOnLastLine(b.indent, s, e, lines);
    BodyLines(b.indent, e, lines);
    BodyAfterPut(t, s, e, lines);
    var rest := Following(b.indent, e, lines);
    var body := rest[..|rest| - |e|];
    SplitFirst([], body, '\n');
    assert [] + "\n" + body == "\n" + body;
    ReadLines(b.indent, lines);
  }

  lemma BodyOf(a: string, s: string, rest: string, e: string, x: string)
    requires |rest| >= |e|
    ensures var u := a + (s + "\n" + rest) + x;
      |a| + |s| + 1 + |rest| - |e| <= |u| && u[|a| + |s|..|a| + |s| + 1 + |rest| - |e|] == "\n" + rest[..|rest| - |e|]
  {
  }

  lemma ReadLines(indent: string, lines: seq<string>)
    ensures var parts := [[]] + (Indented(indent, lines) + [indent]);
      |parts| == |lines| + 2 && seq(|lines|, i requires 0 <= i < |lines| => DropIndent(parts[i + 1], indent)) == lines
  {
  }

  lemma BlankShift(indent: string, l: string, e: string, j: int)
    requires e != "" && !IsSpace(e[0]) && (forall c :: c in indent ==> IsSpace(c)) && OccursAt(indent + l, e, j)
    ensures j >= |indent| && OccursAt(l, e, j - |indent|)
  {
    hide IsSpace;
    assert (indent + l)[j] == (indent + l)[j..j + |e|][0] == e[0];
    assert forall i :: 0 <= i < |indent| ==> (indent + l)[i] in indent;
    assert (indent + l)[j..j + |e|] == l[j - |indent|..j - |indent| + |e|];
  }

  /** A blank indent before a marker that does not start with a blank changes nothing about where it occurs. */
  lemma BlankIndent(indent: string, l: string, e: string)
    requires e != "" && !IsSpace(e[0]) && forall c :: c in indent ==> IsSpace(c)
    ensures IsFirst(indent + e, e, 0, |indent|)
    ensures Absent(indent + l, e) <==> Absent(l, e)
  {
    assert (indent + e)[|indent|..|indent| + |e|] == e;
    assert OccursAt(indent + e, e, |indent|);
    forall j | OccursAt(indent + e, e, j) ensures j >= |indent| { BlankShift(indent, e, e, j); }
    forall j | OccursAt(indent + l, e, j) ensures OccursAt(l, e, j - |indent|) { BlankShift(indent, l, e, j); }
    forall j | OccursAt(l, e, j) ensures OccursAt(indent + l, e, j + |indent|) {
      assert (indent + l)[j + |indent|..j + |indent| + |e|] == l[j..j + |e|];
    }
  }
}
