/** Writing several blocks in any order: blocks that do not mention each other's markers do not disturb each other. */
module MarkerOrder {
  import opened JsMaps
  import opened Text
  import opened MarkerBlocks
  import opened MarkerSync

  // ---- whole lines before a text move its blocks and nothing else ----

  predicate WholeLines(p: string) {
    p == "" || p[|p| - 1] == '\n'
  }

  function Moved(b: Block, n: nat): Block {
    Block(b.start + n, b.end + n, b.lineStart + n, b.lineEnd + n, b.indent)
  }

  lemma OccursAfter(p: string, c: string, s: string, j: int)
    requires j >= 0
    ensures OccursAt(p + c, s, |p| + j) <==> OccursAt(c, s, j)
  {
    if |p| + j <= |p + c| - |s| { assert (p + c)[|p| + j..|p| + j + |s|] == c[j..j + |s|]; }
  }

  /** A marker on one line does not straddle the end of whole lines. */
  lemma OccursWithin(p: string, c: string, s: string, j: int)
    requires WholeLines(p) && '\n' !in s && OccursAt(p + c, s, j) && j < |p|
    ensures OccursAt(p, s, j)
  {
    var a := p[..|p| - 1];
    assert p + c == a + "\n" + c;
    NotAcrossNewline(a, c, s, j);
    assert p[j..j + |s|] == (p + c)[j..j + |s|];
  }

  lemma FirstMoves(p: string, c: string, s: string, from: nat, i: nat)
    requires from <= |c|
    ensures IsFirst(p + c, s, |p| + from, |p| + i) <==> IsFirst(c, s, from, i)
  {
    hide OccursAt;
    forall j: nat ensures OccursAt(p + c, s, |p| + j) <==> OccursAt(c, s, j) { OccursAfter(p, c, s, j); }
    if IsFirst(c, s, from, i) {
      forall j | |p| + from <= j < |p| + i ensures !OccursAt(p + c, s, j) {
        assert !OccursAt(c, s, j - |p|) && OccursAt(p + c, s, |p| + (j - |p|)) == OccursAt(c, s, j - |p|);
      }
    }
    if IsFirst(p + c, s, |p| + from, |p| + i) {
      forall j: nat | from <= j < i ensures !OccursAt(c, s, j) {
        assert !OccursAt(p + c, s, |p| + j);
      }
    }
  }

  lemma {:induction false} LineStartMoves(p: string, c: string, i: nat)
    requires WholeLines(p) && i < |c|
    ensures LineStart(p + c, |p| + i) == |p| + LineStart(c, i)
  {
    assert (p + c)[|p| + i] == c[i];
    if c[i] != '\n' {
      if i > 0 {
        LineStartMoves(p, c, i - 1);
      } else if p != "" {
        assert (p + c)[|p| - 1] == '\n';
      }
    }
  }

  lemma {:induction false} LineEndMoves(p: string, c: string, i: nat)
    requires i <= |c|
    ensures LineEnd(p + c, |p| + i) == |p| + LineEnd(c, i)
    decreases |c| - i
  {
    if i < |c| {
      assert (p + c)[|p| + i] == c[i];
      if c[i] != '\n' { LineEndMoves(p, c, i + 1); }
    }
  }

  lemma BlockMoves(p: string, c: string, s: string, e: string, b: Block)
    requires Markers(s, e) && WholeLines(p) && Find(c, s, e) == Ok(b)
    requires IndexOf(p + c, s, 0) == Some(|p| + b.start) && IndexOf(p + c, e, |p| + b.start) == Some(|p| + b.end)
    ensures Find(p + c, s, e) == Ok(Moved(b, |p|))
  {
    hide IndexOf, LineStart, LineEnd, IsFirst, OccursAt, Find;
    StartOnItsLine(c, s, e);
    FoundLineStart(c, s, e);
    FoundLineEnd(c, s, e);
    LineStartMoves(p, c, b.start);
    LineEndMoves(p, c, b.end);
    FindIs(p + c, s, e, |p| + b.start, |p| + b.end);
    assert (p + c)[|p| + b.lineStart..|p| + b.start] == c[b.lineStart..b.start];
  }

  lemma FoundLineEnd(t: string, s: string, e: string)
    requires s != "" && Find(t, s, e).Ok?
    ensures var b := Find(t, s, e).value; b.end <= |t| && b.lineEnd == LineEnd(t, b.end)
  {
    var b := Find(t, s, e).value;
    assert OccursAt(t, e, b.end);
  }

  lemma FirstPasted(p: string, c: string, s: string, i: nat)
    requires '\n' !in s && WholeLines(p) && Absent(p, s) && IsFirst(c, s, 0, i)
    ensures IsFirst(p + c, s, 0, |p| + i)
  {
    hide OccursAt, WholeLines;
    FirstMoves(p, c, s, 0, i);
    forall j | 0 <= j < |p| ensures !OccursAt(p + c, s, j) {
      if OccursAt(p + c, s, j) { OccursWithin(p, c, s, j); }
    }
  }

  /** Putting whole lines without the start marker in front moves the block. */
  lemma Pasted(p: string, c: string, s: string, e: string)
    requires Markers(s, e) && '\n' !in s && WholeLines(p) && Absent(p, s) && Find(c, s, e).Ok?
    ensures Find(p + c, s, e) == Ok(Moved(Find(c, s, e).value, |p|))
  {
    hide OccursAt, IsFirst, WholeLines, Absent, LineStart, LineEnd, IndexOf, Find;
    var b := Find(c, s, e).value;
    StartOnItsLine(c, s, e);
    FirstPasted(p, c, s, b.start);
    FirstMoves(p, c, e, b.start, b.end);
    FirstIsIndexOf(p + c, s, 0, |p| + b.start);
    FirstIsIndexOf(p + c, e, |p| + b.start, |p| + b.end);
    BlockMoves(p, c, s, e, b);
  }

  lemma FirstLater(p: string, c: string, s: string, i: nat)
    requires s != "" && IsFirst(p + c, s, 0, i) && i >= |p|
    ensures IsFirst(p + c, s, |p|, i) && Absent(p, s)
  {
    forall j ensures !OccursAt(p, s, j) {
      if OccursAt(p, s, j) {
        assert (p + c)[j..j + |s|] == p[j..j + |s|];
        assert OccursAt(p + c, s, j);
      }
    }
  }

  lemma FoundFrom(c: string, s: string, e: string, i: nat, k: nat)
    requires Markers(s, e) && IsFirst(c, s, 0, i) && IsFirst(c, e, i, k)
    ensures Find(c, s, e).Ok? && Find(c, s, e).value.start == i && Find(c, s, e).value.end == k
  {
    hide LineStart, LineEnd, OccursAt, IsFirst;
    FirstIsIndexOf(c, s, 0, i);
    FirstIsIndexOf(c, e, i, k);
  }

  /** Taking away whole lines in front of a block moves it back. */
  lemma CutOff(p: string, c: string, s: string, e: string)
    requires Markers(s, e) && WholeLines(p) && Find(p + c, s, e).Ok? && Find(p + c, s, e).value.start >= |p|
    ensures Find(c, s, e).Ok? && Find(p + c, s, e) == Ok(Moved(Find(c, s, e).value, |p|))
    ensures Absent(p, s)
  {
    hide OccursAt, IsFirst, WholeLines, Absent, LineStart, LineEnd, IndexOf, Find;
    var b := Find(p + c, s, e).value;
    var i, k := b.start - |p|, b.end - |p|;
    StartOnItsLine(p + c, s, e);
    EndIsLater(p + c, e, b.start, b.end);
    FirstLater(p, c, s, b.start);
    FirstMoves(p, c, s, 0, i);
    FirstMoves(p, c, e, i, k);
    FoundFrom(c, s, e, i, k);
    FirstIsIndexOf(p + c, s, 0, b.start);
    FirstIsIndexOf(p + c, e, b.start, b.end);
    BlockMoves(p, c, s, e, Find(c, s, e).value);
  }

  lemma EndIsLater(t: string, e: string, i: nat, k: nat)
    requires IsFirst(t, e, i, k)
    ensures i <= k
  {
  }

  lemma PutMoves(p: string, c: string, s: string, e: string, lines: seq<string>)
    requires Markers(s, e) && Find(c, s, e).Ok? && Find(p + c, s, e) == Ok(Moved(Find(c, s, e).value, |p|))
    ensures Put(c, s, e, lines).Ok? && Put(p + c, s, e, lines) == Ok(p + Put(c, s, e, lines).value)
  {
    hide Find, Put, Tail, LineEnd, Rest;
    var b := Find(c, s, e).value;
    PutIs(c, s, e, lines);
    PutIs(p + c, s, e, lines);
    StartOnItsLine(c, s, e);
    FoundLineEnd(c, s, e);
    MovedParts(p, c, b.start, b.lineEnd, Tail(b.indent, s, e, lines));
  }

  lemma MovedParts(p: string, c: string, i: nat, k: nat, w: string)
    requires i <= |c| && k <= |c|
    ensures (p + c)[..i + |p|] + w + Rest((p + c)[k + |p|..]) == p + (c[..i] + w + Rest(c[k..]))
  {
    hide Rest;
    assert (p + c)[..i + |p|] == p + c[..i];
    assert (p + c)[k + |p|..] == c[k..];
    var r := Rest(c[k..]);
    assert p + c[..i] + w + r == p + (c[..i] + w + r);
  }

  lemma SettledMoves(p: string, c: string, d: Edit)
    requires Markers(d.start, d.end) && Find(c, d.start, d.end).Ok?
    requires Find(p + c, d.start, d.end) == Ok(Moved(Find(c, d.start, d.end).value, |p|))
    ensures Settled(p + c, d) <==> Settled(c, d)
  {
    hide Find, Put;
    PutMoves(p, c, d.start, d.end, d.lines);
    var v := Put(c, d.start, d.end, d.lines).value;
    assert (p + v)[|p|..] == v && (p + c)[|p|..] == c;
  }

  // ---- one write among several blocks ----

  /** The block is found, and can be written cleanly. */
  ghost predicate Ready(t: string, d: Edit) {
    && Markers(d.start, d.end) && '\n' !in d.start && Find(t, d.start, d.end).Ok?
    && NoEarlyEnd(Find(t, d.start, d.end).value.indent, d.start, d.end, d.lines)
  }

  function BlockOf(t: string, d: Edit): Block
    requires d.start != "" && Find(t, d.start, d.end).Ok?
  {
    Find(t, d.start, d.end).value
  }

  /** The block as it is written. */
  function Written(indent: string, d: Edit): string {
    indent + Tail(indent, d.start, d.end, d.lines)
  }

  /** The two blocks have no line in common. */
  ghost predicate Apart(t: string, d: Edit, o: Edit)
    requires Ready(t, d) && Ready(t, o)
  {
    BlockOf(t, d).lineEnd <= BlockOf(t, o).lineStart || BlockOf(t, o).lineEnd <= BlockOf(t, d).lineStart
  }

  /** The first block, as it is written, does not hold the start marker of the second. */
  ghost predicate Foreign(t: string, d: Edit, o: Edit)
    requires Ready(t, d)
  {
    Absent(Written(BlockOf(t, d).indent, d), o.start)
  }

  lemma OccursInWhole(p: string, k: nat, s: string, j: int)
    requires k <= |p|
    ensures OccursAt(p[..k], s, j) ==> OccursAt(p, s, j)
  {
    if OccursAt(p[..k], s, j) { assert p[j..j + |s|] == p[..k][j..j + |s|]; }
  }

  lemma AbsentPrefix(p: string, k: nat, s: string)
    requires k <= |p| && Absent(p, s)
    ensures Absent(p[..k], s)
  {
    hide OccursAt;
    forall j ensures !OccursAt(p[..k], s, j) { OccursInWhole(p, k, s, j); }
  }

  lemma AbsentJoin(p: string, w: string, s: string)
    requires WholeLines(p) && '\n' !in s && Absent(p, s) && Absent(w, s)
    ensures Absent(p + w, s)
  {
    forall j ensures !OccursAt(p + w, s, j) {
      if OccursAt(p + w, s, j) {
        if j < |p| { OccursWithin(p, w, s, j); } else { OccursAfter(p, w, s, j - |p|); }
      }
    }
  }

  lemma AbsentNewline(p: string, s: string)
    requires s != "" && '\n' !in s && Absent(p, s)
    ensures Absent(p + "\n", s)
  {
    assert p + "\n" + "" == p + "\n";
    forall j ensures !OccursAt(p + "\n", s, j) {
      if OccursAt(p + "\n" + "", s, j) { OccursOnOneSide(p, "", s, j); }
    }
  }

  /** The text after a write: what stood before the block, the block, and what stood after it. */
  lemma WrittenText(u: string, d: Edit)
    requires Ready(u, d)
    ensures var b := BlockOf(u, d);
      && b.lineStart <= b.start < |u| && b.lineEnd <= |u| && WholeLines(u[..b.lineStart])
      && Put(u, d.start, d.end, d.lines) == Ok(u[..b.lineStart] + Written(b.indent, d) + Rest(u[b.lineEnd..]))
  {
    hide Find, Put, Tail, LineEnd, LineStart, Rest, NoEarlyEnd;
    var b := BlockOf(u, d);
    PutIs(u, d.start, d.end, d.lines);
    StartOnItsLine(u, d.start, d.end);
    FoundLineStart(u, d.start, d.end);
    FoundLineEnd(u, d.start, d.end);
    var w, r := Tail(b.indent, d.start, d.end, d.lines), Rest(u[b.lineEnd..]);
    assert u[..b.start] == u[..b.lineStart] + b.indent;
    assert u[..b.lineStart] + b.indent + w + r == u[..b.lineStart] + (b.indent + w) + r;
  }

  function After(u: string, d: Edit): string
    requires d.start != ""
  {
    var p := Put(u, d.start, d.end, d.lines);
    if p.Ok? then p.value else u
  }

  /** A block before the written one stays where it is; one after it moves with the text; neither changes otherwise. */
  ghost predicate Undisturbed(u: string, d: Edit, o: Edit)
    requires Ready(u, d) && Ready(u, o)
  {
    var v := After(u, d);
    && Ready(v, o)
    && (Settled(u, o) ==> Settled(v, o))
    && var b, r, n := BlockOf(u, o), BlockOf(v, o), if BlockOf(u, d).lineEnd <= BlockOf(u, o).lineStart then |v| - |u| else 0;
    r.indent == b.indent && r.lineStart == b.lineStart + n && r.lineEnd == b.lineEnd + n
  }

  /** The text cut at the end of the written block, before and after writing it. */
  lemma CutAtBlock(u: string, d: Edit)
    requires Ready(u, d) && BlockOf(u, d).lineEnd < |u|
    ensures var b := BlockOf(u, d);
      && b.lineStart <= b.lineEnd && b.lineStart <= |u|
      && After(u, d) == u[..b.lineStart] + Written(b.indent, d) + "\n" + u[b.lineEnd..]
      && WholeLines(u[..b.lineStart]) && WholeLines(u[..b.lineEnd])
      && WholeLines(u[..b.lineStart] + Written(b.indent, d) + "\n")
  {
    hide Find, Put, Written, NoEarlyEnd;
    WrittenText(u, d);
    LineEndIsWhole(u, d);
    StartsInside(u, d);
    var b := BlockOf(u, d);
    NewlineIsWhole(u[..b.lineStart] + Written(b.indent, d));
    var x, c := u[..b.lineStart] + Written(b.indent, d), u[b.lineEnd..];
    assert x + ("\n" + c) == x + "\n" + c;
  }

  lemma LaterIsAbsent(u: string, d: Edit, o: Edit)
    requires Ready(u, d) && Ready(u, o) && Foreign(u, d, o) && BlockOf(u, d).lineEnd <= BlockOf(u, o).lineStart
    ensures var b := BlockOf(u, d);
      && b.lineStart <= b.lineEnd < |u|
      && Absent(u[..b.lineStart] + Written(b.indent, d) + "\n", o.start)
      && Find(u[b.lineEnd..], o.start, o.end).Ok?
      && Find(u, o.start, o.end) == Ok(Moved(Find(u[b.lineEnd..], o.start, o.end).value, b.lineEnd))
  {
    hide Find, Put, Written, NoEarlyEnd, Absent, OccursAt, WholeLines;
    var b := BlockOf(u, d);
    StartOnItsLine(u, o.start, o.end);
    CutAtBlock(u, d);
    var a, p, c := u[..b.lineStart], u[..b.lineEnd], u[b.lineEnd..];
    assert u == p + c && p[..b.lineStart] == a;
    CutOff(p, c, o.start, o.end);
    AbsentPrefix(p, b.lineStart, o.start);
    AbsentJoin(a, Written(b.indent, d), o.start);
    AbsentNewline(a + Written(b.indent, d), o.start);
  }

  lemma LaterBlock(u: string, d: Edit, o: Edit)
    requires Ready(u, d) && Ready(u, o) && Foreign(u, d, o) && BlockOf(u, d).lineEnd <= BlockOf(u, o).lineStart
    ensures Undisturbed(u, d, o)
  {
    hide Find, Put, Written, NoEarlyEnd, Absent, OccursAt, WholeLines, Settled, After, Foreign;
    var b := BlockOf(u, d);
    LaterIsAbsent(u, d, o);
    CutAtBlock(u, d);
    var p, q, c := u[..b.lineEnd], u[..b.lineStart] + Written(b.indent, d) + "\n", u[b.lineEnd..];
    assert u == p + c;
    Pasted(q, c, o.start, o.end);
    SettledMoves(p, c, o);
    SettledMoves(q, c, o);
    assert |After(u, d)| - |u| == |q| - |p|;
  }

  lemma EarlierBlock(u: string, d: Edit, o: Edit)
    requires Ready(u, d) && Ready(u, o) && BlockOf(u, o).lineEnd <= BlockOf(u, d).lineStart
    ensures Undisturbed(u, d, o)
  {
    hide Find, Put, Settled, OccursAt, LineStart, LineEnd, Rest;
    var b, v := BlockOf(u, d), After(u, d);
    WrittenText(u, d);
    StartsBefore(u, o);
    StartsBefore(u, d);
    PrefixKept(u[..b.lineStart], Written(b.indent, d), Rest(u[b.lineEnd..]), u, b.lineStart);
    WrittenIsNotEmpty(b.indent, d);
    SamePart(u, v, b.lineStart, BlockOf(u, o).lineEnd, BlockOf(u, o).lineEnd);
    FindByPrefix(u, v, o.start, o.end);
    if Settled(u, o) { SettledByPrefix(u, v, o); }
  }

  lemma WrittenIsNotEmpty(indent: string, d: Edit)
    requires d.start != ""
    ensures Written(indent, d) != ""
  {
    TailEnds(indent, d.start, d.end, d.lines);
    hide Tail;
  }

  lemma PrefixKept(a: string, w: string, r: string, u: string, k: nat)
    requires k <= |u| && a == u[..k]
    ensures (a + w + r)[..k] == u[..k]
  {
  }

  /** A block starts before it ends. */
  lemma StartsBefore(u: string, d: Edit)
    requires Ready(u, d)
    ensures BlockOf(u, d).lineStart < BlockOf(u, d).lineEnd
  {
    hide Find;
    MarkersInside(u, d.start, d.end);
    StartOnItsLine(u, d.start, d.end);
  }

  /** The written block itself: found where it was, and settled. */
  lemma OwnBlock(u: string, d: Edit)
    requires Ready(u, d)
    ensures var v := After(u, d);
      && Put(u, d.start, d.end, d.lines) == Ok(v) && Ready(v, d) && Settled(v, d)
      && var b, r := BlockOf(u, d), BlockOf(v, d);
      r.indent == b.indent && r.lineStart == b.lineStart && r.lineEnd == b.lineEnd + |v| - |u|
  {
    hide Find, Put, Settled, Tail, EndIn, Rest, NoEarlyEnd, LineEnd, LineStart;
    var v := After(u, d);
    PutSettles(u, d);
    FindAfterPut(u, d.start, d.end, d.lines);
    OutsideIsKept(u, d.start, d.end, d.lines);
    FoundLineEnd(u, d.start, d.end);
    FoundLineEnd(v, d.start, d.end);
    var b, r := BlockOf(u, d), BlockOf(v, d);
    assert |v[r.lineEnd..]| == |u[b.lineEnd..]|;
  }

  lemma NewlineIsWhole(x: string)
    ensures WholeLines(x + "\n")
  {
  }

  lemma LineEndIsWhole(u: string, d: Edit)
    requires Ready(u, d) && BlockOf(u, d).lineEnd < |u|
    ensures WholeLines(u[..BlockOf(u, d).lineEnd])
  {
    hide Find, NoEarlyEnd;
    FoundLineEnd(u, d.start, d.end);
  }

  /** A block starts before it ends. */
  lemma StartsInside(u: string, d: Edit)
    requires Ready(u, d)
    ensures BlockOf(u, d).lineStart <= BlockOf(u, d).lineEnd
  {
    StartsBefore(u, d);
  }

  // ---- all of them ----

  ghost predicate Layout(t: string, all: seq<Edit>) {
    && (forall i :: 0 <= i < |all| ==> Ready(t, all[i]))
    && forall i, j :: 0 <= i < |all| && 0 <= j < |all| && i != j ==> Apart(t, all[i], all[j]) && Foreign(t, all[i], all[j])
  }

  lemma OtherBlock(u: string, all: seq<Edit>, k: nat, i: nat)
    requires Layout(u, all) && k < |all| && i < |all| && i != k
    ensures Ready(u, all[k]) && Ready(u, all[i]) && Undisturbed(u, all[k], all[i])
  {
    assert Ready(u, all[k]) && Ready(u, all[i]) && Apart(u, all[k], all[i]) && Foreign(u, all[k], all[i]);
    hide Undisturbed, Foreign, Find, NoEarlyEnd, Layout;
    if BlockOf(u, all[k]).lineEnd <= BlockOf(u, all[i]).lineStart {
      LaterBlock(u, all[k], all[i]);
    } else {
      EarlierBlock(u, all[k], all[i]);
    }
  }

  /** Where a block is after a write. */
  ghost predicate Follows(u: string, d: Edit, v: string, o: Edit)
    requires Ready(u, d) && Ready(u, o)
  {
    && Ready(v, o)
    && var b, r := BlockOf(u, o), BlockOf(v, o);
    && r.indent == b.indent
    && r.lineStart == b.lineStart + (if BlockOf(u, d).lineEnd <= b.lineStart then |v| - |u| else 0)
    && r.lineEnd == b.lineEnd + (if BlockOf(u, d).lineEnd <= b.lineEnd then |v| - |u| else 0)
  }

  lemma BlockFollows(u: string, all: seq<Edit>, k: nat, i: nat)
    requires Layout(u, all) && k < |all| && i < |all|
    ensures Ready(u, all[k]) && Ready(u, all[i]) && Follows(u, all[k], After(u, all[k]), all[i])
    ensures i == k || Settled(u, all[i]) ==> Settled(After(u, all[k]), all[i])
  {
    hide Settled, After, Put, Find, NoEarlyEnd, Absent, OccursAt;
    StartsBefore(u, all[k]);
    StartsBefore(u, all[i]);
    if i == k {
      OwnBlock(u, all[k]);
    } else {
      assert Apart(u, all[k], all[i]);
      OtherBlock(u, all, k, i);
    }
  }

  lemma StaysApart(u: string, d: Edit, v: string, o: Edit, p: Edit)
    requires Ready(u, d) && Ready(u, o) && Ready(u, p) && Follows(u, d, v, d) && Follows(u, d, v, o) && Follows(u, d, v, p)
    requires Apart(u, o, p) && (o == d || Apart(u, d, o)) && (p == d || Apart(u, d, p)) && Foreign(u, o, p)
    ensures Apart(v, o, p) && Foreign(v, o, p)
  {
    hide Ready, BlockOf, Written, Absent;
    StartsBefore(u, d);
    StartsBefore(u, o);
    StartsBefore(u, p);
    StartsBefore(v, d);
  }

  lemma LayoutStays(u: string, all: seq<Edit>, k: nat)
    requires Layout(u, all) && k < |all|
    ensures Layout(After(u, all[k]), all)
    ensures forall i :: 0 <= i < |all| && (i == k || Settled(u, all[i])) ==> Settled(After(u, all[k]), all[i])
  {
    var v := After(u, all[k]);
    forall i | 0 <= i < |all|
      ensures Ready(u, all[i]) && Ready(v, all[i]) && Follows(u, all[k], v, all[i])
      ensures i == k || Settled(u, all[i]) ==> Settled(v, all[i])
    {
      BlockFollows(u, all, k, i);
    }
    hide Settled, After, Ready, Follows;
    forall i, j | 0 <= i < |all| && 0 <= j < |all| && i != j
      ensures Ready(v, all[i]) && Ready(v, all[j]) && Apart(v, all[i], all[j]) && Foreign(v, all[i], all[j])
    {
      PairsAre(u, all, i, j);
      if i != k { PairsAre(u, all, k, i); }
      if j != k { PairsAre(u, all, k, j); }
      StaysApart(u, all[k], v, all[i], all[j]);
    }
  }

  lemma PairsAre(u: string, all: seq<Edit>, i: nat, j: nat)
    requires Layout(u, all) && i < |all| && j < |all| && i != j
    ensures Ready(u, all[i]) && Ready(u, all[j]) && Apart(u, all[i], all[j]) && Foreign(u, all[i], all[j])
  {
  }

  lemma {:induction false} SyncFrom(t: string, all: seq<Edit>, k: nat)
    requires Layout(t, all) && k <= |all| && forall d :: d in all ==> d.start != ""
    requires forall i :: 0 <= i < k ==> Settled(t, all[i])
    ensures Sync(t, all[k..]).Ok? && forall d :: d in all ==> Settled(Sync(t, all[k..]).value, d)
    decreases |all| - k
  {
    hide Layout, Settled, Put, Find;
    if k == |all| {
      forall d | d in all ensures Settled(t, d) { var i :| 0 <= i < |all| && all[i] == d; }
    } else {
      LayoutStays(t, all, k);
      assert Ready(t, all[k]) by { FromLayout(t, all, k); }
      OwnBlock(t, all[k]);
      assert all[k..][0] == all[k] && all[k..][1..] == all[k + 1..];
      SyncFrom(After(t, all[k]), all, k + 1);
    }
  }

  lemma FromLayout(t: string, all: seq<Edit>, k: nat)
    requires Layout(t, all) && k < |all|
    ensures Ready(t, all[k])
  {
  }

  /** In whatever order the blocks are written: when each can be written cleanly, no two share a line, and none holds the
      start marker of another, all of them are settled in the end, and running the sync again changes nothing. */
  lemma SyncTwiceInAnyOrder(t: string, edits: seq<Edit>)
    requires Layout(t, edits) && forall d :: d in edits ==> d.start != ""
    ensures Sync(t, edits).Ok? && (forall d :: d in edits ==> Settled(Sync(t, edits).value, d))
    ensures Sync(Sync(t, edits).value, edits) == Sync(t, edits)
  {
    hide Layout, Settled, Sync;
    assert edits[0..] == edits;
    SyncFrom(t, edits, 0);
    SettledSync(Sync(t, edits).value, edits);
  }
}
