/** Writing several blocks of one text in a row, as syncMoonshotDocs does. */
module MarkerSync {
  import opened JsMaps
  import opened Text
  import opened MarkerBlocks

  datatype Edit = Edit(start: string, end: string, lines: seq<string>)

  method SyncDocs(text: string, edits: seq<Edit>) returns (r: Result<string>)
    requires forall d :: d in edits ==> d.start != ""
    ensures r == Sync(text, edits)
  {
    var t := text;
    for i := 0 to |edits|
      invariant Sync(text, edits) == Sync(t, edits[i..])
    {
      var d := edits[i];
      var p := Put(t, d.start, d.end, d.lines);
      assert edits[i..][1..] == edits[i + 1..] && edits[i..][0] in edits;
      if p.Err? { return p; }
      t := p.value;
    }
    r := Ok(t);
  }

  function Sync(t: string, edits: seq<Edit>): Result<string>
    requires forall d :: d in edits ==> d.start != ""
    decreases |edits|
  {
    if edits == [] then Ok(t)
    else
      var p := Put(t, edits[0].start, edits[0].end, edits[0].lines);
      if p.Err? then p else Sync(p.value, edits[1..])
  }

  /** The edit would change nothing. */
  ghost predicate Settled(t: string, d: Edit) {
    d.start != "" && Put(t, d.start, d.end, d.lines) == Ok(t)
  }

  /** Each block is found, can be written cleanly, and starts at or after the end of the block written before it. */
  ghost predicate InOrder(t: string, from: nat, edits: seq<Edit>)
    decreases |edits|
  {
    edits != [] ==>
      var d := edits[0];
      && Markers(d.start, d.end) && Find(t, d.start, d.end).Ok?
      && var b := Find(t, d.start, d.end).value;
      && from <= b.lineStart && NoEarlyEnd(b.indent, d.start, d.end, d.lines)
      && var u := Put(t, d.start, d.end, d.lines).value;
      && Find(u, d.start, d.end).Ok?
      && InOrder(u, Find(u, d.start, d.end).value.lineEnd, edits[1..])
  }

  // ---- a block depends only on the text up to its end ----

  lemma {:induction false} LineEndByPrefix(t: string, u: string, i: nat, k: nat)
    requires i <= k <= |t| && k <= |u| && u[..k] == t[..k] && LineEnd(t, i) == k && k > i && t[k - 1] == '\n'
    ensures LineEnd(u, i) == k
    decreases k - i
  {
    assert u[i] == u[..k][i] == t[..k][i] == t[i];
    if t[i] != '\n' { LineEndByPrefix(t, u, i + 1, k); }
  }

  lemma PartOfPart(t: string, i: nat, n: nat, d: nat, m: nat)
    requires i + n <= |t| && d + m <= n
    ensures t[i..i + n][d..d + m] == t[i + d..i + d + m]
  {
    var a, b := t[i..i + n][d..d + m], t[i + d..i + d + m];
    assert |a| == |b| && forall k :: 0 <= k < m ==> a[k] == b[k];
  }

  /** An end marker at or after the start marker does not end inside it. */
  lemma EndsAfterStart(t: string, s: string, e: string, i: int, j: int)
    requires OccursAt(t, s, i) && OccursAt(t, e, j) && i <= j && Absent(s, e)
    ensures i + |s| <= j + |e|
  {
    var d := j - i;
    if d + |e| <= |s| {
      PartOfPart(t, i, |s|, d, |e|);
      assert OccursAt(s, e, d);
    }
  }

  lemma EndsBeforeNewline(t: string, e: string, j: int, k: int)
    requires OccursAt(t, e, j) && '\n' !in e && j <= k <= |t|
    requires k < |t| ==> k > j && t[k - 1] == '\n'
    ensures j + |e| <= k
  {
    assert forall i :: 0 <= i < |e| ==> t[j + i] == e[i] by { assert t[j..j + |e|] == e; }
  }

  /** Both markers lie before the end of the end marker's line. */
  lemma MarkersInside(t: string, s: string, e: string)
    requires Markers(s, e) && Find(t, s, e).Ok? && Absent(s, e)
    ensures var b := Find(t, s, e).value; b.start + |s| <= b.end + |e| <= b.lineEnd <= |t|
  {
    hide OccursAt, Absent, IndexOf, LineStart;
    var b := Find(t, s, e).value;
    EndsAfterStart(t, s, e, b.start, b.end);
    EndsBeforeNewline(t, e, b.end, b.lineEnd);
  }

  lemma SameMarkers(t: string, u: string, s: string, e: string)
    requires Markers(s, e) && Find(t, s, e).Ok? && Absent(s, e)
    requires var k := Find(t, s, e).value.lineEnd; k <= |t| && k <= |u| && u[..k] == t[..k]
    ensures var b := Find(t, s, e).value; IndexOf(u, s, 0) == Some(b.start) && IndexOf(u, e, b.start) == Some(b.end)
  {
    hide OccursAt, IsFirst, LineStart, LineEnd, IndexOf, Absent, Find;
    var b := Find(t, s, e).value;
    MarkersInside(t, s, e);
    StartOnItsLine(t, s, e);
    FirstByPrefix(t, u, s, 0, b.start, b.lineEnd);
    FirstIsIndexOf(u, s, 0, b.start);
    FirstByPrefix(t, u, e, b.start, b.end, b.lineEnd);
    FirstIsIndexOf(u, e, b.start, b.end);
  }

  lemma SameLineEnd(t: string, u: string, s: string, e: string)
    requires Markers(s, e) && Find(t, s, e).Ok?
    requires var k := Find(t, s, e).value.lineEnd; k < |t| && k <= |u| && u[..k] == t[..k]
    ensures var b := Find(t, s, e).value; b.end <= |u| && LineEnd(u, b.end) == b.lineEnd
  {
    hide OccursAt, IsFirst, LineStart, IndexOf;
    var b := Find(t, s, e).value;
    LineEndByPrefix(t, u, b.end, b.lineEnd);
  }

  lemma FindByPrefix(t: string, u: string, s: string, e: string)
    requires Markers(s, e) && Find(t, s, e).Ok? && Absent(s, e)
    requires var k := Find(t, s, e).value.lineEnd; k < |t| && k <= |u| && u[..k] == t[..k]
    ensures Find(u, s, e) == Find(t, s, e)
  {
    hide IsFirst, OccursAt, LineStart, LineEnd, IndexOf, Absent, Find;
    var b := Find(t, s, e).value;
    MarkersInside(t, s, e);
    SameMarkers(t, u, s, e);
    SameLineEnd(t, u, s, e);
    FoundLineStart(t, s, e);
    StartOnItsLine(t, s, e);
    SamePart(t, u, b.lineEnd, 0, b.start + 1);
    LineStartByPrefix(t, u, b.start);
    FindIs(u, s, e, b.start, b.end);
    SamePart(t, u, b.lineEnd, b.lineStart, b.start);
  }

  /** A settled block stays settled whatever is written after it. */
  lemma SettledByPrefix(t: string, u: string, d: Edit)
    requires Markers(d.start, d.end) && Settled(t, d) && Find(t, d.start, d.end).Ok? && Absent(d.start, d.end)
    requires var k := Find(t, d.start, d.end).value.lineEnd; k < |t| && k < |u| && u[..k] == t[..k]
    ensures Settled(u, d)
  {
    hide Find, Put, Tail, LineEnd, Absent, OccursAt, IsFirst;
    var b := Find(t, d.start, d.end).value;
    FindByPrefix(t, u, d.start, d.end);
    PutIs(t, d.start, d.end, d.lines);
    PutIs(u, d.start, d.end, d.lines);
    MarkersInside(t, d.start, d.end);
    SettledPart(t, u, b.start, Tail(b.indent, d.start, d.end, d.lines), b.lineEnd);
  }

  lemma SettledPart(t: string, u: string, i: nat, w: string, k: nat)
    requires i <= k < |t| && k < |u| && u[..k] == t[..k] && t == t[..i] + w + Rest(t[k..])
    ensures u == u[..i] + w + Rest(u[k..])
  {
    SamePart(t, u, k, i, i);
    assert t[k..] != "" && u[k..] != "";
    assert |t[..i] + w + "\n"| == k;
    assert t[..k] == t[..i] + w + "\n";
    assert t[..i] == u[..i];
    assert u == u[..k] + u[k..];
    Regrouped(u[..i], w, u[k..]);
  }

  lemma Regrouped(a: string, w: string, rest: string)
    ensures a + w + "\n" + rest == a + w + ("\n" + rest)
  {
  }

  // ---- the whole run ----

  lemma PutSettles(t: string, d: Edit)
    requires Markers(d.start, d.end) && Find(t, d.start, d.end).Ok?
    requires NoEarlyEnd(Find(t, d.start, d.end).value.indent, d.start, d.end, d.lines)
    ensures Put(t, d.start, d.end, d.lines).Ok? && Settled(Put(t, d.start, d.end, d.lines).value, d)
  {
    PutIs(t, d.start, d.end, d.lines);
    PutPutExactly(t, d.start, d.end, d.lines);
  }

  /** The run keeps everything before its first block, and afterwards no edit would change anything. */
  lemma {:induction false} SyncSettles(t: string, from: nat, edits: seq<Edit>)
    requires from <= |t| && InOrder(t, from, edits) && forall d :: d in edits ==> d.start != ""
    ensures Sync(t, edits).Ok?
    ensures var u := Sync(t, edits).value;
      && from <= |u| && u[..from] == t[..from] && (edits != [] ==> from < |u|)
      && forall d :: d in edits ==> Settled(u, d)
    decreases |edits|
  {
    if edits != [] {
      var d, rest := edits[0], edits[1..];
      var b := Find(t, d.start, d.end).value;
      var t1 := Put(t, d.start, d.end, d.lines).value;
      PutSettles(t, d);
      OutsideIsKept(t, d.start, d.end, d.lines);
      FindAfterPut(t, d.start, d.end, d.lines);
      var r := Find(t1, d.start, d.end).value;
      MarkersInside(t1, d.start, d.end);
      hide Find, Put, Tail, NoEarlyEnd, Settled, LineEnd, EndIn;
      SyncSettles(t1, r.lineEnd, rest);
      var u := Sync(t1, rest).value;
      assert from < r.lineEnd;
      SamePart(t1, u, r.lineEnd, from, from);
      SamePart(t, t1, b.lineStart, from, from);
      if rest != [] {
        NextBlockIsLater(t1, r.lineEnd, rest);
        SettledByPrefix(t1, u, d);
      } else {
        assert u == t1;
      }
      forall x | x in edits ensures Settled(u, x) {
        assert x == d || x in rest;
      }
    }
  }

  lemma NextBlockIsLater(t: string, from: nat, edits: seq<Edit>)
    requires edits != [] && InOrder(t, from, edits)
    ensures from < |t|
  {
    StartOnItsLine(t, edits[0].start, edits[0].end);
  }

  lemma {:induction false} SettledSync(u: string, edits: seq<Edit>)
    requires (forall d :: d in edits ==> Settled(u, d)) && forall d :: d in edits ==> d.start != ""
    ensures Sync(u, edits) == Ok(u)
  {
    hide Put;
    if edits != [] {
      assert edits[0] in edits;
      SettledSync(u, edits[1..]);
    }
  }

  /** The first marker that is missing ends the run; otherwise the edits act one after the other. */
  lemma {:induction false} SyncConcat(t: string, a: seq<Edit>, b: seq<Edit>)
    requires forall d :: d in a + b ==> d.start != ""
    ensures forall d :: d in a || d in b ==> d.start != ""
    ensures Sync(t, a + b) == if Sync(t, a).Ok? then Sync(Sync(t, a).value, b) else Sync(t, a)
    decreases |a|
  {
    hide Put;
    assert forall d :: d in a || d in b ==> d in a + b;
    if a == [] {
      assert a + b == b;
    } else {
      assert (a + b)[1..] == a[1..] + b;
      var p := Put(t, a[0].start, a[0].end, a[0].lines);
      if p.Ok? { SyncConcat(p.value, a[1..], b); }
    }
  }
}
