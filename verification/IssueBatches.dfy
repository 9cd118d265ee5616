/** Fetching a repository's issues page by page, handing them out in work batches, and resuming from saved state. */
module IssueBatches {
  import opened JsMaps

  const WORK_BATCH_SIZE := 500

  datatype Item = Item(number: int, title: string)
  datatype Page = Page(nodes: seq<Item>, hasNextPage: bool)
  datatype Batch = Batch(batchIndex: nat, items: seq<Item>, fetchedCount: nat)

  /** What the server serves: pages in order, all but the last announcing another. */
  ghost predicate Paging(pages: seq<Page>) {
    pages != [] && forall i :: 0 <= i < |pages| ==> (pages[i].hasNextPage <==> i < |pages| - 1)
  }

  function Nodes(pages: seq<Page>): seq<Item> {
    if pages == [] then [] else Nodes(pages[..|pages| - 1]) + pages[|pages| - 1].nodes
  }

  /** The first `limit` items; no limit means all of them. */
  function Take(items: seq<Item>, limit: Option<nat>): (r: seq<Item>)
    ensures r <= items && (limit.Some? ==> |r| <= limit.value)
    ensures |r| < |items| ==> limit == Some(|r|)
  {
    if limit.Some? && limit.value < |items| then items[..limit.value] else items
  }

  // ---- what the batches must be ----

  function Items(batches: seq<Batch>): seq<Item> {
    if batches == [] then [] else Items(batches[..|batches| - 1]) + batches[|batches| - 1].items
  }

  /** Numbered from one, each full, each carrying the number of items handed out so far. */
  ghost predicate FullBatches(batches: seq<Batch>) {
    forall i :: 0 <= i < |batches| ==>
      && batches[i].batchIndex == i + 1 && |batches[i].items| == WORK_BATCH_SIZE
      && batches[i].fetchedCount == (i + 1) * WORK_BATCH_SIZE
  }

  ghost predicate GoodBatches(batches: seq<Batch>, items: seq<Item>) {
    && Items(batches) == items
    && (batches != [] ==>
      var last := batches[|batches| - 1];
      && FullBatches(batches[..|batches| - 1])
      && last.batchIndex == |batches| && 1 <= |last.items| <= WORK_BATCH_SIZE && last.fetchedCount == |items|)
  }

  lemma {:induction false} BatchesAreChunks(batches: seq<Batch>)
    requires FullBatches(batches)
    ensures |Items(batches)| == |batches| * WORK_BATCH_SIZE
  {
    if batches != [] { BatchesAreChunks(batches[..|batches| - 1]); }
  }

  /** So the batches are determined by the items: batch `i` holds items 500 i up to 500 i + 500, as far as there are any. */
  lemma {:induction false} BatchHolds(batches: seq<Batch>, items: seq<Item>, i: nat)
    requires GoodBatches(batches, items) && i < |batches|
    ensures var from := i * 500; var to := from + 500;
      from < |items| && batches[i].items == items[from..if to < |items| then to else |items|]
    ensures |items| <= |batches| * WORK_BATCH_SIZE
  {
    var front, last := batches[..|batches| - 1], batches[|batches| - 1];
    BatchesAreChunks(front);
    if i < |front| {
      FullBatchHolds(front, i);
      assert items[..|Items(front)|] == Items(front);
    }
  }

  lemma {:induction false} FullBatchHolds(batches: seq<Batch>, i: nat)
    requires FullBatches(batches) && i < |batches|
    ensures |Items(batches)| == |batches| * WORK_BATCH_SIZE
    ensures batches[i].items == Items(batches)[i * WORK_BATCH_SIZE..(i + 1) * WORK_BATCH_SIZE]
  {
    var front := batches[..|batches| - 1];
    BatchesAreChunks(batches);
    BatchesAreChunks(front);
    if i < |front| { FullBatchHolds(front, i); }
  }

  // ---- the generator ----

  /** Between yields: the batches so far are full and `results` waits to fill the next. */
  ghost predicate Pending(batches: seq<Batch>, results: seq<Item>, fetched: seq<Item>) {
    FullBatches(batches) && |results| < WORK_BATCH_SIZE && fetched == Items(batches) + results
  }

  lemma PushKeepsPending(batches: seq<Batch>, results: seq<Item>, fetched: seq<Item>, node: Item)
    requires Pending(batches, results, fetched)
    ensures |fetched| == |batches| * WORK_BATCH_SIZE + |results|
    ensures if |results| + 1 < WORK_BATCH_SIZE then Pending(batches, results + [node], fetched + [node])
      else Pending(batches + [Batch(|batches| + 1, results + [node], |fetched| + 1)], [], fetched + [node])
  {
    BatchesAreChunks(batches);
    var more := batches + [Batch(|batches| + 1, results + [node], |fetched| + 1)];
    assert more[..|more| - 1] == batches;
  }

  lemma LastBatch(batches: seq<Batch>, results: seq<Item>, fetched: seq<Item>)
    requires Pending(batches, results, fetched)
    ensures if results == [] then GoodBatches(batches, fetched)
      else GoodBatches(batches + [Batch(|batches| + 1, results, |fetched|)], fetched)
  {
    BatchesAreChunks(batches);
    if results == [] {
      assert fetched == Items(batches);
    } else {
      var more := batches + [Batch(|batches| + 1, results, |fetched|)];
      assert more[..|more| - 1] == batches;
    }
  }

  lemma {:induction false} NodesGrow(pages: seq<Page>, k: nat)
    requires k <= |pages|
    ensures Nodes(pages[..k]) <= Nodes(pages)
    ensures k < |pages| ==> Nodes(pages[..k + 1]) == Nodes(pages[..k]) + pages[k].nodes
  {
    if k < |pages| {
      assert pages[..k + 1][..k] == pages[..k];
      var front := pages[..|pages| - 1];
      if k < |front| { NodesGrow(front, k); assert front[..k] == pages[..k]; } else { assert front == pages[..k]; }
    } else {
      assert pages[..k] == pages;
    }
  }

  lemma TakeIsFull(a: seq<Item>, b: seq<Item>, limit: Option<nat>)
    requires limit.Some? && a <= b && |Take(a, limit)| >= limit.value
    ensures Take(b, limit) == Take(a, limit)
  {
  }

  lemma TakeOneMore(a: seq<Item>, node: Item, limit: Option<nat>)
    requires limit.Some? ==> |Take(a, limit)| < limit.value
    ensures Take(a + [node], limit) == Take(a, limit) + [node]
  {
  }

  /** One page: its nodes are pushed until the limit, a batch is yielded whenever one is full. */
  method TakePage(nodes: seq<Item>, limit: Option<nat>, batches0: seq<Batch>, results0: seq<Item>, ghost before: seq<Item>)
    returns (batches: seq<Batch>, results: seq<Item>, fetchedCount: nat)
    requires Pending(batches0, results0, Take(before, limit))
    ensures Pending(batches, results, Take(before + nodes, limit)) && fetchedCount == |Take(before + nodes, limit)|
  {
    hide Take, Pending;
    batches, results := batches0, results0;
    BatchCount(batches0, results0, Take(before, limit));
    fetchedCount := |batches0| * WORK_BATCH_SIZE + |results0|;
    assert before + nodes[..0] == before;
    for k := 0 to |nodes|
      invariant Pending(batches, results, Take(before + nodes[..k], limit))
      invariant fetchedCount == |Take(before + nodes[..k], limit)|
    {
      if limit.Some? && fetchedCount >= limit.value {
        TakeIsFull(before + nodes[..k], before + nodes, limit);
        return;
      }
      ghost var fetched := Take(before + nodes[..k], limit);
      TakeOneMore(before + nodes[..k], nodes[k], limit);
      assert before + nodes[..k + 1] == before + nodes[..k] + [nodes[k]];
      PushKeepsPending(batches, results, fetched, nodes[k]);
      results := results + [nodes[k]];
      fetchedCount := fetchedCount + 1;
      if |results| >= WORK_BATCH_SIZE {
        batches := batches + [Batch(|batches| + 1, results, fetchedCount)];
        results := [];
      }
    }
    assert before + nodes[..|nodes|] == before + nodes;
  }

  lemma BatchCount(batches: seq<Batch>, results: seq<Item>, fetched: seq<Item>)
    requires Pending(batches, results, fetched)
    ensures |fetched| == |batches| * WORK_BATCH_SIZE + |results|
  {
    BatchesAreChunks(batches);
  }

  lemma NothingPending(limit: Option<nat>)
    ensures Pending([], [], Take(Nodes([]), limit)) && |Take(Nodes([]), limit)| == 0
  {
  }

  /** fetchOpenIssueBatches: every batch it yields, in order. */
  method FetchBatches(pages: seq<Page>, limit: Option<nat>) returns (batches: seq<Batch>)
    requires Paging(pages)
    ensures GoodBatches(batches, Take(Nodes(pages), limit))
  {
    hide Pending, Take, Nodes, GoodBatches;
    batches := [];
    var results: seq<Item> := [];
    NothingPending(limit);
    var page, fetchedCount, more := 0, 0, true;
    assert pages[..0] == [];
    while more && (limit.None? || fetchedCount < limit.value)
      invariant page <= |pages| && (more ==> page < |pages|) && (!more ==> page == |pages|)
      invariant Pending(batches, results, Take(Nodes(pages[..page]), limit))
      invariant fetchedCount == |Take(Nodes(pages[..page]), limit)|
      decreases |pages| - page
    {
      NodesGrow(pages, page);
      batches, results, fetchedCount := TakePage(pages[page].nodes, limit, batches, results, Nodes(pages[..page]));
      more := pages[page].hasNextPage;
      page := page + 1;
    }
    NodesGrow(pages, page);
    if more {
      TakeIsFull(Nodes(pages[..page]), Nodes(pages), limit);
    } else {
      assert pages[..page] == pages;
    }
    LastBatch(batches, results, Take(Nodes(pages), limit));
    if results != [] { batches := batches + [Batch(|batches| + 1, results, fetchedCount)]; }
  }

  // ---- the resume loop ----

  ghost predicate Increasing(list: seq<int>) {
    forall i, j :: 0 <= i < j < |list| ==> list[i] < list[j]
  }

  /** What a state file is read back as. */
  function Listed(list: seq<int>): set<int> {
    set n | n in list
  }

  function Sorted(s: set<int>): (list: seq<int>)
    ensures Listed(list) == s && Increasing(list)
    decreases |s|
  {
    if s == {} then []
    else
      HasLeast(s);
      var least :| least in s && forall n :: n in s ==> least <= n;
      var rest := Sorted(s - {least});
      LeastFirst(s, least, rest);
      [least] + rest
  }

  lemma LeastFirst(s: set<int>, least: int, rest: seq<int>)
    requires least in s && (forall n :: n in s ==> least <= n) && Listed(rest) == s - {least} && Increasing(rest)
    ensures Listed([least] + rest) == s && Increasing([least] + rest)
  {
    forall i | 0 <= i < |rest| ensures least < rest[i] { assert rest[i] in Listed(rest); }
    forall n ensures n in [least] + rest <==> n in s {
      assert n in Listed(rest) <==> n in rest;
    }
  }

  lemma HasLeast(s: set<int>)
    requires s != {}
    ensures exists least :: least in s && forall n :: n in s ==> least <= n
  {
    var least := Least(s);
  }

  lemma {:induction false} Least(s: set<int>) returns (least: int)
    requires s != {}
    ensures least in s && forall n :: n in s ==> least <= n
    decreases |s|
  {
    assert (forall n :: n !in s) ==> s == {};
    var n :| n in s;
    least := n;
    if s - {n} != {} {
      var m := Least(s - {n});
      least := if n < m then n else m;
      forall k | k in s ensures least <= k { assert k == n || k in s - {n}; }
    } else {
      forall k | k in s ensures k == n { assert k !in s - {n}; }
    }
  }

  function Numbers(items: seq<Item>): set<int> {
    set i | i in items :: i.number
  }

  /** The items of the batch that the state does not list yet. */
  function Unhandled(items: seq<Item>, state: set<int>): seq<Item> {
    if items == [] then []
    else
      var item := items[|items| - 1];
      Unhandled(items[..|items| - 1], state) + if item.number in state then [] else [item]
  }

  datatype Tally = Tally(scanned: nat, processed: nat, skipped: nat)

  /** No item fails that the state does not list. */
  ghost predicate AllPass(items: seq<Item>, state: set<int>, fails: int -> bool) {
    forall i :: i in items ==> i.number in state || !fails(i.number)
  }

  /** The issues to classify, batch by batch: those that neither the file nor an earlier batch has listed. */
  function Work(batches: seq<Batch>, file: set<int>): seq<Item> {
    if batches == [] then []
    else
      var front := batches[..|batches| - 1];
      Work(front, file) + Unhandled(batches[|batches| - 1].items, file + Numbers(Items(front)))
  }

  /** They are issues of the batches, none of them listed in the file, and together with the file they are all. */
  lemma {:induction false} WorkIsUnlisted(batches: seq<Batch>, file: set<int>)
    ensures Numbers(Work(batches, file)) == Numbers(Items(batches)) - file
    ensures forall i :: i in Work(batches, file) ==> i in Items(batches)
    ensures |Work(batches, file)| <= |Items(batches)|
  {
    hide Numbers, Unhandled;
    if batches != [] {
      var front, items := batches[..|batches| - 1], batches[|batches| - 1].items;
      var state := file + Numbers(Items(front));
      WorkIsUnlisted(front, file);
      NumbersConcat(Work(front, file), Unhandled(items, state));
      NumbersConcat(Items(front), items);
      UnlistedNumbers(items, state);
      UnhandledNumbers(items, state);
      OnlyFromItems(items, state);
    } else {
      NothingNumbered();
    }
  }

  lemma NothingNumbered()
    ensures Numbers([]) == {}
  {
  }

  lemma OnlyFromItems(items: seq<Item>, state: set<int>)
    ensures forall i :: i in Unhandled(items, state) ==> i in items
  {
    forall i | i in Unhandled(items, state) ensures i in items { UnhandledHas(items, state, i); }
  }

  lemma {:induction false} UnlistedNumbers(items: seq<Item>, state: set<int>)
    ensures Numbers(Unhandled(items, state)) == Numbers(items) - state
  {
    forall n ensures n in Numbers(Unhandled(items, state)) <==> n in Numbers(items) - state {
      if n in Numbers(items) - state {
        var i :| i in items && i.number == n;
        UnhandledHas(items, state, i);
      }
      if n in Numbers(Unhandled(items, state)) {
        var i :| i in Unhandled(items, state) && i.number == n;
        UnhandledHas(items, state, i);
      }
    }
  }

  /** The batch loop of main, started from the state file `file`. Classifying or labelling an issue may throw, as
      `fails` says, and that ends the run; `completed` batches were done by then, and `done` are the issues classified in
      them. In the batch that failed, `partial` was classified before the failure and is lost. Nothing is written on a
      dry run. */
  method ProcessBatches(batches: seq<Batch>, file: seq<int>, dryRun: bool, fails: int -> bool)
    returns (completed: nat, saved: seq<int>, done: seq<Item>, partial: seq<Item>, tally: Tally)
    ensures completed <= |batches|
    ensures completed == |batches| <==> AllPass(Items(batches), Listed(file), fails)
    ensures done == Work(batches[..completed], Listed(file))
    ensures Numbers(done) == Numbers(Items(batches[..completed])) - Listed(file)
    ensures Listed(saved) == if dryRun then Listed(file) else Listed(file) + Numbers(done)
    ensures saved == file || Increasing(saved)
    ensures completed == |batches| ==> partial == []
    ensures completed < |batches| ==>
      && partial < Unhandled(batches[completed].items, Listed(file) + Numbers(done))
      && fails(Unhandled(batches[completed].items, Listed(file) + Numbers(done))[|partial|].number)
      && forall i :: i in partial ==> !fails(i.number)
    ensures tally.processed == |done| && tally.scanned == |Items(batches[..completed])| == tally.processed + tally.skipped
  {
    hide *;
    var state := Listed(file);
    saved, tally, completed, done, partial := file, Tally(0, 0, 0), 0, [], [];
    NothingDone(batches, Listed(file), fails);
    while completed < |batches|
      invariant completed <= |batches|
      invariant done == Work(batches[..completed], Listed(file)) && |done| <= |Items(batches[..completed])|
      invariant state == Listed(file) + Numbers(Items(batches[..completed])) == Listed(file) + Numbers(done)
      invariant Listed(saved) == if dryRun then Listed(file) else state
      invariant saved == file || Increasing(saved)
      invariant partial == []
      invariant tally.processed == |done|
      invariant tally.scanned == |Items(batches[..completed])| == tally.processed + tally.skipped
      invariant AllPass(Items(batches[..completed]), Listed(file), fails)
    {
      var items := batches[completed].items;
      var pending := FilterUnhandled(items, state);
      BatchDone(batches, completed, Listed(file), fails);
      WorkIsUnlisted(batches[..completed + 1], Listed(file));
      WorkIsUnlisted(batches[..completed], Listed(file));
      var ok;
      ok, partial, state := ClassifyAll(pending, state, fails);
      if !ok {
        Stopped(batches, completed, Listed(file), fails);
        return;
      }
      tally := Tally(tally.scanned + |items|, tally.processed + |partial|, tally.skipped + (|items| - |pending|));
      if !dryRun && |pending| > 0 { saved := Sorted(state); }
      done, partial := done + partial, [];
      completed := completed + 1;
    }
    assert batches[..|batches|] == batches;
    WorkIsUnlisted(batches, Listed(file));
  }

  /** The loop over the pending issues of one batch, up to the first that throws. */
  method ClassifyAll(pending: seq<Item>, before: set<int>, fails: int -> bool)
    returns (ok: bool, done: seq<Item>, state: set<int>)
    ensures done <= pending && forall i :: i in done ==> !fails(i.number)
    ensures if ok then done == pending else |done| < |pending| && fails(pending[|done|].number)
    ensures state == before + Numbers(done)
  {
    state, done := before, [];
    for k := 0 to |pending|
      invariant done == pending[..k]
      invariant state == before + Numbers(pending[..k])
      invariant forall j :: 0 <= j < k ==> !fails(pending[j].number)
    {
      if fails(pending[k].number) { return false, done, state; }
      NumbersUpTo(pending, k);
      state := state + {pending[k].number};
      done := done + [pending[k]];
    }
    assert pending[..|pending|] == pending;
    ok := true;
  }

  lemma NothingDone(batches: seq<Batch>, file: set<int>, fails: int -> bool)
    ensures Items(batches[..0]) == [] && Work(batches[..0], file) == [] && AllPass([], file, fails)
    ensures file + Numbers([]) == file && Numbers([]) == {}
  {
  }

  method FilterUnhandled(items: seq<Item>, state: set<int>) returns (pending: seq<Item>)
    ensures pending == Unhandled(items, state)
  {
    pending := [];
    for k := 0 to |items|
      invariant pending == Unhandled(items[..k], state)
    {
      assert items[..k + 1][..k] == items[..k];
      if items[k].number !in state { pending := pending + [items[k]]; }
    }
    assert items[..|items|] == items;
  }

  lemma NumbersConcat(a: seq<Item>, b: seq<Item>)
    ensures Numbers(a + b) == Numbers(a) + Numbers(b)
  {
    assert forall i :: i in a + b <==> i in a || i in b;
  }

  lemma OneNumber(i: Item)
    ensures Numbers([i]) == {i.number}
  {
  }

  lemma {:induction false} UnhandledNumbers(items: seq<Item>, state: set<int>)
    ensures |Unhandled(items, state)| <= |items|
    ensures state + Numbers(Unhandled(items, state)) == state + Numbers(items)
    ensures Unhandled(items, state) == [] <==> Numbers(items) <= state
  {
    if items != [] {
      hide Numbers;
      var front, last := items[..|items| - 1], items[|items| - 1];
      UnhandledNumbers(front, state);
      NumbersConcat(front, [last]);
      assert items == front + [last];
      OneNumber(last);
      if last.number in state {
        assert Unhandled(items, state) == Unhandled(front, state);
      } else {
        NumbersConcat(Unhandled(front, state), [last]);
      }
    }
  }

  lemma NumbersUpTo(items: seq<Item>, k: nat)
    requires k < |items|
    ensures Numbers(items[..0]) == {} && Numbers(items[..k + 1]) == Numbers(items[..k]) + {items[k].number}
  {
    NumbersConcat(items[..k], [items[k]]);
    assert items[..k + 1] == items[..k] + [items[k]];
    OneNumber(items[k]);
  }

  lemma {:induction false} UnhandledHas(items: seq<Item>, state: set<int>, i: Item)
    ensures i in Unhandled(items, state) <==> i in items && i.number !in state
  {
    if items != [] {
      UnhandledHas(items[..|items| - 1], state, i);
      assert i in items <==> i in items[..|items| - 1] || i == items[|items| - 1];
    }
  }

  lemma {:induction false} ItemsHave(batches: seq<Batch>, c: nat, i: Item)
    requires c < |batches| && i in batches[c].items
    ensures i in Items(batches)
  {
    if c < |batches| - 1 { ItemsHave(batches[..|batches| - 1], c, i); }
  }

  lemma Stopped(batches: seq<Batch>, c: nat, file: set<int>, fails: int -> bool)
    requires c < |batches|
    requires exists p :: p in Unhandled(batches[c].items, file + Numbers(Items(batches[..c]))) && fails(p.number)
    ensures !AllPass(Items(batches), file, fails)
  {
    var p :| p in Unhandled(batches[c].items, file + Numbers(Items(batches[..c]))) && fails(p.number);
    UnhandledHas(batches[c].items, file + Numbers(Items(batches[..c])), p);
    ItemsHave(batches, c, p);
  }

  lemma BatchDone(batches: seq<Batch>, c: nat, file: set<int>, fails: int -> bool)
    requires c < |batches|
    ensures
      var front, items, all := Items(batches[..c]), batches[c].items, Items(batches[..c + 1]);
      var pending := Unhandled(items, file + Numbers(front));
      && |all| == |front| + |items| && |pending| <= |items|
      && Work(batches[..c + 1], file) == Work(batches[..c], file) + pending
      && file + Numbers(front) + Numbers(pending) == file + Numbers(all)
      && (pending == [] ==> file + Numbers(front) == file + Numbers(all))
      && (AllPass(front, file, fails) && (forall p :: p in pending ==> !fails(p.number)) ==> AllPass(all, file, fails))
  {
    var front, items, all := Items(batches[..c]), batches[c].items, Items(batches[..c + 1]);
    var state := file + Numbers(front);
    assert batches[..c + 1][..c] == batches[..c];
    assert all == front + items;
    hide Unhandled, Items;
    UnhandledNumbers(items, state);
    NumbersConcat(front, items);
    if AllPass(front, file, fails) && forall p :: p in Unhandled(items, state) ==> !fails(p.number) {
      forall i | i in items ensures i.number in file || !fails(i.number) {
        UnhandledHas(items, state, i);
      }
    }
  }

  /** A run that failed part way, resumed from the file it left: in the end every issue is listed, and the resumed run
      classifies exactly the issues that neither the file nor a completed batch had listed; so after a run that did not
      fail it classifies none. */
  method Resume(batches: seq<Batch>, file: seq<int>, fails: int -> bool)
    returns (completed: nat, saved: seq<int>, first: seq<Item>, second: seq<Item>, tally: Tally)
    ensures completed <= |batches| && (completed == |batches| <==> AllPass(Items(batches), Listed(file), fails))
    ensures Listed(saved) == Listed(file) + Numbers(Items(batches))
    ensures Numbers(first) == Numbers(Items(batches[..completed])) - Listed(file)
    ensures Numbers(second) == Numbers(Items(batches)) - Listed(file) - Numbers(first)
    ensures second == Work(batches, Listed(file) + Numbers(first))
    ensures tally.processed == |second| && tally.scanned == |Items(batches)| == tally.processed + tally.skipped
    ensures completed == |batches| ==> second == []
  {
    hide Listed, Numbers, Unhandled, Items, Work;
    var left, all, partial, tally1;
    completed, left, first, partial, tally1 := ProcessBatches(batches, file, false, fails);
    all, saved, second, partial, tally := ProcessBatches(batches, left, false, n => false);
    assert AllPass(Items(batches), Listed(left), n => false);
    assert batches[..|batches|] == batches;
    FrontNumbers(batches, completed);
    if completed == |batches| {
      assert Numbers(second) == {};
      NoneNumbered(second);
    }
  }

  lemma NoneNumbered(items: seq<Item>)
    ensures Numbers(items) == {} ==> items == []
  {
    assert items != [] ==> items[0].number in Numbers(items);
  }

  lemma {:induction false} FrontNumbers(batches: seq<Batch>, c: nat)
    requires c <= |batches|
    ensures Numbers(Items(batches[..c])) <= Numbers(Items(batches))
  {
    if c < |batches| {
      var front := batches[..|batches| - 1];
      FrontNumbers(front, c);
      assert front[..c] == batches[..c];
      NumbersConcat(Items(front), batches[|batches| - 1].items);
    } else {
      assert batches[..c] == batches;
    }
  }

  // ---- what is pending in a batch ----

  /** The issues that the state does not list, each as often as the batch has it. */
  lemma {:induction false} UnhandledCounts(items: seq<Item>, state: set<int>, i: Item)
    ensures multiset(Unhandled(items, state))[i] == if i.number in state then 0 else multiset(items)[i]
  {
    if items != [] {
      UnhandledCounts(items[..|items| - 1], state, i);
      assert items == items[..|items| - 1] + [items[|items| - 1]];
    }
  }

  /** In the batch's order. */
  lemma {:induction false} UnhandledConcat(a: seq<Item>, b: seq<Item>, state: set<int>)
    ensures Unhandled(a + b, state) == Unhandled(a, state) + Unhandled(b, state)
  {
    if b == [] {
      assert a + b == a;
    } else {
      assert (a + b)[..|a + b| - 1] == a + b[..|b| - 1];
      UnhandledConcat(a, b[..|b| - 1], state);
    }
  }
}
