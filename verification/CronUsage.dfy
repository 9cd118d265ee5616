/** Adding up the token usage of cron runs, per job and per model. */
module CronUsage {
  import opened JsMaps
  import opened Text

  datatype Usage = Usage(input: Option<real>, output: Option<real>, total: Option<real>)
  datatype Entry = Entry(ts: int, jobId: string, model: Option<string>, usage: Option<Usage>)

  /** An empty job or model filter lets everything through. */
  datatype Filter = Filter(fromMs: int, toMs: int, jobId: string, model: string)

  /** One line of the report: of a job, or of one model within a job. */
  datatype Agg = Agg(runs: nat, missing: nat, input: nat, output: nat, total: nat)

  const NONE := Agg(0, 0, 0, 0, 0)

  function Plus(a: Agg, b: Agg): Agg {
    Agg(a.runs + b.runs, a.missing + b.missing, a.input + b.input, a.output + b.output, a.total + b.total)
  }

  function ModelOf(e: Entry): string {
    var name := if e.model.Some? then Trim(e.model.value) else "<unknown>";
    if name == "" then "<unknown>" else name
  }

  predicate Passes(e: Entry, f: Filter) {
    && f.fromMs <= e.ts <= f.toMs
    && (f.jobId == "" || e.jobId == f.jobId)
    && (f.model == "" || ModelOf(e) == f.model)
  }

  /** Math.max(0, Math.trunc(x)), an absent number counting as the default. */
  function Tokens(x: Option<real>, default: nat): nat {
    match x
    case None => default
    case Some(v) => if v > 0.0 then v.Floor else 0
  }

  predicate HasUsage(e: Entry) {
    e.usage.Some? && (e.usage.value.total.Some? || e.usage.value.input.Some? || e.usage.value.output.Some?)
  }

  /** What one entry adds to its job and to its model. */
  function Contribution(e: Entry): Agg {
    if !HasUsage(e) then Agg(1, 1, 0, 0, 0)
    else
      var u := e.usage.value;
      var input, output := Tokens(u.input, 0), Tokens(u.output, 0);
      Agg(1, 0, input, output, Tokens(u.total, input + output))
  }

  // ---- the sums the report should show ----

  predicate OfModel(e: Entry, f: Filter, job: string, model: string) {
    Passes(e, f) && e.jobId == job && ModelOf(e) == model
  }

  function ModelSum(es: seq<Entry>, f: Filter, job: string, model: string): Agg {
    if es == [] then NONE
    else
      var e := es[|es| - 1];
      Plus(ModelSum(es[..|es| - 1], f, job, model), if OfModel(e, f, job, model) then Contribution(e) else NONE)
  }

  function JobSum(es: seq<Entry>, f: Filter, job: string): Agg {
    if es == [] then NONE
    else
      var e := es[|es| - 1];
      Plus(JobSum(es[..|es| - 1], f, job), if Passes(e, f) && e.jobId == job then Contribution(e) else NONE)
  }

  lemma PlusLaws(a: Agg, b: Agg, c: Agg)
    ensures Plus(a, NONE) == a && Plus(NONE, a) == a
    ensures Plus(a, Plus(b, c)) == Plus(Plus(a, b), c)
    ensures Plus(Plus(a, b), c) == Plus(Plus(a, c), b)
  {
  }

  /** What the entry adds to this job's line, and to this model's line within it. */
  function ShareOfJob(e: Entry, f: Filter, job: string): Agg {
    if Passes(e, f) && e.jobId == job then Contribution(e) else NONE
  }

  function ShareOfModel(e: Entry, f: Filter, job: string, model: string): Agg {
    if ModelOf(e) == model then ShareOfJob(e, f, job) else NONE
  }

  lemma OneMore(es: seq<Entry>, e: Entry, f: Filter, job: string, model: string)
    ensures JobSum(es + [e], f, job) == Plus(JobSum(es, f, job), ShareOfJob(e, f, job))
    ensures ModelSum(es + [e], f, job, model) == Plus(ModelSum(es, f, job, model), ShareOfModel(e, f, job, model))
  {
    hide Plus, Contribution;
    assert (es + [e])[..|es|] == es;
  }

  // ---- the loop over the log ----

  datatype Job = Job(sum: Agg, models: map<string, Agg>)

  type Jobs = map<string, Job>

  function Entered(jobs: Jobs, e: Entry, f: Filter): Jobs {
    if !Passes(e, f) then jobs
    else
      var job := if e.jobId in jobs then jobs[e.jobId] else Job(NONE, map[]);
      var agg := if ModelOf(e) in job.models then job.models[ModelOf(e)] else NONE;
      jobs[e.jobId := Job(Plus(job.sum, Contribution(e)), job.models[ModelOf(e) := Plus(agg, Contribution(e))])]
  }

  function Tally(es: seq<Entry>, f: Filter): Jobs {
    if es == [] then map[] else Entered(Tally(es[..|es| - 1], f), es[|es| - 1], f)
  }

  class Report {
    var totalsByJob: Jobs

    constructor ()
      ensures totalsByJob == map[]
    {
      totalsByJob := map[];
    }

    method AddEntry(e: Entry, f: Filter)
      modifies this
      ensures totalsByJob == Entered(old(totalsByJob), e, f)
    {
      if !Passes(e, f) { return; }
      var model, c := ModelOf(e), Contribution(e);
      if e.jobId !in totalsByJob { totalsByJob := totalsByJob[e.jobId := Job(NONE, map[])]; }
      var job := totalsByJob[e.jobId];
      var agg := if model in job.models then job.models[model] else NONE;
      totalsByJob := totalsByJob[e.jobId := Job(Plus(job.sum, c), job.models[model := Plus(agg, c)])];
    }

    /** All entries of all files, in the order they are read: every line shows the sums it should. */
    method AddAll(es: seq<Entry>, f: Filter)
      requires totalsByJob == map[]
      modifies this
      ensures Shows(totalsByJob, es, f)
    {
      for i := 0 to |es|
        invariant totalsByJob == Tally(es[..i], f)
      {
        assert es[..i + 1][..i] == es[..i];
        AddEntry(es[i], f);
      }
      assert es[..|es|] == es;
      TallyShows(es, f);
    }
  }

  function JobLine(jobs: Jobs, job: string): Agg {
    if job in jobs then jobs[job].sum else NONE
  }

  function ModelLine(jobs: Jobs, job: string, model: string): Agg {
    if job in jobs && model in jobs[job].models then jobs[job].models[model] else NONE
  }

  /** Every line shows its sum; a line is there exactly when an entry went into it. */
  ghost predicate Shows(jobs: Jobs, es: seq<Entry>, f: Filter) {
    && (forall job :: JobLine(jobs, job) == JobSum(es, f, job))
    && (forall job, model :: ModelLine(jobs, job, model) == ModelSum(es, f, job, model))
    && (forall job :: job in jobs <==> JobSum(es, f, job).runs > 0)
    && (forall job, model :: job in jobs ==> (model in jobs[job].models <==> ModelSum(es, f, job, model).runs > 0))
  }

  lemma EnteredLines(jobs: Jobs, e: Entry, f: Filter, job: string, model: string)
    ensures var r := Entered(jobs, e, f);
      && JobLine(r, job) == Plus(JobLine(jobs, job), ShareOfJob(e, f, job))
      && ModelLine(r, job, model) == Plus(ModelLine(jobs, job, model), ShareOfModel(e, f, job, model))
      && (job in r <==> job in jobs || (Passes(e, f) && e.jobId == job))
      && (job in r ==> (model in r[job].models <==>
        (job in jobs && model in jobs[job].models) || (Passes(e, f) && e.jobId == job && ModelOf(e) == model)))
  {
    PlusLaws(JobLine(jobs, job), NONE, NONE);
    PlusLaws(ModelLine(jobs, job, model), NONE, NONE);
    PlusLaws(Contribution(e), NONE, NONE);
    hide Plus, Contribution, Passes, ModelOf;
  }

  lemma SharesRun(e: Entry, f: Filter, job: string, model: string)
    ensures ShareOfJob(e, f, job).runs == if Passes(e, f) && e.jobId == job then 1 else 0
    ensures ShareOfModel(e, f, job, model).runs == if Passes(e, f) && e.jobId == job && ModelOf(e) == model then 1 else 0
  {
    hide Passes, ModelOf, Tokens;
  }

  ghost predicate ShowsLine(jobs: Jobs, es: seq<Entry>, f: Filter, job: string, model: string) {
    && JobLine(jobs, job) == JobSum(es, f, job) && ModelLine(jobs, job, model) == ModelSum(es, f, job, model)
    && (job in jobs <==> JobSum(es, f, job).runs > 0)
    && (job in jobs ==> (model in jobs[job].models <==> ModelSum(es, f, job, model).runs > 0))
    && (job !in jobs ==> ModelSum(es, f, job, model).runs == 0)
  }

  lemma {:induction false} TallyLine(es: seq<Entry>, f: Filter, job: string, model: string)
    ensures ShowsLine(Tally(es, f), es, f, job, model)
  {
    hide Passes, ModelOf, Contribution, Entered, ShareOfJob, ShareOfModel;
    if es != [] {
      var front, e := es[..|es| - 1], es[|es| - 1];
      assert es == front + [e];
      TallyLine(front, f, job, model);
      EnteredLines(Tally(front, f), e, f, job, model);
      OneMore(front, e, f, job, model);
      SharesRun(e, f, job, model);
    }
  }

  lemma TallyShows(es: seq<Entry>, f: Filter)
    ensures Shows(Tally(es, f), es, f)
  {
    hide *;
    forall job, model ensures ShowsLine(Tally(es, f), es, f, job, model) { TallyLine(es, f, job, model); }
    LinesShow(Tally(es, f), es, f);
  }

  lemma LinesShow(jobs: Jobs, es: seq<Entry>, f: Filter)
    requires forall job, model :: ShowsLine(jobs, es, f, job, model)
    ensures Shows(jobs, es, f)
  {
    hide JobLine, ModelLine, JobSum, ModelSum;
    forall job
      ensures JobLine(jobs, job) == JobSum(es, f, job) && (job in jobs <==> JobSum(es, f, job).runs > 0)
    {
      assert ShowsLine(jobs, es, f, job, "");
    }
    forall job, model
      ensures ModelLine(jobs, job, model) == ModelSum(es, f, job, model)
      ensures job in jobs ==> (model in jobs[job].models <==> ModelSum(es, f, job, model).runs > 0)
    {
      assert ShowsLine(jobs, es, f, job, model);
    }
  }

  // ---- what the report shows ----

  ghost predicate Distinct(names: seq<string>) {
    forall i, j :: 0 <= i < j < |names| ==> names[i] != names[j]
  }

  lemma DistinctFront(names: seq<string>)
    requires names != [] && Distinct(names)
    ensures Distinct(names[..|names| - 1]) && names[|names| - 1] !in names[..|names| - 1]
    ensures forall x :: x in names <==> x in names[..|names| - 1] || x == names[|names| - 1]
  {
    assert names == names[..|names| - 1] + [names[|names| - 1]];
  }

  function OverModels(es: seq<Entry>, f: Filter, job: string, models: seq<string>): Agg {
    if models == [] then NONE
    else Plus(OverModels(es, f, job, models[..|models| - 1]), ModelSum(es, f, job, models[|models| - 1]))
  }

  lemma {:induction false} OverNothing(f: Filter, job: string, models: seq<string>)
    ensures OverModels([], f, job, models) == NONE
  {
    hide Plus, ModelOf, Contribution, Passes;
    PlusLaws(NONE, NONE, NONE);
    if models != [] {
      OverNothing(f, job, models[..|models| - 1]);
      NoneSum(f, job, models[|models| - 1]);
    }
  }

  lemma NoneSum(f: Filter, job: string, model: string)
    ensures ModelSum([], f, job, model) == NONE
  {
  }

  /** One more entry adds its share once, for its own model. */
  lemma {:induction false} OneEntryOver(es: seq<Entry>, e: Entry, f: Filter, job: string, models: seq<string>)
    requires Distinct(models)
    ensures OverModels(es + [e], f, job, models) ==
      Plus(OverModels(es, f, job, models), if ModelOf(e) in models then ShareOfJob(e, f, job) else NONE)
    decreases |models|
  {
    hide ModelOf, ShareOfJob, Plus, Distinct, ModelSum;
    if models == [] {
      PlusLaws(NONE, NONE, NONE);
    } else {
      var front, m := models[..|models| - 1], models[|models| - 1];
      DistinctFront(models);
      OneEntryOver(es, e, f, job, front);
      OneMore(es, e, f, job, m);
      var a, b, c := OverModels(es, f, job, front), ModelSum(es, f, job, m), ShareOfJob(e, f, job);
      PlusLaws(a, c, b);
      PlusLaws(a, b, c);
      PlusLaws(b, c, NONE);
      PlusLaws(Plus(a, b), NONE, NONE);
    }
  }

  /** A job's line is the sum of its models' lines, in runs, missing runs and every token count. */
  lemma {:induction false} JobIsSumOfModels(es: seq<Entry>, f: Filter, job: string, models: seq<string>)
    requires Distinct(models)
    requires forall i :: 0 <= i < |es| && Passes(es[i], f) && es[i].jobId == job ==> ModelOf(es[i]) in models
    ensures OverModels(es, f, job, models) == JobSum(es, f, job)
    decreases |es|
  {
    hide ModelOf, Plus, Distinct, OverModels, Contribution;
    if es == [] {
      OverNothing(f, job, models);
    } else {
      var front, e := es[..|es| - 1], es[|es| - 1];
      assert es == front + [e];
      JobIsSumOfModels(front, f, job, models);
      OneEntryOver(front, e, f, job, models);
      OneMore(front, e, f, job, "");
    }
  }

  function Matching(es: seq<Entry>, f: Filter): nat {
    if es == [] then 0 else Matching(es[..|es| - 1], f) + if Passes(es[|es| - 1], f) then 1 else 0
  }

  function RunsOver(es: seq<Entry>, f: Filter, jobs: seq<string>): nat {
    if jobs == [] then 0 else RunsOver(es, f, jobs[..|jobs| - 1]) + JobSum(es, f, jobs[|jobs| - 1]).runs
  }

  lemma {:induction false} OneEntryRuns(es: seq<Entry>, e: Entry, f: Filter, jobs: seq<string>)
    requires Distinct(jobs)
    ensures RunsOver(es + [e], f, jobs) == RunsOver(es, f, jobs) + if Passes(e, f) && e.jobId in jobs then 1 else 0
    decreases |jobs|
  {
    hide Passes, Distinct, JobSum, ShareOfJob;
    if jobs != [] {
      var front, j := jobs[..|jobs| - 1], jobs[|jobs| - 1];
      DistinctFront(jobs);
      OneEntryRuns(es, e, f, front);
      OneMore(es, e, f, j, "");
      SharesRun(e, f, j, "");
    }
  }

  lemma {:induction false} NoRuns(f: Filter, jobs: seq<string>)
    ensures RunsOver([], f, jobs) == 0
  {
    if jobs != [] { NoRuns(f, jobs[..|jobs| - 1]); }
  }

  /** The runs of all jobs together are the entries that pass the filters. */
  lemma {:induction false} EveryRunIsCounted(es: seq<Entry>, f: Filter, jobs: seq<string>)
    requires Distinct(jobs) && forall i :: 0 <= i < |es| && Passes(es[i], f) ==> es[i].jobId in jobs
    ensures RunsOver(es, f, jobs) == Matching(es, f)
    decreases |es|
  {
    hide Passes, RunsOver, Distinct;
    if es == [] {
      NoRuns(f, jobs);
    } else {
      var front, e := es[..|es| - 1], es[|es| - 1];
      assert es == front + [e];
      EveryRunIsCounted(front, f, jobs);
      OneEntryRuns(front, e, f, jobs);
    }
  }

  // ---- the order of the files does not matter ----

  lemma {:induction false} SumsConcat(a: seq<Entry>, b: seq<Entry>, f: Filter, job: string, model: string)
    ensures JobSum(a + b, f, job) == Plus(JobSum(a, f, job), JobSum(b, f, job))
    ensures ModelSum(a + b, f, job, model) == Plus(ModelSum(a, f, job, model), ModelSum(b, f, job, model))
  {
    if b == [] {
      assert a + b == a;
      PlusLaws(JobSum(a, f, job), NONE, NONE);
      PlusLaws(ModelSum(a, f, job, model), NONE, NONE);
    } else {
      hide Plus, ShareOfJob, ShareOfModel, JobSum, ModelSum;
      var front, e := b[..|b| - 1], b[|b| - 1];
      assert b == front + [e] && a + b == a + front + [e];
      SumsConcat(a, front, f, job, model);
      OneMore(a + front, e, f, job, model);
      OneMore(front, e, f, job, model);
      PlusLaws(JobSum(a, f, job), JobSum(front, f, job), ShareOfJob(e, f, job));
      PlusLaws(ModelSum(a, f, job, model), ModelSum(front, f, job, model), ShareOfModel(e, f, job, model));
    }
  }

  lemma TakeOut(front: seq<Entry>, e: Entry, b: seq<Entry>) returns (i: nat)
    requires multiset(front + [e]) == multiset(b)
    ensures i < |b| && b[i] == e && b == b[..i] + [e] + b[i + 1..]
    ensures multiset(front) == multiset(b[..i] + b[i + 1..])
  {
    assert e in multiset(front + [e]);
    i :| 0 <= i < |b| && b[i] == e;
    assert b == b[..i] + [e] + b[i + 1..];
    var rest := b[..i] + b[i + 1..];
    assert multiset(b[..i] + [e] + b[i + 1..]) == multiset(b[..i]) + multiset{e} + multiset(b[i + 1..]);
    assert multiset(rest) == multiset(b[..i]) + multiset(b[i + 1..]);
    assert multiset(front + [e]) == multiset(front) + multiset{e};
    assert multiset(front) + multiset{e} == multiset(rest) + multiset{e};
    assert multiset(front) == multiset(front) + multiset{e} - multiset{e};
    assert multiset(rest) == multiset(rest) + multiset{e} - multiset{e};
  }

  /** Every sum depends only on which entries there are and how often, not on their order. */
  lemma {:induction false} OrderDoesNotMatter(a: seq<Entry>, b: seq<Entry>, f: Filter, job: string, model: string)
    requires multiset(a) == multiset(b)
    ensures JobSum(a, f, job) == JobSum(b, f, job) && ModelSum(a, f, job, model) == ModelSum(b, f, job, model)
    decreases |a|
  {
    if a == [] {
      assert |multiset(b)| == 0;
    } else {
      hide Plus, ShareOfJob, ShareOfModel, JobSum, ModelSum;
      var front, e := a[..|a| - 1], a[|a| - 1];
      assert a == front + [e];
      var i := TakeOut(front, e, b);
      var before, after := b[..i], b[i + 1..];
      OrderDoesNotMatter(front, before + after, f, job, model);
      SumsConcat(before, after, f, job, model);
      SumsConcat(before + [e], after, f, job, model);
      OneMore(before, e, f, job, model);
      OneMore(front, e, f, job, model);
      PlusLaws(JobSum(before, f, job), JobSum(after, f, job), ShareOfJob(e, f, job));
      PlusLaws(ModelSum(before, f, job, model), ModelSum(after, f, job, model), ShareOfModel(e, f, job, model));
    }
  }

  // ---- the printed rows ----

  /** One printed line: a job or a model, with its sums. */
  datatype Row = Row(name: string, sum: Agg)

  function JobRows(jobs: Jobs, names: seq<string>): (rows: seq<Row>)
    ensures |rows| == |names| && forall i :: 0 <= i < |names| ==> rows[i] == Row(names[i], JobLine(jobs, names[i]))
  {
    seq(|names|, i requires 0 <= i < |names| => Row(names[i], JobLine(jobs, names[i])))
  }

  function Insert(row: Row, rows: seq<Row>): seq<Row> {
    if rows == [] || rows[0].sum.total <= row.sum.total then [row] + rows else [rows[0]] + Insert(row, rows[1..])
  }

  /** `toSorted((a, b) => b.total_tokens - a.total_tokens)`. */
  function ByTotal(rows: seq<Row>): seq<Row> {
    if rows == [] then [] else Insert(rows[0], ByTotal(rows[1..]))
  }

  ghost predicate Descending(rows: seq<Row>) {
    forall i, j :: 0 <= i < j < |rows| ==> rows[i].sum.total >= rows[j].sum.total
  }

  function WithTotal(rows: seq<Row>, total: nat): seq<Row> {
    if rows == [] then [] else (if rows[0].sum.total == total then [rows[0]] else []) + WithTotal(rows[1..], total)
  }

  ghost predicate NamedOnce(rows: seq<Row>) {
    forall i, j :: 0 <= i < j < |rows| ==> rows[i].name != rows[j].name
  }

  lemma {:induction false} InsertHas(row: Row, rows: seq<Row>)
    ensures multiset(Insert(row, rows)) == multiset{row} + multiset(rows)
    ensures forall r :: r in Insert(row, rows) <==> r == row || r in rows
  {
    if rows != [] {
      assert rows == [rows[0]] + rows[1..];
      if rows[0].sum.total > row.sum.total { InsertHas(row, rows[1..]); }
    }
  }

  lemma {:induction false} InsertKeepsOrder(row: Row, rows: seq<Row>)
    requires Descending(rows)
    ensures Descending(Insert(row, rows))
  {
    if rows != [] && rows[0].sum.total > row.sum.total {
      var rest := Insert(row, rows[1..]);
      InsertKeepsOrder(row, rows[1..]);
      InsertHas(row, rows[1..]);
      assert forall i :: 0 <= i < |rest| ==> rest[i] in rest;
    }
  }

  lemma {:induction false} InsertKeepsNames(row: Row, rows: seq<Row>)
    requires NamedOnce(rows) && forall r :: r in rows ==> r.name != row.name
    ensures NamedOnce(Insert(row, rows))
  {
    if rows != [] && rows[0].sum.total > row.sum.total {
      var rest := Insert(row, rows[1..]);
      InsertKeepsNames(row, rows[1..]);
      InsertHas(row, rows[1..]);
      assert forall i :: 0 <= i < |rest| ==> rest[i] in rest;
    }
  }

  lemma TiesUnfold(first: Row, rest: seq<Row>, total: nat)
    ensures WithTotal([first] + rest, total) == (if first.sum.total == total then [first] else []) + WithTotal(rest, total)
  {
    assert ([first] + rest)[1..] == rest;
  }

  lemma {:induction false} InsertKeepsTies(row: Row, rows: seq<Row>, total: nat)
    ensures WithTotal(Insert(row, rows), total) == (if row.sum.total == total then [row] else []) + WithTotal(rows, total)
  {
    hide WithTotal;
    if rows == [] || rows[0].sum.total <= row.sum.total {
      TiesUnfold(row, rows, total);
    } else {
      InsertKeepsTies(row, rows[1..], total);
      TiesUnfold(rows[0], Insert(row, rows[1..]), total);
      TiesUnfold(rows[0], rows[1..], total);
      assert rows == [rows[0]] + rows[1..];
    }
  }

  /** Sorting puts the same rows in descending order of their totals, those with equal totals as they came. */
  lemma ByTotalSorts(rows: seq<Row>, total: nat)
    ensures multiset(ByTotal(rows)) == multiset(rows) && Descending(ByTotal(rows))
    ensures WithTotal(ByTotal(rows), total) == WithTotal(rows, total)
    ensures NamedOnce(rows) ==> NamedOnce(ByTotal(rows))
    ensures forall r :: r in ByTotal(rows) <==> r in rows
  {
    hide *;
    ByTotalHas(rows);
    ByTotalDescends(rows);
    ByTotalKeepsTies(rows, total);
    if NamedOnce(rows) { ByTotalKeepsNames(rows); }
  }

  lemma {:induction false} ByTotalHas(rows: seq<Row>)
    ensures multiset(ByTotal(rows)) == multiset(rows)
    ensures forall r :: r in ByTotal(rows) <==> r in rows
  {
    if rows != [] {
      hide Insert;
      ByTotalHas(rows[1..]);
      InsertHas(rows[0], ByTotal(rows[1..]));
      assert rows == [rows[0]] + rows[1..];
    }
  }

  lemma {:induction false} ByTotalDescends(rows: seq<Row>)
    ensures Descending(ByTotal(rows))
  {
    if rows != [] {
      hide Insert, Descending;
      ByTotalDescends(rows[1..]);
      InsertKeepsOrder(rows[0], ByTotal(rows[1..]));
    }
  }

  lemma {:induction false} ByTotalKeepsTies(rows: seq<Row>, total: nat)
    ensures WithTotal(ByTotal(rows), total) == WithTotal(rows, total)
  {
    if rows != [] {
      hide Insert, WithTotal;
      ByTotalKeepsTies(rows[1..], total);
      InsertKeepsTies(rows[0], ByTotal(rows[1..]), total);
      TiesUnfold(rows[0], rows[1..], total);
      assert rows == [rows[0]] + rows[1..];
    }
  }

  lemma {:induction false} ByTotalKeepsNames(rows: seq<Row>)
    requires NamedOnce(rows)
    ensures NamedOnce(ByTotal(rows))
  {
    if rows != [] {
      hide Insert, NamedOnce;
      NamedOnceRest(rows);
      ByTotalHas(rows[1..]);
      ByTotalKeepsNames(rows[1..]);
      InsertKeepsNames(rows[0], ByTotal(rows[1..]));
    }
  }

  lemma NamedOnceRest(rows: seq<Row>)
    requires rows != []
    ensures NamedOnce(rows) ==> NamedOnce(rows[1..]) && forall r :: r in rows[1..] ==> r.name != rows[0].name
  {
  }

  /** The report lists each job once, with the sums over its entries, the largest total first. */
  lemma ReportRows(es: seq<Entry>, f: Filter, names: seq<string>)
    requires Distinct(names) && forall job :: job in names <==> job in Tally(es, f)
    ensures var rows := ByTotal(JobRows(Tally(es, f), names));
      && Descending(rows) && NamedOnce(rows)
      && forall row :: row in rows <==> row.sum == JobSum(es, f, row.name) && row.sum.runs > 0
  {
    hide Tally, JobSum, ModelLine, ModelSum, Insert, ByTotal, JobLine;
    var jobs := Tally(es, f);
    var rows := JobRows(jobs, names);
    TallyShows(es, f);
    ByTotalSorts(rows, 0);
    forall row: Row ensures row in rows <==> row.sum == JobSum(es, f, row.name) && row.sum.runs > 0 {
      assert JobLine(jobs, row.name) == JobSum(es, f, row.name);
      if row.name in names {
        var i :| 0 <= i < |names| && names[i] == row.name;
        assert rows[i] == Row(row.name, JobSum(es, f, row.name));
      }
    }
  }

  // ---- what an entry adds, and what the filters select ----

  /** Truncated towards zero, and nothing below it. */
  lemma TokensExactly(v: real, default: nat, n: nat)
    ensures Tokens(Some(v), default) == n <==> if v < 1.0 then n == 0 else n as real <= v < (n + 1) as real
  {
  }

  predicate AddsUsage(a: Agg, u: Usage) {
    && a.input == (if u.input.None? then 0 else Tokens(u.input, 0))
    && a.output == (if u.output.None? then 0 else Tokens(u.output, 0))
    && a.total == if u.total.None? then a.input + a.output else Tokens(u.total, 0)
  }

  /** An entry without any number is a run with missing usage; otherwise it adds its input and output, none where one is
      absent, and its total, or their sum where that is absent. */
  lemma ContributionExactly(e: Entry)
    ensures var a := Contribution(e);
      && a.runs == 1 && a.missing <= 1
      && (a.missing == 1 <==>
        e.usage.None? || (e.usage.value.input.None? && e.usage.value.output.None? && e.usage.value.total.None?))
      && (a.missing == 1 ==> a.input == 0 && a.output == 0 && a.total == 0)
      && (a.missing == 0 ==> AddsUsage(a, e.usage.value))
  {
  }

  lemma NothingSums(f: Filter, job: string, model: string)
    ensures JobSum([], f, job) == NONE && ModelSum([], f, job, model) == NONE
  {
  }

  lemma FilterShares(e: Entry, f: Filter, job: string, model: string, other: string)
    requires model != "" && job != ""
    ensures ShareOfJob(e, f.(model := model), job) == ShareOfModel(e, f.(model := ""), job, model)
    ensures ShareOfJob(e, f.(jobId := job), job) == ShareOfJob(e, f.(jobId := ""), job)
    ensures other != job ==> ShareOfJob(e, f.(jobId := job), other) == NONE
  {
    hide Contribution, ModelOf;
  }

  /** A report for one model shows, for each job, that model's line of the report for all of them. */
  lemma {:induction false} ModelFilterSelects(es: seq<Entry>, f: Filter, job: string, model: string)
    requires model != "" && job != ""
    ensures JobSum(es, f.(model := model), job) == ModelSum(es, f.(model := ""), job, model)
  {
    hide *;
    var one, all := f.(model := model), f.(model := "");
    if es == [] {
      NothingSums(one, job, model);
      NothingSums(all, job, model);
    } else {
      var front, e := es[..|es| - 1], es[|es| - 1];
      assert es == front + [e];
      ModelFilterSelects(front, f, job, model);
      FilterShares(e, f, job, model, job);
      OneMore(front, e, one, job, model);
      OneMore(front, e, all, job, model);
    }
  }

  /** A report for one job shows that job's line of the report for all of them, and no other. */
  lemma {:induction false} JobFilterSelects(es: seq<Entry>, f: Filter, job: string, other: string)
    requires job != ""
    ensures JobSum(es, f.(jobId := job), other) == if other == job then JobSum(es, f.(jobId := ""), job) else NONE
  {
    hide *;
    var one, all := f.(jobId := job), f.(jobId := "");
    if es == [] {
      NothingSums(one, other, "");
      NothingSums(all, job, "");
    } else {
      var front, e := es[..|es| - 1], es[|es| - 1];
      assert es == front + [e];
      JobFilterSelects(front, f, job, other);
      FilterShares(e, f, job, "m", other);
      OneMore(front, e, one, other, "");
      OneMore(front, e, all, job, "");
      PlusLaws(NONE, NONE, NONE);
    }
  }

  /** A window cut in two, at any moment, splits every sum in two; a window of one moment has the entries of that moment, and
      one that ends before it begins has none. */
  lemma {:induction false} WindowsAdd(es: seq<Entry>, f: Filter, at: int, job: string)
    requires f.fromMs <= at < f.toMs
    ensures JobSum(es, f, job) == Plus(JobSum(es, f.(toMs := at), job), JobSum(es, f.(fromMs := at + 1), job))
  {
    hide Contribution, ModelOf, Plus;
    if es == [] {
      NothingSums(f, job, "");
      NothingSums(f.(toMs := at), job, "");
      NothingSums(f.(fromMs := at + 1), job, "");
      PlusLaws(NONE, NONE, NONE);
    } else {
      var front, e := es[..|es| - 1], es[|es| - 1];
      WindowsAdd(front, f, at, job);
      var a, b := JobSum(front, f.(toMs := at), job), JobSum(front, f.(fromMs := at + 1), job);
      var x, y := ShareOfJob(e, f.(toMs := at), job), ShareOfJob(e, f.(fromMs := at + 1), job);
      PlusLaws(a, b, x);
      PlusLaws(a, b, y);
      PlusLaws(a, x, b);
      PlusLaws(Plus(a, b), x, y);
      PlusLaws(Plus(a, x), b, y);
    }
  }

  lemma OneMoment(e: Entry, at: int, job: string)
    ensures ShareOfJob(e, Filter(at, at, "", ""), job) == if e.ts == at && e.jobId == job then Contribution(e) else NONE
    ensures ShareOfJob(e, Filter(at + 1, at, "", ""), job) == NONE
  {
  }

  /** A run is counted for the model it names, without the white space around it, and for "<unknown>" if it names none. */
  lemma ModelOfExactly(e: Entry, a: string, name: string, b: string)
    requires Trimmed(name) && forall c :: c in a + b ==> IsSpace(c)
    ensures e.model == Some(a + name + b) ==> ModelOf(e) == if name == "" then "<unknown>" else name
    ensures e.model.None? ==> ModelOf(e) == "<unknown>"
  {
    hide IsSpace, Trim;
    forall c | c in a ensures IsSpace(c) { assert c in a + b; }
    forall c | c in b ensures IsSpace(c) { assert c in a + b; }
    TrimPadded(a, name, b);
    UnknownIsTrimmed();
  }

  lemma UnknownIsTrimmed()
    ensures Trim("<unknown>") == "<unknown>"
  {
    hide Trim;
    assert Trimmed("<unknown>");
    TrimPadded("", "<unknown>", "");
    assert "" + "<unknown>" + "" == "<unknown>";
  }
}
