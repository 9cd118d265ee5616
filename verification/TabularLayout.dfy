/** Which lines of a message become tables, told by the lines alone, and how tables are set into the result. */
module TabularLayout {
  import opened JsMaps
  import opened Text
  import opened CsvFields
  import opened MarkdownTable
  import opened TabularFormat
  import opened TabularGuarantees

  // ---- what is converted ----

  /** The line is split by tabs if it has one, and by commas if that gives three fields; a table row is not split. */
  predicate SplitBy(line: string, d: char) {
    !LooksLikeMarkdownTable(line) && if '\t' in line then d == '\t' else d == ',' && |Fields(line, ',')| >= 3
  }

  /** The line may stand in a run of that delimiter. */
  predicate InRun(line: string, d: char) {
    Trim(line) != "" && !LooksLikeMarkdownTable(line) && |Fields(line, d)| >= 2
  }

  /** From line `i` up to line `j` the lines are a longest run, at least two, that starts with a line split by `d`. */
  ghost predicate IsRun(lines: seq<string>, i: nat, j: nat, d: char) {
    && i + 2 <= j <= |lines| && SplitBy(lines[i], d)
    && (forall k :: i <= k < j ==> InRun(lines[k], d))
    && (j < |lines| ==> !InRun(lines[j], d))
  }

  ghost predicate AreCounts(block: seq<string>, d: char, counts: seq<nat>) {
    |counts| == |block| && forall k :: 0 <= k < |block| ==> counts[k] == |Fields(block[k], d)|
  }

  /** ... whose most frequent width is at least two columns for tabs or three for commas, and that of 60% of its lines. */
  ghost predicate IsTable(lines: seq<string>, i: nat, j: nat, d: char, cols: nat) {
    && IsRun(lines, i, j, d) && cols >= (if d == '\t' then 2 else 3)
    && exists counts: seq<nat> :: AreCounts(lines[i..j], d, counts) && IsModal(counts, cols)
         && 10 * multiset(counts)[cols] >= 6 * (j - i)
  }

  lemma {:induction false} ManyFields(line: string, d: char)
    requires |Fields(line, d)| >= 2
    ensures d in line
  {
    if d == '\t' {
      if '\t' !in line { SplitPlain(line, '\t'); }
    } else if d !in line {
      ScanHasOne(line, d, false, []);
    }
  }

  lemma {:induction false} ScanHasOne(s: string, d: char, inQuotes: bool, cur: string)
    requires d !in s
    ensures |Scan(s, d, inQuotes, cur)| == 1
    decreases |s|
  {
    if s == [] {
    } else if s[0] == '"' {
      if inQuotes && |s| > 1 && s[1] == '"' {
        ScanHasOne(s[2..], d, inQuotes, cur + ['"']);
      } else {
        ScanHasOne(s[1..], d, !inQuotes, cur);
      }
    } else {
      ScanHasOne(s[1..], d, inQuotes, cur + [s[0]]);
    }
  }

  lemma {:induction false} TabsSplit(line: string)
    ensures '\t' in line <==> |Split(line, '\t')| >= 2
  {
    if line != [] { TabsSplit(line[1..]); }
  }

  lemma PicksExactly(line: string, d: char)
    ensures PickDelim(line) == Some(d) <==> SplitBy(line, d)
  {
    hide Scan, Split, LooksLikeMarkdownTable;
    TabsSplit(line);
    if |Fields(line, ',')| >= 3 { ManyFields(line, ','); }
  }

  lemma InRunIs(line: string, d: char)
    ensures Continues(line, d) <==> InRun(line, d)
  {
  }

  lemma {:induction false} RunIs(lines: seq<string>, n: nat, d: char)
    requires n <= |lines| && (forall k :: 0 <= k < n ==> InRun(lines[k], d)) && (n < |lines| ==> !InRun(lines[n], d))
    ensures RunLength(lines, d) == n
  {
    hide Continues, InRun;
    if lines != [] { InRunIs(lines[0], d); }
    if n > 0 { RunIs(lines[1..], n - 1, d); }
  }

  lemma RunFrom(lines: seq<string>, i: nat, j: nat, d: char)
    requires IsRun(lines, i, j, d)
    ensures RunLength(lines[i..], d) == j - i
  {
    hide InRun, SplitBy;
    RunIs(lines[i..], j - i, d);
  }

  lemma CountsAre(block: seq<string>, d: char, counts: seq<nat>)
    requires AreCounts(block, d, counts)
    ensures counts == Counts(block, d)
  {
    hide Fields;
  }

  /** A run that the conditions describe is what the scan makes of the line where it starts. */
  lemma TableIsFirst(lines: seq<string>, i: nat, j: nat, d: char, cols: nat)
    requires IsTable(lines, i, j, d, cols)
    ensures First(lines[i..]) == Table(lines[i..j], d, cols)
  {
    hide IsRun, PickDelim, SplitBy, IsModal, Fields, RunLength;
    RunBounds(lines, i, j, d);
    var counts: seq<nat> :|
      AreCounts(lines[i..j], d, counts) && IsModal(counts, cols) && 10 * multiset(counts)[cols] >= 6 * (j - i);
    CountsAre(lines[i..j], d, counts);
    RunFrom(lines, i, j, d);
    PicksExactly(lines[i], d);
    assert lines[i..][..j - i] == lines[i..j];
    ModalIsUnique(counts, cols, TheModal(counts));
  }

  lemma RunBounds(lines: seq<string>, i: nat, j: nat, d: char)
    requires IsRun(lines, i, j, d)
    ensures i + 2 <= j <= |lines| && SplitBy(lines[i], d)
  {
  }

  lemma FirstIsTable(lines: seq<string>, i: nat)
    requires i < |lines| && First(lines[i..]).Table?
    ensures var p := First(lines[i..]);
      i + |p.block| <= |lines| && p.block == lines[i..i + |p.block|] && IsTable(lines, i, i + |p.block|, p.delim, p.cols)
  {
    hide PickDelim, SplitBy, IsModal, Fields, RunLength, Continues, InRun;
    var rest := lines[i..];
    var p := First(rest);
    var n := RunLength(rest, p.delim);
    PicksExactly(lines[i], p.delim);
    RunIsLongest(rest, p.delim);
    forall k | i <= k < i + n ensures InRun(lines[k], p.delim) { InRunIs(rest[k - i], p.delim); }
    if i + n < |lines| { InRunIs(rest[n], p.delim); }
    assert rest[..n] == lines[i..i + n];
    PicksOneOf(lines[i], p.delim);
    assert AreCounts(lines[i..i + n], p.delim, Counts(p.block, p.delim));
  }

  lemma PicksOneOf(line: string, d: char)
    requires SplitBy(line, d)
    ensures MinCols(d) == if d == '\t' then 2 else 3
  {
  }

  /** The place of the `k`-th piece: the number of lines before it. */
  function Start(plan: seq<Piece>, k: nat): nat
    requires k <= |plan|
  {
    |Sources(plan[..k])|
  }

  lemma {:induction false} SourcesSplit(plan: seq<Piece>, k: nat)
    requires k <= |plan|
    ensures Sources(plan) == Sources(plan[..k]) + Sources(plan[k..])
  {
    if k > 0 {
      SourcesSplit(plan[1..], k - 1);
      assert plan[..k][1..] == plan[1..][..k - 1] && plan[1..][k - 1..] == plan[k..];
    } else {
      assert plan[..0] == [] && plan[0..] == plan;
    }
  }

  lemma {:induction false} PieceIsFirst(lines: seq<string>, k: nat)
    requires k < |Plan(lines)|
    ensures Start(Plan(lines), k) < |lines| && Plan(lines)[k] == First(lines[Start(Plan(lines), k)..])
    decreases k
  {
    hide First, Source;
    var plan, n := Plan(lines), |Source(First(lines))|;
    assert plan[1..] == Plan(lines[n..]);
    if k > 0 {
      PieceIsFirst(lines[n..], k - 1);
      assert plan[..k] == [First(lines)] + plan[1..][..k - 1];
      SourcesOne(First(lines), plan[1..][..k - 1]);
      var m := Start(plan[1..], k - 1);
      assert lines[n..][m..] == lines[n + m..];
    } else {
      assert plan[..0] == [];
    }
  }

  lemma SourcesOne(p: Piece, rest: seq<Piece>)
    ensures Sources([p] + rest) == Source(p) + Sources(rest)
  {
    assert ([p] + rest)[1..] == rest;
  }

  /** Where a piece of the plan starts, it is a table exactly for the run, delimiter and width that the conditions describe;
      and it is the line itself, unchanged, exactly when they describe none. */
  lemma PiecesExactly(text: string, k: nat)
    requires k < |Plan(Lines(text))|
    ensures var lines, p, i := Lines(text), Plan(Lines(text))[k], Start(Plan(Lines(text)), k);
      && i < |lines|
      && (forall j: nat, d, cols: nat :: IsTable(lines, i, j, d, cols) <==> i <= j <= |lines| && p == Table(lines[i..j], d, cols))
      && (p.Verbatim? <==> !exists j: nat, d, cols: nat :: IsTable(lines, i, j, d, cols))
      && (p.Verbatim? ==> p.line == lines[i])
  {
    hide Lines, IsTable, First;
    var lines, p, i := Lines(text), Plan(Lines(text))[k], Start(Plan(Lines(text)), k);
    PieceIsFirst(lines, k);
    forall j: nat, d, cols: nat
      ensures IsTable(lines, i, j, d, cols) <==> i <= j <= |lines| && p == Table(lines[i..j], d, cols)
    {
      if IsTable(lines, i, j, d, cols) {
        TableBounds(lines, i, j, d, cols);
        TableIsFirst(lines, i, j, d, cols);
      }
      if i <= j <= |lines| && p == Table(lines[i..j], d, cols) { FirstIsTable(lines, i); }
    }
    if p.Table? { FirstIsTable(lines, i); } else { FirstIsLine(lines[i..]); }
  }

  lemma TableBounds(lines: seq<string>, i: nat, j: nat, d: char, cols: nat)
    requires IsTable(lines, i, j, d, cols)
    ensures i <= j <= |lines|
  {
  }

  lemma FirstIsLine(lines: seq<string>)
    requires lines != [] && First(lines).Verbatim?
    ensures First(lines).line == lines[0]
  {
    hide PickDelim;
  }

  // ---- how it is set into the result ----

  lemma {:induction false} PrintSplit(plan: seq<Piece>, k: nat, before: seq<string>)
    requires k <= |plan| && forall p :: p in plan ==> Source(p) != []
    ensures PrintAll(plan, before) == PrintAll(plan[k..], PrintAll(plan[..k], before))
    decreases k
  {
    hide Printed, Source;
    if k == 0 {
      assert plan[..0] == [] && plan[0..] == plan;
    } else {
      PrintSplit(plan[1..], k - 1, before + Printed(plan[0], before));
      assert plan[..k][1..] == plan[1..][..k - 1] && plan[1..][k - 1..] == plan[k..];
    }
  }

  lemma {:induction false} PrintsAfter(plan: seq<Piece>, before: seq<string>)
    requires forall p :: p in plan ==> Source(p) != []
    ensures before <= PrintAll(plan, before)
    decreases |plan|
  {
    hide Printed, Source;
    if plan != [] { PrintsAfter(plan[1..], before + Printed(plan[0], before)); }
  }

  /** The first `n` lines of the result, then these, then the others. */
  ghost predicate StandsAt(result: seq<string>, n: nat, lines: seq<string>) {
    n + |lines| <= |result| && result[n..n + |lines|] == lines
  }

  /** A table stands in the result at line `n`, between blank lines: one is put in front of it unless it comes first or
      after a blank line, and one behind it. A line that is no table stands there as it is. */
  ghost predicate SetIn(result: seq<string>, n: nat, p: Piece, next: nat)
    requires Source(p) != []
  {
    if p.Verbatim? then next == n + 1 && StandsAt(result, n, [p.line])
    else
      var table := TableLines(Rows(p.block, p.delim), p.cols);
      && n < |result|
      && if n == 0 || Trim(result[n - 1]) == ""
         then next == n + |table| + 1 && StandsAt(result, n, table + [""])
         else next == n + |table| + 2 && StandsAt(result, n, [""] + table + [""])
  }

  lemma SetsIn(result: seq<string>, before: seq<string>, p: Piece)
    requires Source(p) != [] && before + Printed(p, before) <= result
    ensures SetIn(result, |before|, p, |before + Printed(p, before)|)
  {
    hide Trim, TableLines;
    var printed := Printed(p, before);
    assert result[|before|..|before| + |printed|] == printed;
    assert before != [] ==> result[|before| - 1] == before[|before| - 1];
    if p.Table? {
      var table := TableLines(Rows(p.block, p.delim), p.cols);
      assert [] + table + [""] == table + [""];
    }
  }

  /** The number of result lines before the `k`-th piece. */
  function PrintedBefore(plan: seq<Piece>, k: nat): nat
    requires k <= |plan| && forall p :: p in plan ==> Source(p) != []
  {
    |PrintAll(plan[..k], [])|
  }

  /** The result is made of the pieces one after the other, each set in where the one before it ends, and nothing else. */
  lemma PiecesAreSetIn(text: string, k: nat)
    requires k < |Plan(Lines(text))|
    ensures var plan, result := Plan(Lines(text)), Lines(Formatted(text));
      && PrintedBefore(plan, 0) == 0 && PrintedBefore(plan, |plan|) == |result|
      && SetIn(result, PrintedBefore(plan, k), plan[k], PrintedBefore(plan, k + 1))
  {
    hide Plan, Lines, Formatted, Printed, Source, SetIn;
    var plan := Plan(Lines(text));
    OutputLines(text);
    assert plan[..|plan|] == plan && plan[..0] == [];
    var before := PrintAll(plan[..k], []);
    PrintSplit(plan[..k + 1], k, []);
    assert plan[..k + 1][..k] == plan[..k] && plan[..k + 1][k..] == [plan[k]];
    PrintsOne(plan[k], before);
    PrintSplit(plan, k + 1, []);
    PrintsAfter(plan[k + 1..], PrintAll(plan[..k + 1], []));
    SetsIn(Lines(Formatted(text)), before, plan[k]);
  }

  lemma PrintsOne(p: Piece, before: seq<string>)
    requires Source(p) != []
    ensures PrintAll([p], before) == before + Printed(p, before)
  {
    assert [p][1..] == [];
  }
}
