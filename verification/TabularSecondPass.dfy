/** When rewriting a message a second time changes nothing. */
module TabularSecondPass {
  import opened JsMaps
  import opened Text
  import opened CsvFields
  import opened MarkdownTable
  import opened TabularFormat
  import opened TabularGuarantees

  // ---- where a plan can be cut ----

  /** The line belongs to no run, whatever stands before it. */
  predicate Stops(line: string) {
    !Continues(line, ',') && !Continues(line, '\t')
  }

  lemma {:induction false} RunCut(a: seq<string>, b: seq<string>, delim: char)
    requires (b == [] || Stops(b[0])) && (delim == ',' || delim == '\t')
    ensures RunLength(a + b, delim) == RunLength(a, delim)
  {
    hide Continues;
    if a == [] {
      assert a + b == b;
    } else {
      assert (a + b)[1..] == a[1..] + b;
      RunCut(a[1..], b, delim);
    }
  }

  /** What the scan decides depends on the line and its run alone. */
  lemma FirstBy(a: seq<string>, b: seq<string>)
    requires a != [] && b != [] && a[0] == b[0]
    requires forall delim :: PickDelim(a[0]) == Some(delim) ==> a[..RunLength(a, delim)] == b[..RunLength(b, delim)]
    ensures First(a) == First(b)
  {
    hide PickDelim, RunLength, Converts, TheModal, Counts;
  }

  lemma PicksOneOfTwo(line: string)
    ensures PickDelim(line) in {None, Some(','), Some('\t')}
  {
  }

  lemma FirstCut(a: seq<string>, b: seq<string>)
    requires a != [] && (b == [] || Stops(b[0]))
    ensures First(a + b) == First(a)
  {
    hide RunLength, Stops, PickDelim, First;
    PicksOneOfTwo(a[0]);
    forall delim | PickDelim(a[0]) == Some(delim) ensures (a + b)[..RunLength(a + b, delim)] == a[..RunLength(a, delim)] {
      RunCut(a, b, delim);
    }
    FirstBy(a + b, a);
  }

  /** Before a line that belongs to no run, the plan falls apart. */
  lemma {:induction false} PlanCut(a: seq<string>, b: seq<string>)
    requires b == [] || Stops(b[0])
    ensures Plan(a + b) == Plan(a) + Plan(b)
    decreases |a|
  {
    hide First, Stops;
    if a == [] {
      assert a + b == b;
    } else {
      FirstCut(a, b);
      var n := |Source(First(a))|;
      assert (a + b)[n..] == a[n..] + b;
      PlanCut(a[n..], b);
      assert [First(a)] + (Plan(a[n..]) + Plan(b)) == [First(a)] + Plan(a[n..]) + Plan(b);
    }
  }

  /** Such a line stays verbatim, even if it has a delimiter. */
  lemma StopIsAlone(line: string, rest: seq<string>)
    requires Stops(line)
    ensures Plan([line] + rest) == [Verbatim(line)] + Plan(rest)
  {
    hide Continues, Qualifies;
    PicksOneOfTwo(line);
    assert ([line] + rest)[1..] == rest;
    assert First([line] + rest) == Verbatim(line);
  }

  lemma CutAfter(a: seq<string>, rest: seq<string>)
    requires a == [] || Stops(a[|a| - 1])
    ensures Plan(a + rest) == Plan(a) + Plan(rest)
  {
    hide Stops, Plan;
    if a == [] {
      assert a + rest == rest;
      PlanOfNone();
    } else {
      var front, last := a[..|a| - 1], a[|a| - 1];
      assert a + rest == front + ([last] + rest) && a == front + ([last] + []);
      PlanCut(front, [last] + rest);
      PlanCut(front, [last] + []);
      StopIsAlone(last, rest);
      StopIsAlone(last, []);
      PlanOfNone();
      assert Plan(front) + ([Verbatim(last)] + Plan(rest)) == Plan(front) + ([Verbatim(last)] + []) + Plan(rest);
    }
  }

  lemma PlanOfNone()
    ensures Plan([]) == []
  {
  }

  lemma {:induction false} TablesConcat(a: seq<Piece>, b: seq<Piece>)
    ensures Tables(a + b) == Tables(a) + Tables(b)
  {
    if a == [] {
      assert a + b == b;
    } else {
      assert (a + b)[1..] == a[1..] + b;
      TablesConcat(a[1..], b);
    }
  }

  lemma TableRowStops(line: string)
    requires LooksLikeMarkdownTable(line)
    ensures Stops(line)
  {
    hide LooksLikeMarkdownTable;
  }

  lemma BlankStops(line: string)
    requires Trim(line) == ""
    ensures Stops(line)
  {
    hide LooksLikeMarkdownTable;
  }

  // ---- the second pass ----

  /** The runs of printed lines that are not recognised as table rows, after the lines `block`. */
  function Stuck(lines: seq<string>, block: seq<string>): seq<seq<string>> {
    if lines == [] then [block]
    else if LooksLikeMarkdownTable(lines[0]) then [block] + Stuck(lines[1..], [])
    else Stuck(lines[1..], block + [lines[0]])
  }

  /** The blocks of lines that a second pass may still convert: the lines left verbatim before the first table, between
      tables, and after the last; and the printed rows of a table that are not recognised as such, because a field holds a
      line end. */
  function Gaps(plan: seq<Piece>, gap: seq<string>): seq<seq<string>>
    requires forall p :: p in plan ==> Source(p) != []
  {
    if plan == [] then [gap]
    else match plan[0]
      case Verbatim(line) => Gaps(plan[1..], gap + [line])
      case Table(_, _, _) =>
        assert Source(plan[0]) != [];
        [gap] + StuckRows(plan[0]) + Gaps(plan[1..], [])
  }

  function StuckRows(p: Piece): seq<seq<string>>
    requires p.Table? && Source(p) != []
  {
    Stuck(TableLines(Rows(p.block, p.delim), p.cols), [])
  }

  function TablesOver(gaps: seq<seq<string>>): nat {
    if gaps == [] then 0 else Tables(Plan(gaps[0])) + TablesOver(gaps[1..])
  }

  lemma {:induction false} NoTablesOver(gaps: seq<seq<string>>)
    ensures TablesOver(gaps) == 0 <==> forall g :: g in gaps ==> Tables(Plan(g)) == 0
  {
    hide Plan;
    if gaps != [] {
      var rest := gaps[1..];
      NoTablesOver(rest);
      assert gaps[0] in gaps && forall g :: g in rest ==> g in gaps;
      if TablesOver(gaps) == 0 {
        forall g | g in gaps ensures Tables(Plan(g)) == 0 { assert g == gaps[0] || g in rest; }
      }
    }
  }

  lemma {:induction false} TablesOverConcat(a: seq<seq<string>>, b: seq<seq<string>>)
    ensures TablesOver(a + b) == TablesOver(a) + TablesOver(b)
  {
    hide Plan;
    if a == [] {
      assert a + b == b;
    } else {
      assert (a + b)[1..] == a[1..] + b;
      TablesOverConcat(a[1..], b);
    }
  }

  lemma OneGap(gap: seq<string>)
    ensures TablesOver([gap]) == Tables(Plan(gap))
  {
    hide Plan;
    assert [gap][1..] == [];
  }

  /** A line that stops every run separates the tables before it from those after it. */
  lemma TablesAround(a: seq<string>, line: string, b: seq<string>)
    requires Stops(line)
    ensures Tables(Plan(a + ([line] + b))) == Tables(Plan(a)) + Tables(Plan(b))
  {
    hide Plan, Stops;
    PlanCut(a, [line] + b);
    StopIsAlone(line, b);
    TablesConcat(Plan(a), [Verbatim(line)] + Plan(b));
    TablesConcat([Verbatim(line)], Plan(b));
  }

  /** Printed lines convert only where they are not recognised. */
  lemma {:induction false} StuckTables(lines: seq<string>, block: seq<string>)
    ensures Tables(Plan(block + lines)) == TablesOver(Stuck(lines, block))
    decreases |lines|
  {
    hide Plan, LooksLikeMarkdownTable, TablesOver;
    if lines == [] {
      assert block + lines == block;
      OneGap(block);
    } else {
      var line, rest := lines[0], lines[1..];
      if LooksLikeMarkdownTable(line) {
        assert block + lines == block + ([line] + rest) && [] + rest == rest;
        TableRowStops(line);
        TablesAround(block, line, rest);
        StuckTables(rest, []);
        OneGap(block);
        TablesOverConcat([block], Stuck(rest, []));
      } else {
        assert block + lines == block + [line] + rest;
        StuckTables(rest, block + [line]);
      }
    }
  }

  /** A printed table is set off from the lines before it. */
  lemma SetOff(before: seq<string>, table: seq<string>, blank: bool)
    requires blank || before == [] || Stops(before[|before| - 1])
    ensures Tables(Plan(before + ((if blank then [""] else []) + table + [""]))) == Tables(Plan(before)) + Tables(Plan(table))
  {
    hide Plan, Stops;
    BlankStops("") by { TrimOfNothing(); }
    PlanOfNone();
    NoTables();
    Regroup(before, table);
    TablesAround(table, "", []);
    if blank {
      TablesAround(before, "", table + [""]);
    } else {
      CutAfter(before, table + [""]);
      TablesConcat(Plan(before), Plan(table + [""]));
    }
  }

  lemma Regroup(before: seq<string>, table: seq<string>)
    ensures before + ([""] + table + [""]) == before + ([""] + (table + [""]))
    ensures before + ([] + table + [""]) == before + (table + [""])
    ensures table + [""] == table + ([""] + [])
  {
    assert [] + table + [""] == table + [""];
    assert [""] + table + [""] == [""] + (table + [""]);
  }

  lemma TrimOfNothing()
    ensures Trim("") == ""
  {
  }

  /** The tables a second pass finds are the tables of the gaps. */
  lemma {:induction false} SecondPassTables(plan: seq<Piece>, before: seq<string>, gap: seq<string>)
    requires forall p :: p in plan ==> Source(p) != []
    requires before == [] || Stops(before[|before| - 1])
    ensures Tables(Plan(PrintAll(plan, before + gap))) == Tables(Plan(before)) + TablesOver(Gaps(plan, gap))
    decreases |plan|
  {
    hide Plan, Stops, Printed, PrintAll, TablesOver, Gaps, Source;
    if plan == [] {
      NothingMore(before + gap, gap);
      CutAfter(before, gap);
      TablesConcat(Plan(before), Plan(gap));
    } else {
      var p, rest := plan[0], plan[1..];
      assert p in plan;
      PrintOne(plan, before + gap);
      GapsOne(plan, gap);
      if p.Verbatim? {
        assert before + gap + [p.line] == before + (gap + [p.line]);
        SecondPassTables(rest, before, gap + [p.line]);
      } else {
        TableCloses(before, gap, p);
        var printed := before + gap + Printed(p, before + gap);
        assert printed + [] == printed;
        SecondPassTables(rest, printed, []);
      }
    }
  }

  lemma TableCloses(before: seq<string>, gap: seq<string>, p: Piece)
    requires p.Table? && Source(p) != [] && (before == [] || Stops(before[|before| - 1]))
    ensures var b := before + gap + Printed(p, before + gap);
      Stops(b[|b| - 1]) && Tables(Plan(b)) == Tables(Plan(before)) + Tables(Plan(gap)) + TablesOver(StuckRows(p))
  {
    hide Plan, Stops, TableLines, Rows, Trim, TablesOver, Stuck;
    var before1 := before + gap;
    var table := TableLines(Rows(p.block, p.delim), p.cols);
    var blank := before1 != [] && Trim(before1[|before1| - 1]) != "";
    if before1 != [] && !blank { BlankStops(before1[|before1| - 1]); }
    SetOff(before1, table, blank);
    CutAfter(before, gap);
    TablesConcat(Plan(before), Plan(gap));
    StuckTables(table, []);
    assert [] + table == table;
    BlankStops("") by { TrimOfNothing(); }
    EndsBlank(before1, p);
  }

  lemma EndsBlank(before: seq<string>, p: Piece)
    requires p.Table? && Source(p) != []
    ensures var b := before + Printed(p, before); b[|b| - 1] == ""
  {
    hide TableLines, Trim;
  }

  lemma NothingMore(before: seq<string>, gap: seq<string>)
    ensures PrintAll([], before) == before && TablesOver(Gaps([], gap)) == Tables(Plan(gap))
  {
    hide Plan;
    OneGap(gap);
  }

  lemma PrintOne(plan: seq<Piece>, before: seq<string>)
    requires plan != [] && forall p :: p in plan ==> Source(p) != []
    ensures PrintAll(plan, before) == PrintAll(plan[1..], before + Printed(plan[0], before))
    ensures plan[0].Verbatim? ==> Printed(plan[0], before) == [plan[0].line]
  {
  }

  lemma GapsOne(plan: seq<Piece>, gap: seq<string>)
    requires plan != [] && forall p :: p in plan ==> Source(p) != []
    ensures plan[0].Verbatim? ==> Gaps(plan, gap) == Gaps(plan[1..], gap + [plan[0].line])
    ensures plan[0].Table? ==>
      && Source(plan[0]) != []
      && TablesOver(Gaps(plan, gap)) == Tables(Plan(gap)) + TablesOver(StuckRows(plan[0])) + TablesOver(Gaps(plan[1..], []))
  {
    hide Plan, StuckRows, TablesOver, Source;
    assert plan[0] in plan;
    if plan[0].Table? {
      OneGap(gap);
      TablesOverConcat([gap] + StuckRows(plan[0]), Gaps(plan[1..], []));
      TablesOverConcat([gap], StuckRows(plan[0]));
    }
  }

  /** A second pass changes nothing if and only if no gap would convert anything on its own. */
  lemma TwiceExactly(text: string)
    ensures Formatted(Formatted(text)) == Formatted(text) <==>
      forall g :: g in Gaps(Plan(Lines(text)), []) ==> Tables(Plan(g)) == 0
  {
    hide *;
    var plan := Plan(Lines(text));
    var nothing: seq<string> := [];
    OutputLines(text);
    UnchangedExactly(Formatted(text));
    SecondPassTables(plan, nothing, nothing);
    assert nothing + nothing == nothing;
    PlanOfNone();
    NoTables();
    NoTablesOver(Gaps(plan, []));
  }

  /** Where every field is free of line ends, no printed row is left among the gaps. */
  lemma NothingIsStuck(rows: seq<seq<string>>, cols: nat)
    requires rows != []
    requires forall r, f, c :: r in rows && f in r && c in Trim(f) ==> !IsLineEnd(c)
    ensures forall g :: g in Stuck(TableLines(rows, cols), []) ==> g == []
  {
    hide *;
    PrintedRowsAreTableRows(rows, cols);
    AllRecognised(TableLines(rows, cols));
  }

  lemma {:induction false} AllRecognised(lines: seq<string>)
    requires forall line :: line in lines ==> LooksLikeMarkdownTable(line)
    ensures forall g :: g in Stuck(lines, []) ==> g == []
  {
    hide LooksLikeMarkdownTable;
    if lines != [] {
      assert lines[0] in lines && forall line :: line in lines[1..] ==> line in lines;
      AllRecognised(lines[1..]);
    }
  }

  lemma NoTables()
    ensures Tables([]) == 0
  {
  }

  // ---- a second pass can convert more ----

  /** A line that starts a comma run and has `n` fields. */
  ghost predicate CommaLine(line: string, n: nat) {
    PickDelim(line) == Some(',') && Continues(line, ',') && |Fields(line, ',')| == n && OneLine(line)
  }

  ghost predicate CommaLines(lines: seq<string>, counts: seq<nat>) {
    |lines| == |counts| && forall i :: 0 <= i < |lines| ==> CommaLine(lines[i], counts[i])
  }

  lemma CommaLineIs(lines: seq<string>, counts: seq<nat>, i: nat)
    requires CommaLines(lines, counts) && i < |lines|
    ensures PickDelim(lines[i]) == Some(',') && Continues(lines[i], ',') && OneLine(lines[i]) && Trim(lines[i]) != ""
    ensures |Fields(lines[i], ',')| == counts[i]
  {
    assert CommaLine(lines[i], counts[i]);
  }

  lemma CommaLinesFrom(lines: seq<string>, counts: seq<nat>, i: nat, j: nat)
    requires CommaLines(lines, counts) && i <= j <= |lines|
    ensures CommaLines(lines[i..j], counts[i..j])
  {
    hide CommaLine;
  }

  lemma {:induction false} CommaRun(lines: seq<string>, counts: seq<nat>, rest: seq<string>)
    requires |lines| == |counts| && CommaLines(lines, counts) && (rest == [] || !Continues(rest[0], ','))
    ensures RunLength(lines + rest, ',') == |lines|
    decreases |lines|
  {
    hide *;
    if lines == [] {
      assert lines + rest == rest;
      RunNone(rest, ',');
    } else {
      var later := lines[1..|lines|];
      CommaLineIs(lines, counts, 0);
      CommaLinesFrom(lines, counts, 1, |lines|);
      CommaRun(later, counts[1..|lines|], rest);
      assert lines + rest == [lines[0]] + (later + rest);
      RunMore(lines[0], later + rest, ',');
    }
  }

  lemma RunNone(rest: seq<string>, delim: char)
    requires rest == [] || !Continues(rest[0], delim)
    ensures RunLength(rest, delim) == 0
  {
    hide Continues;
  }

  lemma RunMore(line: string, rest: seq<string>, delim: char)
    requires Continues(line, delim)
    ensures RunLength([line] + rest, delim) == 1 + RunLength(rest, delim)
  {
    hide Continues;
    assert ([line] + rest)[1..] == rest;
  }

  lemma CommaCounts(lines: seq<string>, counts: seq<nat>)
    requires CommaLines(lines, counts)
    ensures Counts(lines, ',') == counts
  {
    hide CommaLine, Fields;
    forall i | 0 <= i < |lines| ensures |Fields(lines[i], ',')| == counts[i] { CommaLineIs(lines, counts, i); }
  }

  lemma FirstOfCommaLines(lines: seq<string>, counts: seq<nat>, rest: seq<string>, m: nat)
    requires lines != [] && |lines| == |counts| && CommaLines(lines, counts) && (rest == [] || !Continues(rest[0], ','))
    requires IsModal(counts, m)
    ensures First(lines + rest) ==
      if |lines| >= 2 && m >= 3 && 5 * multiset(counts)[m] >= 3 * |lines| then Table(lines, ',', m) else Verbatim(lines[0])
  {
    hide Fields, PickDelim, RunLength, Continues, IsModal, TheModal, Counts, CommaLines;
    CommaRun(lines, counts, rest);
    CommaLineIs(lines, counts, 0);
    assert (lines + rest)[..|lines|] == lines;
    CommaCounts(lines, counts);
    ModalIsUnique(counts, m, TheModal(counts));
  }

  lemma ModalFromMultiset(counts: seq<nat>, bag: multiset<nat>, m: nat)
    requires multiset(counts) == bag && counts != [] && m in bag
    requires forall c :: c in bag ==> bag[c] < bag[m] || (bag[c] == bag[m] && c <= m)
    ensures IsModal(counts, m)
  {
    assert m in multiset(counts);
    assert forall c :: c in counts ==> c in multiset(counts);
  }

  const Mixed := [3, 3, 3, 3, 4, 4, 4]

  lemma ModalOf7()
    ensures IsModal(Mixed, 3) && multiset(Mixed)[3] == 4
  {
    assert multiset(Mixed) == multiset{3, 3, 3, 3, 4, 4, 4};
    ModalFromMultiset(Mixed, multiset{3, 3, 3, 3, 4, 4, 4}, 3);
  }

  lemma ModalOf6()
    ensures IsModal(Mixed[1..7], 4) && multiset(Mixed[1..7])[4] == 3
  {
    assert Mixed[1..7] == [3, 3, 3, 4, 4, 4] && multiset([3, 3, 3, 4, 4, 4]) == multiset{3, 3, 3, 4, 4, 4};
    ModalFromMultiset(Mixed[1..7], multiset{3, 3, 3, 4, 4, 4}, 4);
  }

  lemma ModalOf5()
    ensures IsModal(Mixed[2..7], 4) && multiset(Mixed[2..7])[4] == 3
  {
    assert Mixed[2..7] == [3, 3, 4, 4, 4] && multiset([3, 3, 4, 4, 4]) == multiset{3, 3, 4, 4, 4};
    ModalFromMultiset(Mixed[2..7], multiset{3, 3, 4, 4, 4}, 4);
  }

  lemma ModalOf2()
    ensures IsModal(Mixed[0..2], 3) && multiset(Mixed[0..2])[3] == 2
  {
    assert Mixed[0..2] == [3, 3] && multiset([3, 3]) == multiset{3, 3};
    ModalFromMultiset(Mixed[0..2], multiset{3, 3}, 3);
  }

  lemma FirstVerbatim(lines: seq<string>, counts: seq<nat>, m: nat, before: seq<string>)
    requires lines != [] && |lines| == |counts| && CommaLines(lines, counts)
    requires IsModal(counts, m) && 5 * multiset(counts)[m] < 3 * |lines|
    ensures PrintAll(Plan(lines), before) == PrintAll(Plan(lines[1..]), before + [lines[0]])
  {
    hide First, CommaLines, IsModal, Plan, PrintAll;
    assert lines + [] == lines;
    FirstOfCommaLines(lines, counts, [], m);
    PlanStep(lines, before);
  }

  lemma FirstTable(lines: seq<string>, counts: seq<nat>, m: nat, before: seq<string>)
    requires |lines| == |counts| >= 2 && CommaLines(lines, counts)
    requires IsModal(counts, m) && m >= 3 && 5 * multiset(counts)[m] >= 3 * |lines|
    ensures PrintAll(Plan(lines), before) == before + Printed(Table(lines, ',', m), before)
  {
    hide First, CommaLines, IsModal, Plan, PrintAll, Printed;
    assert lines + [] == lines;
    FirstOfCommaLines(lines, counts, [], m);
    PlanStep(lines, before);
    assert lines[|lines|..] == [];
    PlanOfNothing(before + Printed(Table(lines, ',', m), before));
  }

  /** The first two lines, and a table of the last five. */
  ghost function MixedOutput(lines: seq<string>): seq<string>
    requires |lines| == 7
  {
    lines[0..2] + ([""] + TableLines(Rows(lines[2..7], ','), 4) + [""])
  }

  ghost predicate PrintsMixed(lines: seq<string>)
    requires |lines| == 7
  {
    PrintAll(Plan(lines), []) == MixedOutput(lines)
  }

  lemma MixedPrints(lines: seq<string>)
    requires |lines| == 7 && CommaLines(lines, Mixed)
    ensures PrintsMixed(lines)
  {
    hide CommaLines, IsModal, Plan, PrintAll, TableLines, Rows;
    ModalOf7();
    ModalOf6();
    ModalOf5();
    CommaLinesFrom(lines, Mixed, 1, 7);
    CommaLinesFrom(lines, Mixed, 2, 7);
    FirstVerbatim(lines, Mixed, 3, []);
    FirstVerbatim(lines[1..7], Mixed[1..7], 4, [] + [lines[0]]);
    assert lines[1..] == lines[1..7] && lines[1..7][1..] == lines[2..7];
    assert [] + [lines[0]] + [lines[1]] == lines[0..2];
    FirstTable(lines[2..7], Mixed[2..7], 4, lines[0..2]);
    CommaLineIs(lines, Mixed, 1);
  }

  lemma PrintedIs(lines: seq<string>)
    requires |lines| == 7 && PrintsMixed(lines)
    ensures PrintAll(Plan(lines), []) == MixedOutput(lines)
  {
  }

  lemma BlankStopsRun()
    ensures !Continues("", ',')
  {
  }

  lemma SomeTable(lines: seq<string>)
    requires lines != [] && First(lines).Table?
    ensures Tables(Plan(lines)) > 0
  {
    hide First;
  }

  /** On any seven lines of 3,3,3,3,4,4,4 comma fields the first pass converts only the last five, so a second
      pass converts the first two as well: the rewriting is not idempotent. */
  lemma ASecondPassConvertsMore(lines: seq<string>)
    requires |lines| == 7 && CommaLines(lines, Mixed)
    ensures var text := Join(lines, "\n");
      Lines(text) == lines && Formatted(Formatted(text)) != Formatted(text)
  {
    hide *;
    var text := Join(lines, "\n");
    LinesAreSplit(lines);
    OutputLines(text);
    MixedPrints(lines);
    PrintedIs(lines);
    SecondPass(lines, Lines(Formatted(text)));
    UnchangedExactly(Formatted(text));
  }

  lemma LinesAreSplit(lines: seq<string>)
    requires |lines| == 7 && CommaLines(lines, Mixed)
    ensures Lines(Join(lines, "\n")) == lines
  {
    hide CommaLine, OneLine;
    forall i | 0 <= i < |lines| ensures OneLine(lines[i]) { CommaLineIs(lines, Mixed, i); }
    SplitLines(lines);
  }

  lemma SecondPass(lines: seq<string>, printed: seq<string>)
    requires |lines| == 7 && CommaLines(lines, Mixed)
    requires printed == MixedOutput(lines)
    ensures Tables(Plan(printed)) != 0
  {
    hide CommaLines, First, TableLines, Rows, IsModal;
    var tail := [""] + TableLines(Rows(lines[2..7], ','), 4) + [""];
    CommaLinesFrom(lines, Mixed, 0, 2);
    ModalOf2();
    BlankStopsRun();
    FirstOfCommaLines(lines[0..2], Mixed[0..2], tail, 3);
    SomeTable(printed);
  }

  /** Seven such lines. */
  lemma SampleLines()
    ensures CommaLines(["1,2,3", "1,2,3", "1,2,3", "1,2,3", "1,2,3,4", "1,2,3,4", "1,2,3,4"], Mixed)
  {
    hide CommaLine;
    var three, four := ["1", "2", "3"], ["1", "2", "3", "4"];
    JoinThree();
    JoinFour();
    SampleLine("1,2,3", three);
    SampleLine("1,2,3,4", four);
  }

  lemma JoinThree()
    ensures Join(["1", "2", "3"], ",") == "1,2,3"
  {
    var three := ["1", "2", "3"];
    assert three[1..] == ["2", "3"] && three[1..][1..] == ["3"];
    assert Join(["2", "3"], ",") == "2" + "," + Join(["3"], ",");
  }

  lemma JoinFour()
    ensures Join(["1", "2", "3", "4"], ",") == "1,2,3,4"
  {
    var four := ["1", "2", "3", "4"];
    assert four[1..] == ["2", "3", "4"] && four[1..][1..] == ["3", "4"] && four[1..][1..][1..] == ["4"];
    assert Join(["3", "4"], ",") == "3" + "," + Join(["4"], ",");
    assert Join(["2", "3", "4"], ",") == "2" + "," + Join(["3", "4"], ",");
  }

  lemma SampleLine(line: string, fields: seq<string>)
    requires |fields| >= 3 && line != [] && line[0] == '1' && IsDigit(line[|line| - 1])
    requires '\t' !in line && ',' in line && OneLine(line)
    requires forall f :: f in fields ==> '"' !in f && ',' !in f
    requires line == Join(fields, ",")
    ensures CommaLine(line, |fields|)
  {
    hide Fields, Trim, LooksLikeMarkdownTable;
    PlainFields(fields);
    assert [] + line + [] == line;
    assert Trimmed(line) by { DigitsAreNoSpace(line[0]); DigitsAreNoSpace(line[|line| - 1]); }
    TrimPadded([], line, []);
    DigitStartsNoTable(line);
  }

  lemma PlainFields(fields: seq<string>)
    requires fields != [] && forall f :: f in fields ==> '"' !in f && ',' !in f
    ensures Fields(Join(fields, ","), ',') == fields
  {
    hide Fields;
    var quoted := seq(|fields|, i requires 0 <= i < |fields| => false);
    ReadWritten(fields, quoted, ',');
    assert seq(|fields|, i requires 0 <= i < |fields| => Written(fields[i], quoted[i])) == fields;
  }

  lemma DigitsAreNoSpace(c: char)
    requires IsDigit(c)
    ensures !IsSpace(c)
  {
  }

  lemma DigitStartsNoTable(line: string)
    requires line != [] && line[0] == '1'
    ensures !LooksLikeMarkdownTable(line)
  {
  }
}
