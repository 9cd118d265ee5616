/** What the rewriting of a whole message keeps and changes. */
module TabularGuarantees {
  import opened JsMaps
  import Decimals
  import opened Text
  import opened CsvFields
  import opened MarkdownTable
  import opened TabularFormat

  // ---- the output, line by line ----

  ghost predicate OneLine(s: string) {
    '\n' !in s
  }

  lemma {:induction false} EscapeIsOneLine(t: string)
    ensures OneLine(EscapeText(t))
  {
    if t != [] { EscapeIsOneLine(t[1..]); }
  }

  lemma {:induction false} JoinIsOneLine(parts: seq<string>, sep: string)
    requires OneLine(sep) && forall p :: p in parts ==> OneLine(p)
    ensures OneLine(Join(parts, sep))
  {
    if parts != [] { assert parts[0] in parts; }
    if |parts| > 1 { JoinIsOneLine(parts[1..], sep); }
  }

  lemma RowIsOneLine(cells: seq<string>)
    requires forall c :: c in cells ==> OneLine(c)
    ensures OneLine(Row(cells))
  {
    JoinIsOneLine(cells, " | ");
  }

  lemma NormIsOneLine(r: seq<string>, cols: nat)
    ensures OneLine(Row(NormCells(r, cols)))
  {
    forall c | c in NormCells(r, cols) ensures OneLine(c) {
      var i :| 0 <= i < cols && NormCells(r, cols)[i] == c;
      if i < |r| { EscapeIsOneLine(Trim(r[i])); }
    }
    RowIsOneLine(NormCells(r, cols));
  }

  lemma TableIsLines(rows: seq<seq<string>>, cols: nat)
    requires rows != []
    ensures forall line :: line in TableLines(rows, cols) ==> OneLine(line)
  {
    hide Row, NormCells, LooksLikeHeaderRow;
    forall c | c in ColumnNames(cols) ensures OneLine(c) {
      var i :| 0 <= i < cols && ColumnNames(cols)[i] == c;
      ColumnNameIsPlain(i + 1);
    }
    RowIsOneLine(ColumnNames(cols));
    RowIsOneLine(Dashes(cols));
    NormIsOneLine(rows[0], cols);
    forall i | 0 <= i < |Body(rows)| ensures OneLine(Row(NormCells(Body(rows)[i], cols))) {
      NormIsOneLine(Body(rows)[i], cols);
    }
  }

  lemma {:induction false} PrintsLines(plan: seq<Piece>, before: seq<string>)
    requires forall p :: p in plan ==> Source(p) != [] && forall line :: line in Source(p) ==> OneLine(line)
    requires forall line :: line in before ==> OneLine(line)
    ensures forall line :: line in PrintAll(plan, before) ==> OneLine(line)
    decreases |plan|
  {
    hide OneLine, TableLines;
    if plan != [] {
      var p := plan[0];
      assert p in plan;
      if p.Table? { TableIsLines(Rows(p.block, p.delim), p.cols); }
      assert OneLine("") by { EmptyIsOneLine(); }
      assert forall line :: line in Printed(p, before) ==> OneLine(line);
      PrintsLines(plan[1..], before + Printed(p, before));
    }
  }

  lemma EmptyIsOneLine()
    ensures OneLine("")
  {
  }

  lemma {:induction false} SourcesHave(plan: seq<Piece>, p: Piece, line: string)
    requires p in plan && line in Source(p)
    ensures line in Sources(plan)
  {
    if p != plan[0] { SourcesHave(plan[1..], p, line); }
  }

  /** The lines of the result are exactly the printed pieces of the plan; nothing is merged or split. */
  lemma OutputLines(text: string)
    ensures Lines(Formatted(text)) == PrintAll(Plan(Lines(text)), [])
  {
    var lines := Lines(text);
    PlanPartitions(lines);
    forall p, line | p in Plan(lines) && line in Source(p) ensures OneLine(line) {
      SourcesHave(Plan(lines), p, line);
    }
    PrintsLines(Plan(lines), []);
    PrintGrows(Plan(lines), []);
    hide Plan, PrintAll, OneLine;
    SplitLines(PrintAll(Plan(lines), []));
  }

  lemma SplitLines(lines: seq<string>)
    requires lines != [] && forall line :: line in lines ==> OneLine(line)
    ensures Split(Join(lines, "\n"), '\n') == lines
  {
    SplitJoin(lines, '\n');
  }

  // ---- how much longer it gets ----

  function Tables(plan: seq<Piece>): nat {
    if plan == [] then 0 else (if plan[0].Table? then 1 else 0) + Tables(plan[1..])
  }

  lemma PieceGrows(p: Piece, before: seq<string>)
    requires Source(p) != []
    ensures |Printed(p, before)| >= |Source(p)| + if p.Table? then 2 else 0
    ensures p.Verbatim? ==> Printed(p, before) == Source(p)
  {
  }

  /** Every table adds at least two lines: the separator and the blank line after it. */
  lemma {:induction false} PrintGrows(plan: seq<Piece>, before: seq<string>)
    requires forall p :: p in plan ==> Source(p) != []
    ensures |PrintAll(plan, before)| >= |before| + |Sources(plan)| + 2 * Tables(plan)
    decreases |plan|
  {
    hide Printed, Source;
    if plan != [] {
      assert plan[0] in plan;
      PieceGrows(plan[0], before);
      PrintGrows(plan[1..], before + Printed(plan[0], before));
    }
  }

  lemma {:induction false} NoTablePrintsSource(plan: seq<Piece>, before: seq<string>)
    requires Tables(plan) == 0 && forall p :: p in plan ==> Source(p) != []
    ensures PrintAll(plan, before) == before + Sources(plan)
    decreases |plan|
  {
    if plan == [] {
      assert before + [] == before;
    } else {
      hide Printed, Source;
      assert plan[0] in plan;
      PieceGrows(plan[0], before);
      NoTablePrintsSource(plan[1..], before + Source(plan[0]));
      assert before + Source(plan[0]) + Sources(plan[1..]) == before + (Source(plan[0]) + Sources(plan[1..]));
    }
  }

  /** A message comes back unchanged if and only if no run of its lines is converted. */
  lemma UnchangedExactly(text: string)
    ensures Formatted(text) == text <==> Tables(Plan(Lines(text))) == 0
  {
    var plan := Plan(Lines(text));
    PlanPartitions(Lines(text));
    PrintGrows(plan, []);
    OutputLines(text);
    JoinSplit(text, '\n');
    if Tables(plan) == 0 {
      NoTablePrintsSource(plan, []);
      assert [] + Lines(text) == Lines(text);
    }
  }

  // ---- what the tables hold ----

  lemma {:induction false} ScanIsOneLine(s: string, delim: char, inQuotes: bool, cur: string)
    requires OneLine(s) && OneLine(cur)
    ensures forall f :: f in Scan(s, delim, inQuotes, cur) ==> OneLine(f)
    decreases |s|
  {
    if s == [] {
    } else if s[0] == '"' {
      if inQuotes && |s| > 1 && s[1] == '"' { ScanIsOneLine(s[2..], delim, inQuotes, cur + ['"']); }
      else { ScanIsOneLine(s[1..], delim, !inQuotes, cur); }
    } else if s[0] == delim && !inQuotes {
      ScanIsOneLine(s[1..], delim, false, []);
    } else {
      ScanIsOneLine(s[1..], delim, inQuotes, cur + [s[0]]);
    }
  }

  lemma FieldsAreOneLine(line: string, delim: char)
    requires OneLine(line)
    ensures forall f :: f in Fields(line, delim) ==> OneLine(f)
  {
    if delim == '\t' { SplitKeepsAbsence(line, '\t', '\n'); } else { ScanIsOneLine(line, delim, false, []); }
  }

  /** Each table of the result reads back, cell by cell, as the trimmed fields of its run of source lines. */
  lemma TablesHoldTheirRuns(text: string, p: Piece)
    requires p in Plan(Lines(text)) && p.Table?
    ensures
      var rows := Rows(p.block, p.delim); var t := TableLines(rows, p.cols);
      && |t| == 2 + |Body(rows)|
      && ReadsAs(t[0], if LooksLikeHeaderRow(rows[0]) then Fitted(rows[0], p.cols) else ColumnNames(p.cols))
      && ReadsAs(t[1], Dashes(p.cols))
      && forall i :: 0 <= i < |Body(rows)| ==> ReadsAs(t[2 + i], Fitted(Body(rows)[i], p.cols))
  {
    hide ReadsAs, TableLines, Plan, Fields, LooksLikeHeaderRow;
    PlanPartitions(Lines(text));
    RunFieldsAreOneLine(text, p);
    assert p.cols > 0;
    TableReads(Rows(p.block, p.delim), p.cols);
  }

  lemma RunFieldsAreOneLine(text: string, p: Piece)
    requires p in Plan(Lines(text)) && p.Table?
    ensures forall r, f :: r in Rows(p.block, p.delim) && f in r ==> '\n' !in f
  {
    hide *;
    PlanPartitions(Lines(text));
    SplitPartsAreLines(text);
    forall line | line in p.block ensures OneLine(line) { BlockLineIsSource(text, p, line); }
    RowsAreOneLine(p.block, p.delim);
  }

  lemma BlockLineIsSource(text: string, p: Piece, line: string)
    requires p in Plan(Lines(text)) && p.Table? && line in p.block && Sources(Plan(Lines(text))) == Lines(text)
    ensures line in Lines(text)
  {
    hide Plan, Lines, Sources;
    SourcesHave(Plan(Lines(text)), p, line);
  }

  lemma RowsAreOneLine(block: seq<string>, delim: char)
    requires forall line :: line in block ==> OneLine(line)
    ensures forall r, f :: r in Rows(block, delim) && f in r ==> '\n' !in f
  {
    hide Fields;
    forall r, f | r in Rows(block, delim) && f in r ensures '\n' !in f {
      var i :| 0 <= i < |block| && Fields(block[i], delim) == r;
      FieldsAreOneLine(block[i], delim);
    }
  }

  lemma SplitPartsAreLines(text: string)
    ensures forall line :: line in Lines(text) ==> OneLine(line)
  {
  }

  // ---- tables that are there already ----

  /** No line that is a table row already is ever taken into a conversion. */
  lemma TableRowsAreLeftAlone(text: string, p: Piece, line: string)
    requires p in Plan(Lines(text)) && line in Source(p) && LooksLikeMarkdownTable(line)
    ensures p == Verbatim(line)
  {
    PlanPartitions(Lines(text));
  }

  /** The rows a conversion prints are such rows, unless a trimmed field holds a line end inside. */
  lemma PrintedRowsAreTableRows(rows: seq<seq<string>>, cols: nat)
    requires rows != []
    requires forall r, f, c :: r in rows && f in r && c in Trim(f) ==> !IsLineEnd(c)
    ensures forall line :: line in TableLines(rows, cols) ==> LooksLikeMarkdownTable(line)
  {
    hide Row, LooksLikeHeaderRow, LooksLikeMarkdownTable, IsLineEnd, Trim, EscapeText;
    forall r | r in rows ensures LooksLikeMarkdownTable(Row(NormCells(r, cols))) {
      forall i, c | 0 <= i < cols && c in NormCells(r, cols)[i] ensures !IsLineEnd(c) {
        if i < |r| {
          assert r[i] in r;
          EscapeKeepsClean(Trim(r[i]));
        }
      }
      RowLooksLikeTable(NormCells(r, cols));
    }
    forall i, c | 0 <= i < cols && c in ColumnNames(cols)[i] ensures !IsLineEnd(c) { ColumnNameIsClean(i + 1, c); }
    RowLooksLikeTable(ColumnNames(cols));
    forall i, c | 0 <= i < cols && c in Dashes(cols)[i] ensures !IsLineEnd(c) { DashIsClean(c); }
    RowLooksLikeTable(Dashes(cols));
    forall i | 0 <= i < |Body(rows)| ensures LooksLikeMarkdownTable(Row(NormCells(Body(rows)[i], cols))) {
      assert Body(rows)[i] in rows;
    }
    assert rows[0] in rows;
  }

  lemma DashIsClean(c: char)
    requires c in "---"
    ensures !IsLineEnd(c)
  {
  }

  lemma ColumnNameIsClean(k: nat, c: char)
    requires c in "Column " + Decimals.Decimal(k)
    ensures !IsLineEnd(c)
  {
    if c !in "Column " { assert c in Decimals.Decimal(k); }
  }

  lemma {:induction false} EscapeKeepsClean(t: string)
    requires forall c :: c in t ==> !IsLineEnd(c)
    ensures forall c :: c in EscapeText(t) ==> !IsLineEnd(c)
  {
    if t != [] { EscapeKeepsClean(t[1..]); }
  }
}
