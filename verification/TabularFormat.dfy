/** Finding the runs of tabular lines in a chat message and replacing them by markdown tables. */
module TabularFormat {
  import opened JsMaps
  import opened Text
  import opened CsvFields
  import opened MarkdownTable

  // ---- the most frequent field count ----

  /** `m` occurs most often in the counts; among the most frequent it is the largest. */
  ghost predicate IsModal(counts: seq<nat>, m: nat) {
    && (counts == [] ==> m == 0)
    && (counts != [] ==> m in counts)
    && forall c :: c in counts ==>
      multiset(counts)[c] < multiset(counts)[m] || (multiset(counts)[c] == multiset(counts)[m] && c <= m)
  }

  lemma ModalIsUnique(counts: seq<nat>, m: nat, n: nat)
    requires IsModal(counts, m) && IsModal(counts, n)
    ensures m == n
  {
  }

  method Modal(counts: seq<nat>) returns (best: nat)
    ensures IsModal(counts, best)
  {
    var freq: map<nat, nat> := map[];
    for i := 0 to |counts|
      invariant forall c :: c in freq <==> c in counts[..i]
      invariant forall c :: c in freq ==> freq[c] == multiset(counts[..i])[c]
    {
      assert counts[..i + 1] == counts[..i] + [counts[i]];
      var c := counts[i];
      freq := freq[c := (if c in freq then freq[c] else 0) + 1];
    }
    assert counts[..|counts|] == counts;
    best := 0;
    var bestN := 0;
    var todo := freq.Keys;
    while todo != {}
      invariant todo <= freq.Keys
      invariant todo == freq.Keys ==> best == 0 && bestN == 0
      invariant todo != freq.Keys ==> best in freq && best !in todo && bestN == freq[best]
      invariant forall c :: c in freq && c !in todo ==> freq[c] < bestN || (freq[c] == bestN && c <= best)
    {
      var c :| c in todo;
      var n := freq[c];
      if n > bestN || (n == bestN && c > best) { best, bestN := c, n; }
      todo := todo - {c};
    }
  }

  // ---- runs of lines ----

  function MinCols(delim: char): nat { if delim == '\t' then 2 else 3 }

  predicate Qualifies(line: string, delim: char) {
    delim in line && |Fields(line, delim)| >= MinCols(delim)
  }

  /** The delimiter the line is split by, unless it is plain text or a table row already. */
  function PickDelim(line: string): Option<char> {
    if LooksLikeMarkdownTable(line) then None
    else if Qualifies(line, '\t') then Some('\t')
    else if Qualifies(line, ',') then Some(',')
    else None
  }

  predicate Continues(line: string, delim: char) {
    Trim(line) != "" && !LooksLikeMarkdownTable(line) && |Fields(line, delim)| >= 2
  }

  /** The length of the run of continuing lines at the start. */
  function RunLength(lines: seq<string>, delim: char): (n: nat)
    ensures n <= |lines|
  {
    if lines != [] && Continues(lines[0], delim) then 1 + RunLength(lines[1..], delim) else 0
  }

  /** It is the longest run of continuing lines there. */
  lemma {:induction false} RunIsLongest(lines: seq<string>, delim: char)
    ensures var n := RunLength(lines, delim);
      && (forall i :: 0 <= i < n ==> Continues(lines[i], delim))
      && (n < |lines| ==> !Continues(lines[n], delim))
  {
    hide Continues;
    if lines != [] { RunIsLongest(lines[1..], delim); }
  }

  function Counts(block: seq<string>, delim: char): (counts: seq<nat>)
    ensures |counts| == |block|
  {
    seq(|block|, i requires 0 <= i < |block| => |Fields(block[i], delim)|)
  }

  predicate AtLeast(counts: seq<nat>, m: nat, c: nat) {
    multiset(counts)[c] < multiset(counts)[m] || (multiset(counts)[c] == multiset(counts)[m] && c <= m)
  }

  /** The best among the first `k` counts. */
  function Best(counts: seq<nat>, k: nat): (m: nat)
    requires k <= |counts|
    ensures k == 0 ==> m == 0
    ensures k > 0 ==> m in counts
    ensures forall i :: 0 <= i < k ==> AtLeast(counts, m, counts[i])
  {
    if k == 0 then 0
    else
      var m := Best(counts, k - 1);
      if k > 1 && AtLeast(counts, m, counts[k - 1]) then m else counts[k - 1]
  }

  function TheModal(counts: seq<nat>): (m: nat)
    ensures IsModal(counts, m)
  {
    var m := Best(counts, |counts|);
    assert forall c :: c in counts ==> AtLeast(counts, m, c);
    m
  }

  /** A run is converted when it has two lines, enough columns, and at least 60% of its lines agree on them. */
  predicate Converts(block: seq<string>, delim: char) {
    var counts := Counts(block, delim);
    && |block| >= 2 && TheModal(counts) >= MinCols(delim)
    && 5 * multiset(counts)[TheModal(counts)] >= 3 * |block|
  }

  // ---- the plan: what becomes of each line ----

  datatype Piece = Verbatim(line: string) | Table(block: seq<string>, delim: char, cols: nat)

  /** The source lines a piece stands for. */
  function Source(piece: Piece): seq<string> {
    match piece
    case Verbatim(line) => [line]
    case Table(block, _, _) => block
  }

  /** What the scan makes of the line it is at. */
  function First(lines: seq<string>): (p: Piece)
    requires lines != []
    ensures Source(p) != [] && Source(p) <= lines
  {
    match PickDelim(lines[0])
    case None => Verbatim(lines[0])
    case Some(delim) =>
      var block := lines[..RunLength(lines, delim)];
      if Converts(block, delim) then Table(block, delim, TheModal(Counts(block, delim))) else Verbatim(lines[0])
  }

  function Plan(lines: seq<string>): (plan: seq<Piece>)
    ensures forall p :: p in plan ==> Source(p) != []
    decreases |lines|
  {
    if lines == [] then [] else [First(lines)] + Plan(lines[|Source(First(lines))|..])
  }

  function Rows(block: seq<string>, delim: char): (rows: seq<seq<string>>)
    ensures |rows| == |block|
  {
    seq(|block|, i requires 0 <= i < |block| => Fields(block[i], delim))
  }

  /** A table is set off by blank lines; `last` is the line printed before it, if any. */
  function Printed(piece: Piece, before: seq<string>): (lines: seq<string>)
    requires Source(piece) != []
    ensures lines != []
  {
    match piece
    case Verbatim(line) => [line]
    case Table(block, delim, cols) =>
      (if before != [] && Trim(before[|before| - 1]) != "" then [""] else []) + TableLines(Rows(block, delim), cols) + [""]
  }

  function PrintAll(plan: seq<Piece>, before: seq<string>): seq<string>
    requires forall p :: p in plan ==> Source(p) != []
    decreases |plan|
  {
    if plan == [] then before else PrintAll(plan[1..], before + Printed(plan[0], before))
  }

  function Sources(plan: seq<Piece>): seq<string> {
    if plan == [] then [] else Source(plan[0]) + Sources(plan[1..])
  }

  /** A table piece covers a genuine run: see the source's own conditions. */
  ghost predicate Genuine(p: Piece) {
    p.Table? ==>
      && Converts(p.block, p.delim) && IsModal(Counts(p.block, p.delim), p.cols) && p.cols >= MinCols(p.delim)
      && PickDelim(p.block[0]) == Some(p.delim)
      && forall line :: line in p.block ==> Continues(line, p.delim)
  }

  lemma FirstIsGenuine(lines: seq<string>)
    requires lines != []
    ensures Genuine(First(lines))
  {
    hide PickDelim, Continues, TheModal;
    var delim := PickDelim(lines[0]);
    if delim.Some? { RunIsLongest(lines, delim.value); }
  }

  /** The plan partitions the lines, in order, into single lines and genuine runs. */
  lemma {:induction false} PlanPartitions(lines: seq<string>)
    ensures Sources(Plan(lines)) == lines
    ensures forall p :: p in Plan(lines) ==> Genuine(p)
    decreases |lines|
  {
    hide First, Genuine;
    if lines != [] {
      FirstIsGenuine(lines);
      PlanPartitions(lines[|Source(First(lines))|..]);
      assert lines == Source(First(lines)) + lines[|Source(First(lines))|..];
    }
  }

  // ---- the whole message ----

  function Lines(text: string): seq<string> {
    Split(text, '\n')
  }

  function Formatted(text: string): string {
    Join(PrintAll(Plan(Lines(text)), []), "\n")
  }

  lemma PlanStep(lines: seq<string>, before: seq<string>)
    requires lines != []
    ensures PrintAll(Plan(lines), before) ==
      PrintAll(Plan(lines[|Source(First(lines))|..]), before + Printed(First(lines), before))
  {
    hide First, Printed;
    var p := First(lines);
    assert Plan(lines) == [p] + Plan(lines[|Source(p)|..]);
    assert Plan(lines)[1..] == Plan(lines[|Source(p)|..]);
  }

  lemma PlanOfNothing(before: seq<string>)
    ensures PrintAll(Plan([]), before) == before
  {
  }

  lemma {:induction false} PlainPlan(lines: seq<string>, before: seq<string>)
    requires forall line :: line in lines ==> PickDelim(line).None?
    ensures PrintAll(Plan(lines), before) == before + lines
    decreases |lines|
  {
    hide PickDelim, Plan, PrintAll;
    if lines == [] {
      PlanOfNothing(before);
    } else {
      assert lines[0] in lines;
      PlanStep(lines, before);
      assert First(lines) == Verbatim(lines[0]);
      PlainPlan(lines[1..], before + [lines[0]]);
      assert before + lines == before + [lines[0]] + lines[1..];
    }
  }

  lemma {:induction false} SplitKeepsAbsence(t: string, sep: char, c: char)
    requires c !in t
    ensures forall p :: p in Split(t, sep) ==> c !in p
  {
    if t != [] { SplitKeepsAbsence(t[1..], sep, c); }
  }

  lemma NothingTabular(text: string)
    requires ',' !in text && '\t' !in text
    ensures Formatted(text) == text
  {
    SplitKeepsAbsence(text, '\n', ',');
    SplitKeepsAbsence(text, '\n', '\t');
    PlainPlan(Lines(text), []);
    assert [] + Lines(text) == Lines(text);
    JoinSplit(text, '\n');
  }

  method GatherBlock(lines: seq<string>, i: nat, delim: char) returns (block: seq<string>)
    requires i <= |lines|
    ensures block == lines[i..][..RunLength(lines[i..], delim)]
  {
    hide Fields, Trim, LooksLikeMarkdownTable;
    block := [];
    var j := i;
    while j < |lines|
      invariant i <= j <= |lines| && block == lines[i..j]
      invariant RunLength(lines[i..], delim) == j - i + RunLength(lines[j..], delim)
    {
      if Trim(lines[j]) == "" || LooksLikeMarkdownTable(lines[j]) { break; }
      var fields := SplitFields(lines[j], delim);
      if |fields| < 2 { break; }
      assert lines[j..][1..] == lines[j + 1..];
      block := block + [lines[j]];
      j := j + 1;
    }
  }

  method AllRows(block: seq<string>, delim: char) returns (rows: seq<seq<string>>)
    ensures rows == Rows(block, delim)
  {
    rows := [];
    for i := 0 to |block|
      invariant rows == Rows(block, delim)[..i]
    {
      var fields := SplitFields(block[i], delim);
      rows := rows + [fields];
    }
  }

  /** What the scan makes of line `i`: a table for the run that starts there, or the line itself. */
  method Decide(lines: seq<string>, i: nat) returns (piece: Piece)
    requires i < |lines|
    ensures piece == First(lines[i..])
  {
    var delim := PickDelim(lines[i]);
    if delim.None? { return Verbatim(lines[i]); }
    var block := GatherBlock(lines, i, delim.value);
    var rows := AllRows(block, delim.value);
    var counts: seq<nat> := seq(|rows|, k requires 0 <= k < |rows| => |rows[k]|);
    assert counts == Counts(block, delim.value);
    var cols := Modal(counts);
    ModalIsUnique(counts, cols, TheModal(counts));
    hide PickDelim, RunLength, TheModal, IsModal;
    if |block| >= 2 && cols >= MinCols(delim.value) && 5 * multiset(counts)[cols] >= 3 * |block| {
      piece := Table(block, delim.value, cols);
    } else {
      piece := Verbatim(lines[i]);
    }
  }

  /** Appends what a piece prints; a whole table is one element of `out`. */
  method Append(out: seq<string>, piece: Piece, ghost printed: seq<string>) returns (more: seq<string>)
    requires Source(piece) != [] && SameText(out, printed) && SameEnd(out, printed)
    ensures SameText(more, printed + Printed(piece, printed)) && SameEnd(more, printed + Printed(piece, printed))
  {
    hide TableLines, SameText, Trim;
    if piece.Verbatim? {
      SameTextMore(out, printed, piece.line, [piece.line]);
      return out + [piece.line];
    }
    var rows := AllRows(piece.block, piece.delim);
    BothOrNone(out, printed);
    var blank := out != [] && Trim(out[|out| - 1]) != "";
    more := if blank then out + [""] else out;
    var table := ToMarkdownTable(rows, piece.cols);
    more := more + [table];
    more := more + [""];
    TableHasLines(rows, piece.cols);
    TablePrints(out, printed, blank, table, TableLines(rows, piece.cols));
  }

  lemma BothOrNone(out: seq<string>, printed: seq<string>)
    requires SameText(out, printed)
    ensures out == [] <==> printed == []
  {
  }

  lemma TableHasLines(rows: seq<seq<string>>, cols: nat)
    requires rows != []
    ensures TableLines(rows, cols) != []
  {
  }

  method FormatTabularText(text: string) returns (result: string)
    ensures result == Formatted(text)
  {
    hide First, Plan, PrintAll, Printed, SameText, SameEnd;
    if text == "" || (',' !in text && '\t' !in text) {
      NothingTabular(text);
      return text;
    }
    var lines := Split(text, '\n');
    var out: seq<string> := [];
    ghost var printed: seq<string> := [];
    var i := 0;
    NothingIsSame();
    while i < |lines|
      invariant 0 <= i <= |lines|
      invariant PrintAll(Plan(lines[i..]), printed) == PrintAll(Plan(lines), [])
      invariant SameText(out, printed) && SameEnd(out, printed)
    {
      var piece := Decide(lines, i);
      PlanStep(lines[i..], printed);
      var n := |Source(piece)|;
      assert lines[i..][n..] == lines[i + n..];
      out := Append(out, piece, printed);
      printed := printed + Printed(piece, printed);
      i := i + n;
    }
    assert lines[i..] == [];
    PlanOfNothing(printed);
    SameTextJoins(out, printed);
    result := Join(out, "\n");
  }

  lemma NothingIsSame()
    ensures SameText([], []) && SameEnd([], [])
  {
  }

  lemma SameTextJoins(out: seq<string>, printed: seq<string>)
    requires SameText(out, printed)
    ensures Join(out, "\n") == Join(printed, "\n")
  {
  }

  ghost predicate SameEnd(out: seq<string>, printed: seq<string>) {
    out != [] && printed != [] ==> out[|out| - 1] == printed[|printed| - 1]
  }

  lemma TablePrints(out: seq<string>, printed: seq<string>, blank: bool, table: string, lines: seq<string>)
    requires SameText(out, printed) && lines != [] && table == Join(lines, "\n")
    ensures SameText((if blank then out + [""] else out) + [table] + [""],
                     printed + ((if blank then [""] else []) + lines + [""]))
  {
    hide SameText;
    var o1, p1 := if blank then out + [""] else out, if blank then printed + [""] else printed;
    if blank { SameTextMore(out, printed, "", [""]); }
    SameTextMore(o1, p1, table, lines);
    SameTextMore(o1 + [table], p1 + lines, "", [""]);
    assert p1 + lines + [""] == printed + ((if blank then [""] else []) + lines + [""]);
  }

  /** The list the scan has built prints the same text, and ends alike. */
  ghost predicate SameText(out: seq<string>, printed: seq<string>) {
    && Join(out, "\n") == Join(printed, "\n")
    && (out == [] <==> printed == [])
  }

  lemma SameTextMore(out: seq<string>, printed: seq<string>, s: string, more: seq<string>)
    requires SameText(out, printed) && more != [] && s == Join(more, "\n")
    ensures SameText(out + [s], printed + more)
  {
    if out != [] {
      JoinConcat(out, [s], "\n");
      JoinConcat(printed, more, "\n");
    } else {
      assert out + [s] == [s] && printed + more == more;
    }
  }
}
