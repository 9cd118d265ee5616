/** Printing rows of fields as a GFM table. */
module MarkdownTable {
  import opened Text
  import opened Decimals

  // ---- cells ----

  function EscapeText(t: string): string {
    if t == [] then []
    else (if t[0] == '|' then ['\\', '|'] else if t[0] == '\n' then [' '] else [t[0]]) + EscapeText(t[1..])
  }

  function EscapeCell(s: string): string {
    EscapeText(Trim(s))
  }

  /** How a table reader takes the escapes out again. */
  function Unescape(s: string): string
    decreases |s|
  {
    if s == [] then []
    else if |s| > 1 && s[0] == '\\' && s[1] == '|' then ['|'] + Unescape(s[2..])
    else [s[0]] + Unescape(s[1..])
  }

  /** The text with a space for every line break. */
  function Flat(t: string): string {
    seq(|t|, i requires 0 <= i < |t| => if t[i] == '\n' then ' ' else t[i])
  }

  lemma {:induction false} UnescapeEscaped(t: string)
    ensures Unescape(EscapeText(t)) == Flat(t)
    ensures EscapeText(t) != [] ==> EscapeText(t)[0] != '|'
    ensures '\n' !in t ==> Flat(t) == t
  {
    if t != [] {
      UnescapeEscaped(t[1..]);
      var rest := EscapeText(t[1..]);
      var first := if t[0] == '\n' then ' ' else t[0];
      assert Flat(t) == [first] + Flat(t[1..]);
      if t[0] == '|' {
        assert (['\\', '|'] + rest)[2..] == rest;
      } else {
        assert ([first] + rest)[1..] == rest;
      }
    }
  }

  lemma {:induction false} EscapeStaysTrimmed(t: string)
    requires Trimmed(t) && '\n' !in t
    ensures Trimmed(EscapeText(t))
  {
    if t != [] {
      EscapeLast(t);
    }
  }

  lemma {:induction false} EscapeLast(t: string)
    requires t != [] && '\n' !in t
    ensures EscapeText(t) != [] && EscapeText(t)[|EscapeText(t)| - 1] == t[|t| - 1]
  {
    if |t| > 1 { EscapeLast(t[1..]); }
  }

  // ---- rows ----

  /** The fields of one row, cut or padded to `cols` cells. */
  function NormCells(r: seq<string>, cols: nat): seq<string> {
    seq(cols, i requires 0 <= i < cols => if i < |r| then EscapeCell(r[i]) else [])
  }

  function Row(cells: seq<string>): string {
    "| " + Join(cells, " | ") + " |"
  }

  method NormRow(r: seq<string>, cols: nat) returns (line: string)
    ensures line == Row(NormCells(r, cols))
  {
    hide EscapeCell, Row;
    var c: seq<string> := [];
    for i := 0 to if |r| < cols then |r| else cols
      invariant c == NormCells(r, cols)[..i]
    {
      c := c + [EscapeCell(r[i])];
    }
    while |c| < cols
      invariant |c| <= cols && c == NormCells(r, cols)[..|c|]
      invariant |c| >= |r| || |c| == cols
    {
      c := c + [[]];
    }
    assert c == NormCells(r, cols);
    line := Row(c);
  }

  /** Cuts a line at its pipes, except those after a backslash. */
  function CutAtPipes(s: string, prev: char, cur: string): (parts: seq<string>)
    ensures parts != []
    decreases |s|
  {
    if s == [] then [cur]
    else if s[0] == '|' && prev != '\\' then [cur] + CutAtPipes(s[1..], '|', [])
    else CutAtPipes(s[1..], s[0], cur + [s[0]])
  }

  /** How a table reader gets the cells of a row. */
  function ReadRow(line: string): seq<string> {
    var parts := CutAtPipes(line, ' ', []);
    if |parts| < 2 then [] else seq(|parts| - 2, i requires 0 <= i < |parts| - 2 => Unescape(Trim(parts[i + 1])))
  }

  lemma {:induction false} CutEscaped(t: string, rest: string, prev: char, cur: string)
    requires '\n' !in t && rest != [] && rest[0] == ' '
    ensures CutAtPipes(EscapeText(t) + rest, prev, cur) == CutAtPipes(rest[1..], ' ', cur + EscapeText(t) + [' '])
    decreases |t|
  {
    var s := EscapeText(t) + rest;
    if t == [] {
      assert s == rest && cur + EscapeText(t) == cur;
    } else if t[0] == '|' {
      var tail := EscapeText(t[1..]);
      assert s == ['\\', '|'] + (tail + rest);
      assert s[1..] == ['|'] + (tail + rest) && s[1..][1..] == tail + rest;
      CutEscaped(t[1..], rest, '|', cur + ['\\'] + ['|']);
      assert cur + ['\\'] + ['|'] + tail == cur + EscapeText(t);
    } else {
      var tail := EscapeText(t[1..]);
      assert s == [t[0]] + (tail + rest) && s[1..] == tail + rest;
      CutEscaped(t[1..], rest, t[0], cur + [t[0]]);
      assert cur + [t[0]] + tail == cur + EscapeText(t);
    }
  }

  function RowTail(cells: seq<string>): string {
    if cells == [] then [] else " " + cells[0] + " |" + RowTail(cells[1..])
  }

  lemma RowIsTail(cells: seq<string>)
    requires cells != []
    ensures Row(cells) == "|" + RowTail(cells)
  {
    hide Join, RowTail;
    JoinIsTail(cells);
    var joined := Join(cells, " | ");
    assert "| " + joined + " |" == "|" + (" " + joined + " |");
  }

  lemma {:induction false} JoinIsTail(cells: seq<string>)
    requires cells != []
    ensures " " + Join(cells, " | ") + " |" == RowTail(cells)
  {
    if |cells| == 1 {
      assert RowTail(cells[1..]) == [];
      assert " " + cells[0] + " |" + [] == " " + cells[0] + " |";
    } else {
      JoinIsTail(cells[1..]);
      CellThenTail(cells[0], Join(cells[1..], " | "));
    }
  }

  lemma CellThenTail(cell: string, joined: string)
    ensures " " + (cell + " | " + joined) + " |" == " " + cell + " |" + (" " + joined + " |")
  {
  }

  /** What a cell looks like between its pipes. */
  function Padded(c: string): string { " " + c + " " }

  lemma CutFirst(t: string, tail: string)
    requires '\n' !in t
    ensures CutAtPipes(" " + EscapeText(t) + " |" + tail, '|', []) == [Padded(EscapeText(t))] + CutAtPipes(tail, '|', [])
  {
    hide EscapeText;
    var e := EscapeText(t);
    var s := " " + e + " |" + tail;
    assert s[1..] == e + (" |" + tail);
    CutEscaped(t, " |" + tail, ' ', " ");
    assert (" |" + tail)[1..] == "|" + tail;
    assert [] + [' '] == " " && " " + e + [' '] == Padded(e);
    assert ("|" + tail)[1..] == tail;
  }

  function PaddedAll(texts: seq<string>): seq<string> {
    if texts == [] then [] else [Padded(EscapeText(texts[0]))] + PaddedAll(texts[1..])
  }

  lemma {:induction false} CutTail(texts: seq<string>)
    requires forall t :: t in texts ==> '\n' !in t
    ensures CutAtPipes(RowTail(Escaped(texts)), '|', []) == PaddedAll(texts) + [[]]
  {
    if texts != [] {
      CutTail(texts[1..]);
      hide EscapeText, CutAtPipes, Padded;
      assert Escaped(texts)[1..] == Escaped(texts[1..]);
      CutFirst(texts[0], RowTail(Escaped(texts[1..])));
    }
  }

  lemma {:induction false} PaddedAt(texts: seq<string>, i: nat)
    requires i < |texts|
    ensures |PaddedAll(texts)| == |texts| && PaddedAll(texts)[i] == Padded(EscapeText(texts[i]))
  {
    if |texts| > 1 { PaddedAt(texts[1..], if i == 0 then 0 else i - 1); }
  }

  function Escaped(texts: seq<string>): seq<string> {
    seq(|texts|, i requires 0 <= i < |texts| => EscapeText(texts[i]))
  }

  /** A printed row of newline-free, trimmed texts reads back as those texts: one cell each, pipes and all. */
  lemma RowReads(texts: seq<string>)
    requires texts != [] && forall t :: t in texts ==> '\n' !in t && Trimmed(t)
    ensures ReadRow(Row(Escaped(texts))) == texts
  {
    hide CutAtPipes, EscapeText, Row, Trim, Unescape, Trimmed, PaddedAll, Escaped;
    CutRow(texts);
    CellsRead(texts);
    ReadCells(Row(Escaped(texts)), PaddedAll(texts));
  }

  /** A line that is cut into an empty part, the cells and an empty part reads as the cells, trimmed and unescaped. */
  lemma ReadCells(line: string, cells: seq<string>)
    requires CutAtPipes(line, ' ', []) == [[]] + cells + [[]]
    ensures |ReadRow(line)| == |cells| && forall i :: 0 <= i < |cells| ==> ReadRow(line)[i] == Unescape(Trim(cells[i]))
  {
    hide *;
    ReadRowLength(line);
    forall i | 0 <= i < |cells| ensures ReadRow(line)[i] == Unescape(Trim(cells[i])) {
      ReadRowAt(line, i);
      InnerAt(cells, i);
    }
  }

  lemma ReadRowLength(line: string)
    requires |CutAtPipes(line, ' ', [])| >= 2
    ensures |ReadRow(line)| == |CutAtPipes(line, ' ', [])| - 2
  {
    hide CutAtPipes, Trim, Unescape;
  }

  lemma ReadRowAt(line: string, i: nat)
    requires i + 2 < |CutAtPipes(line, ' ', [])|
    ensures i < |ReadRow(line)| && ReadRow(line)[i] == Unescape(Trim(CutAtPipes(line, ' ', [])[i + 1]))
  {
    hide CutAtPipes, Trim, Unescape;
  }

  lemma InnerAt(cells: seq<string>, i: nat)
    requires i < |cells|
    ensures ([[]] + cells + [[]])[i + 1] == cells[i]
  {
  }

  lemma CutRow(texts: seq<string>)
    requires texts != [] && forall t :: t in texts ==> '\n' !in t
    ensures CutAtPipes(Row(Escaped(texts)), ' ', []) == [[]] + PaddedAll(texts) + [[]]
  {
    hide EscapeText, Row, RowTail, PaddedAll;
    var line := Row(Escaped(texts));
    RowIsTail(Escaped(texts));
    assert line[1..] == RowTail(Escaped(texts));
    CutTail(texts);
    assert [[]] + (PaddedAll(texts) + [[]]) == [[]] + PaddedAll(texts) + [[]];
  }

  lemma CellsRead(texts: seq<string>)
    requires forall t :: t in texts ==> '\n' !in t && Trimmed(t)
    ensures |PaddedAll(texts)| == |texts|
    ensures forall i :: 0 <= i < |texts| ==> Unescape(Trim(PaddedAll(texts)[i])) == texts[i]
  {
    hide EscapeText, Trim, Unescape, Trimmed;
    if texts != [] { PaddedAt(texts, 0); }
    forall i | 0 <= i < |texts| ensures Unescape(Trim(PaddedAll(texts)[i])) == texts[i] {
      assert texts[i] in texts;
      PaddedAt(texts, i);
      EscapeStaysTrimmed(texts[i]);
      SpaceIsSpace();
      TrimPadded(" ", EscapeText(texts[i]), " ");
      UnescapeEscaped(texts[i]);
    }
  }

  lemma SpaceIsSpace()
    ensures forall c :: c in " " ==> IsSpace(c)
  {
  }

  /** The trimmed fields of a row, cut or padded to `cols`. */
  function Fitted(r: seq<string>, cols: nat): seq<string> {
    seq(cols, i requires 0 <= i < cols => if i < |r| then Trim(r[i]) else [])
  }

  lemma NormReads(r: seq<string>, cols: nat)
    requires cols > 0 && forall f :: f in r ==> '\n' !in f
    ensures ReadRow(Row(NormCells(r, cols))) == Fitted(r, cols)
  {
    assert NormCells(r, cols) == Escaped(Fitted(r, cols));
    RowReads(Fitted(r, cols));
  }

  // ---- header detection ----

  predicate IsDigit(c: char) { '0' <= c <= '9' }

  predicate AllDigits(s: string) {
    s != [] && forall c :: c in s ==> IsDigit(c)
  }

  /** An optional minus, digits and commas, an optional fraction, an optional percent sign. */
  predicate NumberShaped(t: string) {
    exists a, b, c | 0 <= a < b <= c <= |t| :: NumberAt(t, a, b, c)
  }

  predicate NumberAt(t: string, a: nat, b: nat, c: nat)
    requires a < b <= c <= |t|
  {
    && (t[..a] == "" || t[..a] == "-")
    && (forall ch :: ch in t[a..b] ==> IsDigit(ch) || ch == ',')
    && (b == c || (t[b] == '.' && AllDigits(t[b + 1..c])))
    && (t[c..] == "" || t[c..] == "%")
  }

  /** Up to four digits, a separator, up to two digits, a separator, up to four digits. */
  predicate DateShaped(t: string) {
    exists a, b | 0 <= a < b < |t| :: DateAt(t, a, b)
  }

  predicate DateAt(t: string, a: nat, b: nat)
    requires a < b < |t|
  {
    && a <= 4 && AllDigits(t[..a]) && t[a] in "/.-"
    && b - a - 1 <= 2 && AllDigits(t[a + 1..b]) && t[b] in "/.-"
    && |t| - b - 1 <= 4 && AllDigits(t[b + 1..])
  }

  predicate IsDataCell(s: string) {
    var t := Trim(s);
    NumberShaped(t) || DateShaped(t)
  }

  predicate LooksLikeHeaderRow(cells: seq<string>) {
    forall c :: c in cells ==> !IsDataCell(c)
  }

  /** `^-?[\d,]+(\.\d+)?%?$` */
  ghost predicate IsNumber(t: string, sign: string, digits: string, fraction: string, percent: string) {
    && t == sign + digits + fraction + percent
    && sign in ["", "-"] && percent in ["", "%"]
    && digits != [] && (forall c :: c in digits ==> IsDigit(c) || c == ',')
    && (fraction == "" || (fraction[0] == '.' && AllDigits(fraction[1..])))
  }

  /** `^\d{1,4}[/.\-]\d{1,2}[/.\-]\d{1,4}$` */
  ghost predicate IsDate(t: string, x: string, first: char, y: string, second: char, z: string) {
    && t == x + [first] + y + [second] + z && first in "/.-" && second in "/.-"
    && AllDigits(x) && AllDigits(y) && AllDigits(z) && |x| <= 4 && |y| <= 2 && |z| <= 4
  }

  ghost predicate MatchesNumber(t: string) {
    exists sign, digits, fraction, percent :: IsNumber(t, sign, digits, fraction, percent)
  }

  ghost predicate MatchesDate(t: string) {
    exists x, first, y, second, z :: IsDate(t, x, first, y, second, z)
  }

  lemma NumberParts(t: string, a: nat, b: nat, c: nat)
    requires a < b <= c <= |t|
    ensures t == t[..a] + t[a..b] + t[b..c] + t[c..]
  {
  }

  lemma PartsAre(x: string, y: string, z: string, w: string)
    ensures var t, a, b, c := x + y + z + w, |x|, |x| + |y|, |x| + |y| + |z|;
      && t[..a] == x && t[a..b] == y && t[b..c] == z && t[c..] == w
      && (z != "" ==> t[b] == z[0] && t[b + 1..c] == z[1..])
  {
  }

  lemma NumberIs(t: string, sign: string, digits: string, fraction: string, percent: string)
    requires IsNumber(t, sign, digits, fraction, percent)
    ensures NumberShaped(t)
  {
    hide AllDigits;
    PartsAre(sign, digits, fraction, percent);
    assert NumberAt(t, |sign|, |sign| + |digits|, |sign| + |digits| + |fraction|);
  }

  lemma NumberGives(t: string, a: nat, b: nat, c: nat)
    requires a < b <= c <= |t| && NumberAt(t, a, b, c)
    ensures IsNumber(t, t[..a], t[a..b], t[b..c], t[c..])
  {
    hide AllDigits;
    NumberParts(t, a, b, c);
    if b < c { assert t[b..c][1..] == t[b + 1..c]; }
  }

  lemma NumberExactly(t: string)
    ensures NumberShaped(t) <==> MatchesNumber(t)
  {
    hide NumberAt, IsNumber;
    if NumberShaped(t) {
      var a, b, c :| 0 <= a < b <= c <= |t| && NumberAt(t, a, b, c);
      NumberGives(t, a, b, c);
    }
    if MatchesNumber(t) {
      var sign, digits, fraction, percent :| IsNumber(t, sign, digits, fraction, percent);
      NumberIs(t, sign, digits, fraction, percent);
    }
  }

  lemma DateGives(t: string, a: nat, b: nat)
    requires a < b < |t| && DateAt(t, a, b)
    ensures IsDate(t, t[..a], t[a], t[a + 1..b], t[b], t[b + 1..])
  {
    hide AllDigits;
    assert t == t[..a] + [t[a]] + t[a + 1..b] + [t[b]] + t[b + 1..];
  }

  lemma DateIs(t: string, x: string, first: char, y: string, second: char, z: string)
    requires IsDate(t, x, first, y, second, z)
    ensures DateShaped(t)
  {
    hide AllDigits;
    var a := |x|;
    var b := a + 1 + |y|;
    assert t[..a] == x && t[a] == first;
    assert t[a + 1..b] == y && t[b] == second && t[b + 1..] == z;
    assert DateAt(t, a, b);
  }

  lemma DateExactly(t: string)
    ensures DateShaped(t) <==> MatchesDate(t)
  {
    hide DateAt, IsDate;
    if DateShaped(t) {
      var a, b :| 0 <= a < b < |t| && DateAt(t, a, b);
      DateGives(t, a, b);
    }
    if MatchesDate(t) {
      var x, first, y, second, z :| IsDate(t, x, first, y, second, z);
      DateIs(t, x, first, y, second, z);
    }
  }

  /** A row is taken for a header exactly when no cell, trimmed, matches one of the two patterns for data. */
  lemma HeaderExactly(cells: seq<string>)
    ensures LooksLikeHeaderRow(cells) <==> forall c :: c in cells ==> !MatchesNumber(Trim(c)) && !MatchesDate(Trim(c))
  {
    hide NumberShaped, DateShaped, MatchesNumber, MatchesDate, Trim;
    forall c | c in cells ensures IsDataCell(c) <==> MatchesNumber(Trim(c)) || MatchesDate(Trim(c)) {
      NumberExactly(Trim(c));
      DateExactly(Trim(c));
    }
  }

  // ---- tables ----

  function ColumnNames(cols: nat): seq<string> {
    seq(cols, i requires 0 <= i < cols => "Column " + Decimal(i + 1))
  }

  function Dashes(cols: nat): seq<string> {
    seq(cols, i requires 0 <= i < cols => "---")
  }

  function Body(rows: seq<seq<string>>): seq<seq<string>>
    requires rows != []
  {
    if LooksLikeHeaderRow(rows[0]) then rows[1..] else rows
  }

  function HeaderCells(rows: seq<seq<string>>, cols: nat): seq<string>
    requires rows != []
  {
    if LooksLikeHeaderRow(rows[0]) then NormCells(rows[0], cols) else ColumnNames(cols)
  }

  function BodyLines(body: seq<seq<string>>, cols: nat): (lines: seq<string>)
    ensures |lines| == |body|
  {
    seq(|body|, i requires 0 <= i < |body| => Row(NormCells(body[i], cols)))
  }

  function TableLines(rows: seq<seq<string>>, cols: nat): seq<string>
    requires rows != []
  {
    [Row(HeaderCells(rows, cols)), Row(Dashes(cols))] + BodyLines(Body(rows), cols)
  }

  method ToMarkdownTable(rows: seq<seq<string>>, cols: nat) returns (table: string)
    requires rows != []
    ensures table == Join(TableLines(rows, cols), "\n")
  {
    hide Row, NormCells, LooksLikeHeaderRow, ColumnNames, Dashes;
    var header := Row(ColumnNames(cols));
    var body := rows;
    if LooksLikeHeaderRow(rows[0]) {
      header := NormRow(rows[0], cols);
      body := rows[1..];
    }
    var lines: seq<string> := [];
    for i := 0 to |body|
      invariant lines == BodyLines(body, cols)[..i]
    {
      var line := NormRow(body[i], cols);
      lines := lines + [line];
    }
    assert lines == BodyLines(body, cols);
    table := Join([header, Row(Dashes(cols))] + lines, "\n");
  }

  // ---- what a table reader finds ----

  lemma {:induction false} EscapePlain(t: string)
    requires '|' !in t && '\n' !in t
    ensures EscapeText(t) == t
  {
    if t != [] { EscapePlain(t[1..]); assert [t[0]] + t[1..] == t; }
  }

  lemma PlainReads(texts: seq<string>)
    requires texts != [] && forall t :: t in texts ==> '|' !in t && '\n' !in t && Trimmed(t)
    ensures ReadRow(Row(texts)) == texts
  {
    forall i | 0 <= i < |texts| ensures EscapeText(texts[i]) == texts[i] {
      assert texts[i] in texts;
      EscapePlain(texts[i]);
    }
    assert Escaped(texts) == texts;
    RowReads(texts);
  }

  lemma ColumnNameIsPlain(k: nat)
    ensures var t := "Column " + Decimal(k); '|' !in t && '\n' !in t && Trimmed(t)
  {
    var t := "Column " + Decimal(k);
    assert t[0] == 'C' && '0' <= t[|t| - 1] <= '9';
  }

  /** The pipes that are not preceded by a backslash. */
  function LivePipes(s: string, prev: char): nat {
    if s == [] then 0 else (if s[0] == '|' && prev != '\\' then 1 else 0) + LivePipes(s[1..], s[0])
  }

  lemma {:induction false} CutCounts(s: string, prev: char, cur: string)
    ensures |CutAtPipes(s, prev, cur)| == 1 + LivePipes(s, prev)
    decreases |s|
  {
    if s != [] {
      if s[0] == '|' && prev != '\\' { CutCounts(s[1..], '|', []); } else { CutCounts(s[1..], s[0], cur + [s[0]]); }
    }
  }

  lemma ReadCounts(line: string, cells: seq<string>)
    requires ReadRow(line) == cells && cells != []
    ensures LivePipes(line, ' ') == |cells| + 1
  {
    CutCounts(line, ' ', []);
  }

  ghost predicate ReadsAs(line: string, cells: seq<string>) {
    ReadRow(line) == cells && LivePipes(line, ' ') == |cells| + 1
  }

  lemma NormReadsAs(r: seq<string>, cols: nat)
    requires cols > 0 && forall f :: f in r ==> '\n' !in f
    ensures ReadsAs(Row(NormCells(r, cols)), Fitted(r, cols))
  {
    hide ReadRow, Row, LivePipes, NormCells;
    NormReads(r, cols);
    ReadCounts(Row(NormCells(r, cols)), Fitted(r, cols));
  }

  lemma PlainReadsAs(cells: seq<string>)
    requires cells != []
    requires forall i :: 0 <= i < |cells| ==> '|' !in cells[i] && '\n' !in cells[i] && Trimmed(cells[i])
    ensures ReadsAs(Row(cells), cells)
  {
    hide ReadRow, Row, LivePipes, Trimmed;
    PlainReads(cells);
    ReadCounts(Row(cells), cells);
  }

  lemma NamesReadAs(cols: nat)
    requires cols > 0
    ensures ReadsAs(Row(ColumnNames(cols)), ColumnNames(cols)) && ReadsAs(Row(Dashes(cols)), Dashes(cols))
  {
    hide ReadsAs, Row, Trimmed;
    forall i | 0 <= i < cols
      ensures '|' !in ColumnNames(cols)[i] && '\n' !in ColumnNames(cols)[i] && Trimmed(ColumnNames(cols)[i])
    {
      ColumnNameIsPlain(i + 1);
    }
    PlainReadsAs(ColumnNames(cols));
    DashesAreTrimmed();
    PlainReadsAs(Dashes(cols));
  }

  /** Reading a printed table back gives a header, the separator and one row per remaining source row, each of
      exactly `cols` cells with the trimmed source fields in place. */
  lemma TableReads(rows: seq<seq<string>>, cols: nat)
    requires rows != [] && cols > 0
    requires forall r, f :: r in rows && f in r ==> '\n' !in f
    ensures |TableLines(rows, cols)| == 2 + |Body(rows)|
    ensures ReadsAs(TableLines(rows, cols)[0], if LooksLikeHeaderRow(rows[0]) then Fitted(rows[0], cols) else ColumnNames(cols))
    ensures ReadsAs(TableLines(rows, cols)[1], Dashes(cols))
    ensures forall i :: 0 <= i < |Body(rows)| ==> ReadsAs(TableLines(rows, cols)[2 + i], Fitted(Body(rows)[i], cols))
  {
    hide ReadsAs, Row, LooksLikeHeaderRow, NormCells, Fitted, ColumnNames, Dashes;
    assert rows[0] in rows;
    NormReadsAs(rows[0], cols);
    NamesReadAs(cols);
    forall i | 0 <= i < |Body(rows)| ensures ReadsAs(TableLines(rows, cols)[2 + i], Fitted(Body(rows)[i], cols)) {
      assert Body(rows)[i] in rows;
      NormReadsAs(Body(rows)[i], cols);
    }
  }

  lemma DashesAreTrimmed()
    ensures Trimmed("---")
  {
  }

  // ---- lines that are table rows already ----

  predicate IsLineEnd(c: char) {
    c in {'\n', '\r', '\U{2028}', '\U{2029}'}
  }

  /** `^\s*\|.*\|\s*$`: the dot matches no line end. */
  predicate LooksLikeMarkdownTable(line: string) {
    var t := Trim(line);
    |t| >= 2 && t[0] == '|' && t[|t| - 1] == '|' && forall c :: c in t[1..|t| - 1] ==> !IsLineEnd(c)
  }

  lemma MatchGives(line: string, a: string, m: string, b: string)
    requires MatchesRow(line, a, m, b)
    ensures LooksLikeMarkdownTable(line)
  {
    hide IsSpace, IsLineEnd, Trim;
    var core := "|" + m + "|";
    assert line == a + core + b;
    PipeIsNotSpace();
    TrimPadded(a, core, b);
    assert core[1..|core| - 1] == m;
  }

  lemma PipeIsNotSpace()
    ensures !IsSpace('|')
  {
  }

  lemma PipeGlue(a: string, t: string, m: string, b: string)
    requires t == "|" + m + "|"
    ensures a + t + b == a + "|" + m + "|" + b
  {
  }

  lemma LooksGives(line: string)
    requires LooksLikeMarkdownTable(line)
    ensures exists a, m, b :: MatchesRow(line, a, m, b)
  {
    var s, t := TrimStart(line), Trim(line);
    TrimSplits(line);
    hide IsSpace, IsLineEnd, Trim, TrimStart;
    var a, m, b := line[..|line| - |s|], t[1..|t| - 1], s[|t|..];
    assert t == "|" + m + "|";
    PipeGlue(a, t, m, b);
    assert MatchesRow(line, a, m, b);
  }

  /** The test is exactly the pattern: white space, a pipe, anything but line ends, a pipe, white space. */
  lemma LooksLikeExactly(line: string)
    ensures LooksLikeMarkdownTable(line) <==> exists a, m, b :: MatchesRow(line, a, m, b)
  {
    hide LooksLikeMarkdownTable, MatchesRow;
    if LooksLikeMarkdownTable(line) { LooksGives(line); }
    if exists a, m, b :: MatchesRow(line, a, m, b) {
      var a, m, b :| MatchesRow(line, a, m, b);
      MatchGives(line, a, m, b);
    }
  }

  ghost predicate MatchesRow(line: string, a: string, m: string, b: string) {
    && line == a + "|" + m + "|" + b
    && (forall c :: c in a ==> IsSpace(c)) && (forall c :: c in b ==> IsSpace(c))
    && (forall c :: c in m ==> !IsLineEnd(c))
  }

  lemma {:induction false} JoinHasOnly(parts: seq<string>, sep: string)
    requires (forall p, c :: p in parts && c in p ==> !IsLineEnd(c)) && (forall c :: c in sep ==> !IsLineEnd(c))
    ensures forall c :: c in Join(parts, sep) ==> !IsLineEnd(c)
  {
    hide IsLineEnd;
    if |parts| > 1 { JoinHasOnly(parts[1..], sep); }
  }

  /** A printed row is itself recognised as a table row, so a second pass leaves it alone. */
  lemma RowLooksLikeTable(cells: seq<string>)
    requires forall p, c :: p in cells && c in p ==> !IsLineEnd(c)
    ensures LooksLikeMarkdownTable(Row(cells))
  {
    JoinHasOnly(cells, " | ");
    var m := " " + Join(cells, " | ") + " ";
    assert Row(cells) == [] + "|" + m + "|" + [];
    MatchGives(Row(cells), [], m, []);
  }
}
