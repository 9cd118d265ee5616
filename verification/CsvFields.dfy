/** Splitting one pasted CSV or TSV line into fields. */
module CsvFields {
  import opened Text

  /** The rest of the scan, from the state the loop is in: the field read so far and whether quotes are open. */
  function Scan(s: string, delim: char, inQuotes: bool, cur: string): (fields: seq<string>)
    ensures fields != []
    decreases |s|
  {
    if s == [] then [cur]
    else if s[0] == '"' then
      if inQuotes && |s| > 1 && s[1] == '"' then Scan(s[2..], delim, inQuotes, cur + ['"'])
      else Scan(s[1..], delim, !inQuotes, cur)
    else if s[0] == delim && !inQuotes then [cur] + Scan(s[1..], delim, false, [])
    else Scan(s[1..], delim, inQuotes, cur + [s[0]])
  }

  function Fields(line: string, delim: char): (fields: seq<string>)
    ensures fields != []
  {
    if delim == '\t' then Split(line, '\t') else Scan(line, delim, false, [])
  }

  method SplitFields(line: string, delim: char) returns (fields: seq<string>)
    ensures fields == Fields(line, delim)
  {
    if delim == '\t' { return Split(line, '\t'); }
    var out: seq<string> := [];
    var cur: string := [];
    var inQuotes := false;
    var i := 0;
    while i < |line|
      invariant 0 <= i <= |line|
      invariant out + Scan(line[i..], delim, inQuotes, cur) == Scan(line, delim, false, [])
    {
      var ch := line[i];
      if ch == '"' {
        if inQuotes && i + 1 < |line| && line[i + 1] == '"' {
          cur := cur + ['"'];
          i := i + 1;
        } else {
          inQuotes := !inQuotes;
        }
      } else if ch == delim && !inQuotes {
        assert out + ([cur] + Scan(line[i..][1..], delim, false, [])) == out + [cur] + Scan(line[i..][1..], delim, false, []);
        out := out + [cur];
        cur := [];
      } else {
        cur := cur + [ch];
      }
      i := i + 1;
    }
    fields := out + [cur];
  }

  // ---- the writer of RFC 4180, section 2 ----

  function Doubled(f: string): string {
    if f == [] then [] else (if f[0] == '"' then ['"', '"'] else [f[0]]) + Doubled(f[1..])
  }

  /** A field as written: in quotes with inner quotes doubled, or bare. */
  function Written(f: string, quoted: bool): string {
    if quoted then ['"'] + Doubled(f) + ['"'] else f
  }

  /** A bare field has no quote and no delimiter. */
  predicate MayBeBare(f: string, delim: char) {
    '"' !in f && delim !in f
  }

  function WrittenLine(fields: seq<string>, quoted: seq<bool>, delim: char): string
    requires |fields| == |quoted|
  {
    Join(seq(|fields|, i requires 0 <= i < |fields| => Written(fields[i], quoted[i])), [delim])
  }

  lemma {:induction false} ScanBare(f: string, rest: string, delim: char, cur: string)
    requires MayBeBare(f, delim)
    ensures Scan(f + rest, delim, false, cur) == Scan(rest, delim, false, cur + f)
    decreases |f|
  {
    if f == [] {
      assert f + rest == rest && cur + f == cur;
    } else {
      assert (f + rest)[1..] == f[1..] + rest;
      ScanBare(f[1..], rest, delim, cur + [f[0]]);
      assert cur + [f[0]] + f[1..] == cur + f;
    }
  }

  lemma {:induction false} ScanQuoted(f: string, rest: string, delim: char, cur: string)
    requires delim != '"' && (rest == [] || rest[0] == delim)
    ensures Scan(Doubled(f) + ['"'] + rest, delim, true, cur) == Scan(rest, delim, false, cur + f)
    decreases |f|
  {
    var s := Doubled(f) + ['"'] + rest;
    if f == [] {
      assert s == ['"'] + rest && s[1..] == rest && cur + f == cur;
    } else {
      ScanQuoted(f[1..], rest, delim, cur + [f[0]]);
      assert cur + [f[0]] + f[1..] == cur + f;
      if f[0] == '"' {
        assert s[2..] == Doubled(f[1..]) + ['"'] + rest;
      } else {
        assert s[1..] == Doubled(f[1..]) + ['"'] + rest;
      }
    }
  }

  lemma ScanWritten(f: string, quoted: bool, rest: string, delim: char)
    requires delim != '"' && (rest == [] || rest[0] == delim)
    requires !quoted ==> MayBeBare(f, delim)
    ensures Scan(Written(f, quoted) + rest, delim, false, []) == Scan(rest, delim, false, f)
  {
    assert [] + f == f;
    if quoted {
      var s := Written(f, quoted) + rest;
      assert s[1..] == Doubled(f) + ['"'] + rest;
      ScanQuoted(f, rest, delim, []);
    } else {
      ScanBare(f, rest, delim, []);
    }
  }

  lemma ScanWrittenThen(f: string, quoted: bool, tail: string, delim: char)
    requires delim != '"' && (!quoted ==> MayBeBare(f, delim))
    ensures Scan(Written(f, quoted) + ([delim] + tail), delim, false, []) == [f] + Scan(tail, delim, false, [])
  {
    hide Written, MayBeBare;
    var rest := [delim] + tail;
    ScanWritten(f, quoted, rest, delim);
    assert rest[1..] == tail;
  }

  lemma ScanWrittenLast(f: string, quoted: bool, delim: char)
    requires delim != '"' && (!quoted ==> MayBeBare(f, delim))
    ensures Scan(Written(f, quoted), delim, false, []) == [f]
  {
    hide Written, MayBeBare;
    assert Written(f, quoted) + [] == Written(f, quoted);
    ScanWritten(f, quoted, [], delim);
  }

  lemma WrittenLineFirst(fields: seq<string>, quoted: seq<bool>, delim: char)
    requires fields != [] && |fields| == |quoted|
    ensures WrittenLine(fields, quoted, delim) ==
      if |fields| == 1 then Written(fields[0], quoted[0])
      else Written(fields[0], quoted[0]) + ([delim] + WrittenLine(fields[1..], quoted[1..], delim))
  {
    hide Written;
    var parts := seq(|fields|, i requires 0 <= i < |fields| => Written(fields[i], quoted[i]));
    assert parts[1..] == seq(|fields[1..]|, i requires 0 <= i < |fields[1..]| => Written(fields[1..][i], quoted[1..][i]));
  }

  /** Reading inverts writing, whichever fields the writer chose to quote, as long as it quoted those that need it. */
  lemma {:induction false} ReadWritten(fields: seq<string>, quoted: seq<bool>, delim: char)
    requires fields != [] && |fields| == |quoted| && delim != '"' && delim != '\t'
    requires forall i :: 0 <= i < |fields| && !quoted[i] ==> MayBeBare(fields[i], delim)
    ensures Fields(WrittenLine(fields, quoted, delim), delim) == fields
  {
    hide Scan, Written, WrittenLine, MayBeBare;
    WrittenLineFirst(fields, quoted, delim);
    if |fields| == 1 {
      ScanWrittenLast(fields[0], quoted[0], delim);
    } else {
      ReadWritten(fields[1..], quoted[1..], delim);
      ScanWrittenThen(fields[0], quoted[0], WrittenLine(fields[1..], quoted[1..], delim), delim);
      assert [fields[0]] + fields[1..] == fields;
    }
  }

  // ---- the number of fields ----

  function Quotes(s: string): nat {
    if s == [] then 0 else (if s[0] == '"' then 1 else 0) + Quotes(s[1..])
  }

  /** The delimiters outside quotes: those with an even number of quote characters before them. */
  function OutsideDelims(line: string, delim: char): set<int> {
    set i | 0 <= i < |line| && line[i] == delim && Quotes(line[..i]) % 2 == 0
  }

  /** The same positions, scanning with the parity of the quotes so far. */
  function Outside(s: string, delim: char, odd: bool): nat {
    if s == [] then 0
    else if s[0] == '"' then Outside(s[1..], delim, !odd)
    else (if s[0] == delim && !odd then 1 else 0) + Outside(s[1..], delim, odd)
  }

  lemma {:induction false} ScanCounts(s: string, delim: char, inQuotes: bool, cur: string)
    requires delim != '"'
    ensures |Scan(s, delim, inQuotes, cur)| == 1 + Outside(s, delim, inQuotes)
    decreases |s|
  {
    if s == [] {
    } else if s[0] == '"' {
      if inQuotes && |s| > 1 && s[1] == '"' {
        ScanCounts(s[2..], delim, inQuotes, cur + ['"']);
        assert s[1..][1..] == s[2..];
      } else {
        ScanCounts(s[1..], delim, !inQuotes, cur);
      }
    } else if s[0] == delim && !inQuotes {
      ScanCounts(s[1..], delim, false, []);
    } else {
      ScanCounts(s[1..], delim, inQuotes, cur + [s[0]]);
    }
  }

  lemma {:induction false} QuotesSnoc(s: string, c: char)
    ensures Quotes(s + [c]) == Quotes(s) + if c == '"' then 1 else 0
  {
    if s == [] {
      assert s + [c] == [c];
    } else {
      assert (s + [c])[1..] == s[1..] + [c];
      QuotesSnoc(s[1..], c);
    }
  }

  function OutsideFrom(line: string, delim: char, k: int): set<int> {
    set i | i in OutsideDelims(line, delim) && k <= i
  }

  function OddBefore(line: string, k: nat): bool
    requires k <= |line|
  {
    Quotes(line[..k]) % 2 == 1
  }

  lemma OneMorePosition(line: string, delim: char, k: nat)
    requires k < |line| && delim != '"'
    ensures |OutsideFrom(line, delim, k)| ==
      |OutsideFrom(line, delim, k + 1)| + if line[k] == delim && !OddBefore(line, k) then 1 else 0
  {
    var after := OutsideFrom(line, delim, k + 1);
    if k in OutsideDelims(line, delim) {
      assert OutsideFrom(line, delim, k) == {k} + after && k !in after;
    } else {
      assert OutsideFrom(line, delim, k) == after;
    }
  }

  lemma OneMoreChar(line: string, delim: char, k: nat)
    requires k < |line| && delim != '"'
    ensures Outside(line[k..], delim, OddBefore(line, k)) ==
      Outside(line[k + 1..], delim, OddBefore(line, k + 1)) + if line[k] == delim && !OddBefore(line, k) then 1 else 0
  {
    assert line[..k + 1] == line[..k] + [line[k]];
    QuotesSnoc(line[..k], line[k]);
    assert line[k..][1..] == line[k + 1..];
    assert line[k] == '"' ==> OddBefore(line, k + 1) == !OddBefore(line, k);
  }

  /** From position `k` on, the scan counts exactly the outside delimiters at or after `k`. */
  lemma {:induction false} ScanCountsPositions(line: string, delim: char, k: nat)
    requires k <= |line| && delim != '"'
    ensures Outside(line[k..], delim, OddBefore(line, k)) == |OutsideFrom(line, delim, k)|
    decreases |line| - k
  {
    if k == |line| {
      assert OutsideFrom(line, delim, k) == {};
    } else {
      ScanCountsPositions(line, delim, k + 1);
      OneMorePosition(line, delim, k);
      OneMoreChar(line, delim, k);
    }
  }

  /** A line has one field more than it has delimiters outside quotes. */
  lemma FieldCount(line: string, delim: char)
    requires delim != '"' && delim != '\t'
    ensures |Fields(line, delim)| == 1 + |OutsideDelims(line, delim)|
  {
    ScanCounts(line, delim, false, []);
    ScanCountsPositions(line, delim, 0);
    assert line[0..] == line;
    assert OutsideDelims(line, delim) == OutsideFrom(line, delim, 0);
  }

  // ---- the contents of the fields ----

  /** A delimiter outside quotes. */
  predicate Cuts(line: string, delim: char, i: nat)
    requires i < |line|
  {
    line[i] == delim && !OddBefore(line, i)
  }

  /** The characters that belong to a field's value: all but quotes and the delimiters outside them; and of two quotes in a
      row, inside quotes, the first. */
  predicate Belongs(line: string, delim: char, i: nat)
    requires i < |line|
  {
    if line[i] == '"' then OddBefore(line, i) && i + 1 < |line| && line[i + 1] == '"' else !Cuts(line, delim, i)
  }

  /** The characters that belong to values, from `a` up to `b`, in order. */
  function Content(line: string, delim: char, a: nat, b: nat): string
    requires a <= b <= |line|
    decreases b - a
  {
    if a == b then [] else (if Belongs(line, delim, a) then [line[a]] else []) + Content(line, delim, a + 1, b)
  }

  function CutsIn(line: string, delim: char, a: nat, b: nat): nat
    requires a <= b <= |line|
    decreases b - a
  {
    if a == b then 0 else (if Cuts(line, delim, a) then 1 else 0) + CutsIn(line, delim, a + 1, b)
  }

  /** The stretch from `a` to `b` lies between two neighbouring cuts, or the ends of the line. */
  ghost predicate IsStretch(line: string, delim: char, from: nat, a: nat, b: nat) {
    && from <= a <= b <= |line|
    && (a == from || Cuts(line, delim, a - 1)) && (b == |line| || Cuts(line, delim, b))
    && forall i :: a <= i < b ==> !Cuts(line, delim, i)
  }

  /** The fields from position `k` on, told by which characters cut and which belong. */
  function FieldsFrom(line: string, delim: char, k: nat, cur: string): (fields: seq<string>)
    requires k <= |line|
    ensures fields != []
    decreases |line| - k
  {
    if k == |line| then [cur]
    else if Cuts(line, delim, k) then [cur] + FieldsFrom(line, delim, k + 1, [])
    else FieldsFrom(line, delim, k + 1, cur + if Belongs(line, delim, k) then [line[k]] else [])
  }

  lemma QuotesOneMore(line: string, k: nat)
    requires k < |line|
    ensures OddBefore(line, k + 1) <==> (OddBefore(line, k) != (line[k] == '"'))
  {
    assert line[..k + 1] == line[..k] + [line[k]];
    QuotesSnoc(line[..k], line[k]);
  }

  lemma {:induction false} ScanIsFrom(line: string, delim: char, k: nat, cur: string)
    requires k <= |line| && delim != '"'
    ensures Scan(line[k..], delim, OddBefore(line, k), cur) == FieldsFrom(line, delim, k, cur)
    decreases |line| - k
  {
    if k < |line| {
      hide OddBefore;
      QuotesOneMore(line, k);
      assert line[k..][1..] == line[k + 1..];
      if line[k] == '"' && OddBefore(line, k) && k + 1 < |line| && line[k + 1] == '"' {
        QuotesOneMore(line, k + 1);
        assert line[k..][2..] == line[k + 2..];
        ScanIsFrom(line, delim, k + 2, cur + ['"']);
        assert cur + ['"'] + [] == cur + ['"'];
      } else if line[k] == '"' {
        assert cur + [] == cur;
        ScanIsFrom(line, delim, k + 1, cur);
      } else if line[k] == delim && !OddBefore(line, k) {
        ScanIsFrom(line, delim, k + 1, []);
      } else {
        ScanIsFrom(line, delim, k + 1, cur + [line[k]]);
      }
    }
  }

  lemma {:induction false} StretchFrom(line: string, delim: char, k: nat, cur: string, a: nat, b: nat)
    requires IsStretch(line, delim, k, a, b)
    ensures var fields, j := FieldsFrom(line, delim, k, cur), CutsIn(line, delim, k, a);
      j < |fields| && fields[j] == (if a == k then cur else []) + Content(line, delim, a, b)
    decreases |line| - k
  {
    hide Cuts, Belongs;
    if a == k {
      if k < b {
        var more := if Belongs(line, delim, k) then [line[k]] else [];
        StretchFrom(line, delim, k + 1, cur + more, k + 1, b);
        assert cur + more + Content(line, delim, k + 1, b) == cur + (more + Content(line, delim, k + 1, b));
      }
    } else if Cuts(line, delim, k) {
      StretchFrom(line, delim, k + 1, [], a, b);
    } else {
      StretchFrom(line, delim, k + 1, cur + if Belongs(line, delim, k) then [line[k]] else [], a, b);
    }
  }

  /** For any line, with quotes wherever they may be, closed or not: the field after `j` cuts holds exactly the characters
      that belong to values, up to the next cut. */
  lemma FieldHolds(line: string, delim: char, a: nat, b: nat)
    requires delim != '"' && delim != '\t' && IsStretch(line, delim, 0, a, b)
    ensures var fields, j := Fields(line, delim), CutsIn(line, delim, 0, a);
      j < |fields| && fields[j] == Content(line, delim, a, b)
  {
    hide IsStretch, Content, CutsIn, FieldsFrom, Scan;
    assert line[0..] == line && Quotes(line[..0]) == 0;
    ScanIsFrom(line, delim, 0, []);
    StretchBounds(line, delim, a, b);
    StretchFrom(line, delim, 0, [], a, b);
    assert [] + Content(line, delim, a, b) == Content(line, delim, a, b);
  }

  lemma StretchBounds(line: string, delim: char, a: nat, b: nat)
    requires IsStretch(line, delim, 0, a, b)
    ensures a <= b <= |line|
  {
  }
}
