/** The scan for input interpolations in the run blocks of a composite action. */
module CompositeScan {

  /** What Python's `\s` and str.strip() take for white space. */
  predicate IsSpace(c: char) {
    || c in {' ', '\t', '\n', '\r', '\U{0B}', '\U{0C}', '\U{85}', '\U{A0}', '\U{1680}', '\U{2028}', '\U{2029}', '\U{202F}',
             '\U{205F}', '\U{3000}'}
    || '\U{1C}' <= c <= '\U{1F}' || '\U{2000}' <= c <= '\U{200A}'
  }

  function Leading(line: string): (n: nat)
    ensures n <= |line|
    ensures forall i :: 0 <= i < n ==> IsSpace(line[i])
    ensures n < |line| ==> !IsSpace(line[n])
  {
    if line != [] && IsSpace(line[0]) then 1 + Leading(line[1..]) else 0
  }

  function StripEnd(s: string): string {
    if s != [] && IsSpace(s[|s| - 1]) then StripEnd(s[..|s| - 1]) else s
  }

  function Strip(s: string): string {
    StripEnd(s[Leading(s)..])
  }

  predicate Blank(line: string) { Strip(line) == "" }

  /** The number of leading blanks proper. */
  function Indentation(line: string): (n: nat)
    ensures n <= |line| && (forall i :: 0 <= i < n ==> line[i] == ' ') && (n < |line| ==> line[n] != ' ')
  {
    if line != [] && line[0] == ' ' then 1 + Indentation(line[1..]) else 0
  }

  /** `^(\s*)run:\s*(.*)$` */
  predicate IsRunLine(line: string) {
    "run:" <= line[Leading(line)..]
  }

  function RunIndent(line: string): nat { Leading(line) }

  function RunValue(line: string): string
    requires IsRunLine(line)
  {
    Strip(line[Leading(line) + 4..])
  }

  /** `\$\{\{\s*inputs\.` somewhere in the text. */
  predicate Interpolates(s: string) {
    exists i, j | 0 <= i < |s| && 0 <= j < |s| :: MatchesAt(s, i, j)
  }

  /** The braces open at `i`, the word stands at `j`, and between them is only white space. */
  predicate MatchesAt(s: string, i: nat, j: nat) {
    && i + 3 <= j && j + 7 <= |s|
    && s[i..i + 3] == "${{" && s[j..j + 7] == "inputs." && forall k | i + 3 <= k < j :: IsSpace(s[k])
  }

  predicate Inline(line: string) {
    IsRunLine(line) && RunValue(line) != "" && RunValue(line)[0] != '|' && RunValue(line)[0] != '>'
  }

  predicate OpensBlock(line: string) {
    IsRunLine(line) && !Inline(line)
  }

  // ---- which lines belong to a run block ----

  /** Every non-blank line after `h` up to and including `i` is indented deeper than line `h`'s run key. */
  predicate Covers(lines: seq<string>, h: nat, i: nat)
    requires h < |lines| && i < |lines|
  {
    h < i && forall k | h < k <= i :: Blank(lines[k]) || Indentation(lines[k]) > RunIndent(lines[h])
  }

  /** A run line with a block value, itself outside every earlier block. */
  predicate IsHeader(lines: seq<string>, h: nat)
    requires h < |lines|
    decreases h
  {
    OpensBlock(lines[h]) && !exists g: nat | g < h :: IsHeader(lines, g) && Covers(lines, g, h)
  }

  predicate InBlock(lines: seq<string>, i: nat)
    requires i < |lines|
  {
    exists h: nat | h < i :: IsHeader(lines, h) && Covers(lines, h, i)
  }

  /** A violation: an interpolation in a block line, or in the value of an inline run line outside all blocks. */
  predicate Violates(lines: seq<string>, i: nat)
    requires i < |lines|
  {
    if InBlock(lines, i) then !Blank(lines[i]) && Interpolates(lines[i])
    else Inline(lines[i]) && Interpolates(RunValue(lines[i]))
  }

  datatype Violation = Violation(lineNo: nat, text: string)

  /** The violations among the first `n` lines, in order. */
  function Report(lines: seq<string>, n: nat): seq<Violation>
    requires n <= |lines|
  {
    if n == 0 then []
    else Report(lines, n - 1) + if Violates(lines, n - 1) then [Violation(n, Strip(lines[n - 1]))] else []
  }

  /** Exactly the violating lines are reported, each under its own number. */
  lemma {:induction false} ReportIsExact(lines: seq<string>, n: nat)
    requires n <= |lines|
    ensures forall v :: v in Report(lines, n) <==>
      1 <= v.lineNo <= n && Violates(lines, v.lineNo - 1) && v.text == Strip(lines[v.lineNo - 1])
  {
    hide Violates, Strip;
    if n > 0 { ReportIsExact(lines, n - 1); }
  }

  ghost predicate Increasing(r: seq<Violation>, n: nat) {
    && (forall i :: 0 <= i < |r| ==> r[i].lineNo <= n)
    && forall i, j :: 0 <= i < j < |r| ==> r[i].lineNo < r[j].lineNo
  }

  lemma OneMoreIncreases(r: seq<Violation>, n: nat, v: Violation)
    requires n > 0 && Increasing(r, n - 1) && v.lineNo == n
    ensures Increasing(r + [v], n) && Increasing(r + [], n)
  {
    assert r + [] == r;
  }

  /** The reported line numbers strictly increase, so no line is reported twice. */
  lemma {:induction false} ReportIncreases(lines: seq<string>, n: nat)
    requires n <= |lines|
    ensures Increasing(Report(lines, n), n)
  {
    hide Violates, Strip, Increasing;
    if n > 0 {
      ReportIncreases(lines, n - 1);
      OneMoreIncreases(Report(lines, n - 1), n, Violation(n, Strip(lines[n - 1])));
    } else {
      assert Increasing([], 0) by { NothingIncreases(); }
    }
  }

  lemma NothingIncreases()
    ensures Increasing([], 0)
  {
  }

  lemma NextIsOutside(lines: seq<string>, i: nat)
    requires i + 1 < |lines| && !InBlock(lines, i) && !OpensBlock(lines[i])
    ensures !InBlock(lines, i + 1)
  {
    hide Blank, Indentation, OpensBlock;
    forall h: nat | h < i + 1 && IsHeader(lines, h) ensures !Covers(lines, h, i + 1) {
      assert h < i;
      assert !Covers(lines, h, i);
    }
  }

  /** After a header's block ends at `i`, line `i` is outside every block. */
  lemma BlockEnds(lines: seq<string>, h: nat, i: nat)
    requires h < i < |lines| && IsHeader(lines, h) && !Covers(lines, h, i)
    requires forall k: nat :: h < k < i ==> Covers(lines, h, k)
    ensures !InBlock(lines, i)
  {
    hide Blank, Indentation, OpensBlock;
    forall g: nat | g < i ensures !(IsHeader(lines, g) && Covers(lines, g, i)) {
      if g < h {
        assert Covers(lines, g, i) ==> Covers(lines, g, h);
      } else if g > h {
        assert Covers(lines, h, g);
      }
    }
  }

  /** The inner loop: from the line after header `h` to the end of its block. */
  method ScanBlock(lines: seq<string>, h: nat) returns (index: nat, found: seq<Violation>)
    requires h < |lines| && IsHeader(lines, h)
    ensures h < index <= |lines| && Report(lines, index) == Report(lines, h + 1) + found
    ensures index < |lines| ==> !InBlock(lines, index)
  {
    hide Blank, Indentation, OpensBlock, Inline, Interpolates, IsHeader, InBlock, Strip, Covers;
    index := h + 1;
    found := [];
    while index < |lines|
      invariant h < index <= |lines| && Report(lines, index) == Report(lines, h + 1) + found
      invariant forall k: nat :: h < k < index ==> Covers(lines, h, k)
      decreases |lines| - index
    {
      var script := lines[index];
      if Blank(script) {
        CoversMore(lines, h, index);
        index := index + 1;
        continue;
      }
      if Indentation(script) <= RunIndent(lines[h]) { break; }
      CoversMore(lines, h, index);
      if Interpolates(script) { found := found + [Violation(index + 1, Strip(script))]; }
      index := index + 1;
    }
    if index < |lines| {
      NotCovered(lines, h, index);
      BlockEnds(lines, h, index);
    }
  }

  lemma NotCovered(lines: seq<string>, h: nat, i: nat)
    requires h < i < |lines| && !Blank(lines[i]) && Indentation(lines[i]) <= RunIndent(lines[h])
    ensures !Covers(lines, h, i)
  {
  }

  method ScanFile(lines: seq<string>, composite: bool) returns (violations: seq<Violation>)
    ensures violations == if composite then Report(lines, |lines|) else []
  {
    if !composite { return []; }
    hide OpensBlock, Inline, Interpolates, IsHeader, InBlock, Strip, Blank, Report, Violates;
    FirstLineReport(lines);
    violations := [];
    var index := 0;
    if lines != [] { FirstIsOutside(lines); }
    while index < |lines|
      invariant index <= |lines| && violations == Report(lines, index)
      invariant index < |lines| ==> !InBlock(lines, index)
      decreases |lines| - index
    {
      var line := lines[index];
      if !IsRunLine(line) {
        NoRunNoHeader(line);
        PassOver(lines, index);
        index := index + 1;
        continue;
      }
      var value := RunValue(line);
      InlineIs(line);
      if value != "" && value[0] != '|' && value[0] != '>' {
        PassOver(lines, index);
        if Interpolates(value) { violations := violations + [Violation(index + 1, Strip(line))]; }
        index := index + 1;
        continue;
      }
      OutsideOpens(lines, index);
      HeaderIsNotReported(lines, index);
      var found;
      index, found := ScanBlock(lines, index);
      violations := violations + found;
    }
  }

  lemma FirstLineReport(lines: seq<string>)
    ensures Report(lines, 0) == []
  {
  }

  /** A line outside all blocks that opens none: it is reported only for its inline value. */
  lemma PassOver(lines: seq<string>, i: nat)
    requires i < |lines| && !InBlock(lines, i) && !OpensBlock(lines[i])
    ensures Report(lines, i + 1) == Report(lines, i) +
      if Inline(lines[i]) && Interpolates(RunValue(lines[i])) then [Violation(i + 1, Strip(lines[i]))] else []
    ensures i + 1 < |lines| ==> !InBlock(lines, i + 1)
  {
    if i + 1 < |lines| { NextIsOutside(lines, i); }
    hide OpensBlock, Inline, Interpolates, InBlock, Strip, Blank;
  }

  lemma HeaderIsNotReported(lines: seq<string>, h: nat)
    requires h < |lines| && !InBlock(lines, h) && !Inline(lines[h])
    ensures Report(lines, h + 1) == Report(lines, h)
  {
    hide OpensBlock, Inline, Interpolates, InBlock, Strip, Blank;
  }

  lemma FirstIsOutside(lines: seq<string>)
    requires lines != []
    ensures !InBlock(lines, 0)
  {
  }

  lemma NoRunNoHeader(line: string)
    requires !IsRunLine(line)
    ensures !Inline(line) && !OpensBlock(line)
  {
  }

  lemma InlineIs(line: string)
    requires IsRunLine(line)
    ensures var value := RunValue(line);
      (Inline(line) <==> value != "" && value[0] != '|' && value[0] != '>') && (OpensBlock(line) <==> !Inline(line))
  {
  }

  lemma OutsideOpens(lines: seq<string>, h: nat)
    requires h < |lines| && OpensBlock(lines[h]) && !InBlock(lines, h)
    ensures IsHeader(lines, h)
  {
  }

  lemma CoversMore(lines: seq<string>, h: nat, i: nat)
    requires h < i < |lines| && IsHeader(lines, h)
    requires forall k: nat :: h < k < i ==> Covers(lines, h, k)
    requires Blank(lines[i]) || Indentation(lines[i]) > RunIndent(lines[h])
    ensures Covers(lines, h, i) && InBlock(lines, i)
  {
    if i > h + 1 { assert Covers(lines, h, i - 1); }
  }

  // ---- the patterns ----

  ghost predicate AllSpace(s: string) {
    forall c :: c in s ==> IsSpace(c)
  }

  predicate Stripped(s: string) {
    s == [] || (!IsSpace(s[0]) && !IsSpace(s[|s| - 1]))
  }

  lemma {:induction false} LeadingIs(a: string, rest: string)
    requires AllSpace(a) && (rest == [] || !IsSpace(rest[0]))
    ensures Leading(a + rest) == |a|
  {
    if a == [] {
      assert a + rest == rest;
    } else {
      assert (a + rest)[1..] == a[1..] + rest;
      LeadingIs(a[1..], rest);
    }
  }

  lemma {:induction false} StripEndIs(s: string, b: string)
    requires AllSpace(b) && (s == [] || !IsSpace(s[|s| - 1]))
    ensures StripEnd(s + b) == s
  {
    if b == [] {
      assert s + b == s;
    } else {
      assert (s + b)[..|s + b| - 1] == s + b[..|b| - 1];
      StripEndIs(s, b[..|b| - 1]);
    }
  }

  /** Stripping finds the core between white space, and any text has one. */
  lemma StripFinds(a: string, core: string, b: string)
    requires AllSpace(a) && AllSpace(b) && Stripped(core)
    ensures Strip(a + core + b) == core
  {
    hide IsSpace;
    if core == [] {
      assert a + core + b == a + b + [];
      LeadingIs(a + b, []);
      StripEndIs([], []);
    } else {
      assert a + core + b == a + (core + b);
      LeadingIs(a, core + b);
      assert (a + (core + b))[|a|..] == core + b;
      StripEndIs(core, b);
    }
  }

  /** `^(\s*)run:\s*(.*)$` matches exactly the lines made of white space, the key and anything; the first group is that white
      space, and the stripped second group the stripped rest. */
  lemma RunLineExactly(line: string, indent: string, rest: string)
    requires AllSpace(indent)
    ensures line == indent + "run:" + rest ==> IsRunLine(line) && RunIndent(line) == |indent| && RunValue(line) == Strip(rest)
    ensures IsRunLine(line) ==>
      AllSpace(line[..Leading(line)]) && line == line[..Leading(line)] + "run:" + line[Leading(line) + 4..]
  {
    hide *;
    if line == indent + "run:" + rest { RunLineIs(indent, rest); }
    if IsRunLine(line) { RunLineParts(line); }
  }

  lemma RunLineIs(indent: string, rest: string)
    requires AllSpace(indent)
    ensures var line := indent + "run:" + rest; IsRunLine(line) && RunIndent(line) == |indent| && RunValue(line) == Strip(rest)
  {
    hide IsSpace, Strip, AllSpace;
    var line := indent + "run:" + rest;
    assert line == indent + ("run:" + rest);
    RIsNoSpace();
    LeadingIs(indent, "run:" + rest);
    assert line[|indent|..] == "run:" + rest && line[|indent| + 4..] == rest;
  }

  lemma RunLineParts(line: string)
    requires IsRunLine(line)
    ensures AllSpace(line[..Leading(line)]) && line == line[..Leading(line)] + "run:" + line[Leading(line) + 4..]
  {
    hide IsSpace;
    var n := Leading(line);
    assert line[n..][..4] == "run:" && line[n..][4..] == line[n + 4..];
    assert line == line[..n] + (line[n..][..4] + line[n..][4..]);
  }

  lemma RIsNoSpace()
    ensures !IsSpace('r')
  {
  }

  lemma WordIs(s: string, i: nat, j: nat)
    requires MatchesAt(s, i, j)
    ensures s == s[..i] + "${{" + s[i + 3..j] + "inputs." + s[j + 7..] && AllSpace(s[i + 3..j])
  {
    hide IsSpace;
    assert s == s[..i] + s[i..i + 3] + s[i + 3..j] + s[j..j + 7] + s[j + 7..];
  }

  lemma WordAt(a: string, gap: string, b: string)
    requires AllSpace(gap)
    ensures var s := a + "${{" + gap + "inputs." + b; MatchesAt(s, |a|, |a| + 3 + |gap|)
  {
    hide IsSpace;
    var s := a + "${{" + gap + "inputs." + b;
    var i, j := |a|, |a| + 3 + |gap|;
    assert s[i..i + 3] == "${{" && s[j..j + 7] == "inputs." && s[i + 3..j] == gap;
    forall k | i + 3 <= k < j ensures IsSpace(s[k]) { assert s[k] == s[i + 3..j][k - i - 3]; }
  }

  ghost predicate IsInterpolation(s: string, a: string, gap: string, b: string) {
    s == a + "${{" + gap + "inputs." + b && AllSpace(gap)
  }

  /** `\$\{\{\s*inputs\.` matches exactly the texts with the braces, white space and the word somewhere in them. */
  lemma InterpolatesExactly(s: string)
    ensures Interpolates(s) <==> exists a, gap, b :: IsInterpolation(s, a, gap, b)
  {
    hide MatchesAt, AllSpace;
    if Interpolates(s) {
      var i: nat, j: nat :| i < |s| && j < |s| && MatchesAt(s, i, j);
      WordBounds(s, i, j);
      WordIs(s, i, j);
      assert IsInterpolation(s, s[..i], s[i + 3..j], s[j + 7..]);
    }
    if exists a, gap, b :: IsInterpolation(s, a, gap, b) {
      var a, gap, b :| IsInterpolation(s, a, gap, b);
      WordAt(a, gap, b);
      assert MatchesAt(s, |a|, |a| + 3 + |gap|);
    }
  }

  lemma WordBounds(s: string, i: nat, j: nat)
    requires MatchesAt(s, i, j)
    ensures i + 3 <= j && j + 7 <= |s|
  {
  }
}
