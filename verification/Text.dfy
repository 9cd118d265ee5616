/** Splitting and joining strings the way JavaScript's split and join do, and trimming. */
module Text {

  function Split(t: string, c: char): (parts: seq<string>)
    ensures parts != []
    ensures forall p :: p in parts ==> c !in p
  {
    if t == [] then [[]]
    else
      var rest := Split(t[1..], c);
      if t[0] == c then [[]] + rest else [[t[0]] + rest[0]] + rest[1..]
  }

  function Join(parts: seq<string>, sep: string): string {
    if parts == [] then [] else if |parts| == 1 then parts[0] else parts[0] + sep + Join(parts[1..], sep)
  }

  lemma {:induction false} JoinSplit(t: string, c: char)
    ensures Join(Split(t, c), [c]) == t
  {
    if t != [] {
      JoinSplit(t[1..], c);
      var rest := Split(t[1..], c);
      if t[0] == c {
        assert Join([[]] + rest, [c]) == [] + [c] + Join(([[]] + rest)[1..], [c]);
        assert ([[]] + rest)[1..] == rest;
      } else {
        JoinLonger(rest, [c], t[0]);
      }
    }
  }

  lemma JoinLonger(parts: seq<string>, sep: string, ch: char)
    requires parts != []
    ensures Join([[ch] + parts[0]] + parts[1..], sep) == [ch] + Join(parts, sep)
  {
    var longer := [[ch] + parts[0]] + parts[1..];
    assert longer[1..] == parts[1..];
    if |parts| > 1 {
      assert [ch] + parts[0] + sep + Join(parts[1..], sep) == [ch] + (parts[0] + sep + Join(parts[1..], sep));
    }
  }

  lemma {:induction false} SplitPlain(p: string, c: char)
    requires c !in p
    ensures Split(p, c) == [p]
  {
    if p != [] { SplitPlain(p[1..], c); assert [p[0]] + p[1..] == p; }
  }

  lemma {:induction false} SplitFirst(p: string, t: string, c: char)
    requires c !in p
    ensures Split(p + [c] + t, c) == [p] + Split(t, c)
  {
    if p == [] {
      assert (p + [c] + t)[1..] == t;
    } else {
      SplitFirst(p[1..], t, c);
      assert (p + [c] + t)[1..] == p[1..] + [c] + t;
      assert [p[0]] + p[1..] == p;
    }
  }

  lemma {:induction false} SplitJoin(parts: seq<string>, c: char)
    requires parts != [] && forall p :: p in parts ==> c !in p
    ensures Split(Join(parts, [c]), c) == parts
  {
    hide Split;
    assert parts[0] in parts;
    if |parts| == 1 {
      SplitPlain(parts[0], c);
    } else {
      assert forall p :: p in parts[1..] ==> p in parts;
      SplitJoin(parts[1..], c);
      SplitFirst(parts[0], Join(parts[1..], [c]), c);
      assert [parts[0]] + parts[1..] == parts;
    }
  }

  /** Joining the joined pieces is joining everything. */
  lemma {:induction false} JoinConcat(a: seq<string>, b: seq<string>, sep: string)
    requires a != [] && b != []
    ensures Join(a + b, sep) == Join(a, sep) + sep + Join(b, sep)
  {
    if |a| == 1 {
      assert (a + b)[1..] == b;
    } else {
      assert (a + b)[1..] == a[1..] + b;
      JoinConcat(a[1..], b, sep);
      assert a[0] + sep + (Join(a[1..], sep) + sep + Join(b, sep)) == a[0] + sep + Join(a[1..], sep) + sep + Join(b, sep);
    }
  }

  /** What String.prototype.trim removes, which is also what `\s` matches. */
  predicate IsSpace(c: char) {
    || c in {' ', '\t', '\n', '\r', '\U{0B}', '\U{0C}', '\U{A0}', '\U{1680}', '\U{2028}', '\U{2029}', '\U{202F}', '\U{205F}',
             '\U{3000}', '\U{FEFF}'}
    || '\U{2000}' <= c <= '\U{200A}'
  }

  function TrimStart(s: string): (r: string)
    ensures r == [] || !IsSpace(r[0])
    ensures |r| <= |s| && r == s[|s| - |r|..]
    ensures forall i :: 0 <= i < |s| - |r| ==> IsSpace(s[i])
  {
    if s != [] && IsSpace(s[0]) then TrimStart(s[1..]) else s
  }

  function TrimEnd(s: string): (r: string)
    ensures r == [] || !IsSpace(r[|r| - 1])
    ensures |r| <= |s| && r == s[..|r|]
    ensures forall i :: |r| <= i < |s| ==> IsSpace(s[i])
  {
    if s != [] && IsSpace(s[|s| - 1]) then TrimEnd(s[..|s| - 1]) else s
  }

  function Trim(s: string): (r: string)
    ensures Trimmed(r)
    ensures forall c :: c in r ==> c in s
  {
    TrimEnd(TrimStart(s))
  }

  predicate Trimmed(s: string) {
    s == [] || (!IsSpace(s[0]) && !IsSpace(s[|s| - 1]))
  }

  /** Trimming finds the core of any padded string, so it is the only trimmed core there is. */
  lemma TrimPadded(a: string, core: string, b: string)
    requires Trimmed(core)
    requires (forall c :: c in a ==> IsSpace(c)) && (forall c :: c in b ==> IsSpace(c))
    ensures Trim(a + core + b) == core
  {
    hide IsSpace, TrimStart, TrimEnd;
    assert a + core + b == a + (core + b);
    TrimStartPadded(a, core + b);
    if core == [] {
      assert core + b == b;
      TrimStartAll(b);
      TrimEndOfNothing();
    } else {
      TrimStartStops(core + b);
      TrimEndPadded(core, b);
    }
  }

  lemma TrimSplits(line: string)
    ensures var s := TrimStart(line); var t := Trim(line);
      && line == line[..|line| - |s|] + t + s[|t|..]
      && (forall c :: c in line[..|line| - |s|] ==> IsSpace(c)) && (forall c :: c in s[|t|..] ==> IsSpace(c))
  {
    hide IsSpace;
  }

  lemma TrimEndOfNothing()
    ensures TrimEnd([]) == []
  {
  }

  lemma TrimStartStops(s: string)
    requires s != [] && !IsSpace(s[0])
    ensures TrimStart(s) == s
  {
  }

  lemma {:induction false} TrimStartPadded(a: string, s: string)
    requires forall c :: c in a ==> IsSpace(c)
    ensures TrimStart(a + s) == TrimStart(s)
  {
    if a == [] { assert a + s == s; } else { assert (a + s)[1..] == a[1..] + s; TrimStartPadded(a[1..], s); }
  }

  lemma {:induction false} TrimStartAll(b: string)
    requires forall c :: c in b ==> IsSpace(c)
    ensures TrimStart(b) == []
  {
    if b != [] { TrimStartAll(b[1..]); }
  }

  lemma {:induction false} TrimEndPadded(s: string, b: string)
    requires s != [] && !IsSpace(s[|s| - 1])
    requires forall c :: c in b ==> IsSpace(c)
    ensures TrimEnd(s + b) == s
  {
    if b == [] { assert s + b == s; } else { assert (s + b)[..|s + b| - 1] == s + b[..|b| - 1]; TrimEndPadded(s, b[..|b| - 1]); }
  }
}
