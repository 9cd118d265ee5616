/** Slicing strings of UTF-16 code units without cutting a surrogate pair (section 2 of RFC 2781). */
module Utf16 {
  import opened JsMaps

  type Unit = u: int | 0 <= u < 0x10000

  predicate IsHigh(u: Unit) { 0xD800 <= u <= 0xDBFF }
  predicate IsLow(u: Unit) { 0xDC00 <= u <= 0xDFFF }

  predicate StartsWithPair(s: seq<Unit>) {
    |s| > 1 && IsHigh(s[0]) && IsLow(s[1])
  }

  function HeadLength(s: seq<Unit>): (n: nat)
    requires s != []
    ensures 1 <= n <= |s|
  {
    if StartsWithPair(s) then 2 else 1
  }

  function Head(s: seq<Unit>): int
    requires s != []
  {
    if StartsWithPair(s) then 0x10000 + (s[0] as int - 0xD800) * 0x400 + (s[1] as int - 0xDC00) else s[0] as int
  }

  /** The two units of a code point beyond the basic plane (section 2.1 of RFC 2781). */
  function Encoded(c: int): seq<Unit>
    requires 0x10000 <= c <= 0x10FFFF
  {
    [0xD800 + (c - 0x10000) / 0x400, 0xDC00 + (c - 0x10000) % 0x400]
  }

  /** A pair is exactly the encoding of such a code point, and is read as that. */
  lemma PairExactly(s: seq<Unit>)
    requires |s| >= 2
    ensures StartsWithPair(s) <==> exists c :: 0x10000 <= c <= 0x10FFFF && s[..2] == Encoded(c)
    ensures forall c :: 0x10000 <= c <= 0x10FFFF && s[..2] == Encoded(c) ==> Head(s) == c
  {
    if StartsWithPair(s) { assert s[..2] == Encoded(Head(s)); }
    forall c | 0x10000 <= c <= 0x10FFFF && s[..2] == Encoded(c) ensures StartsWithPair(s) && Head(s) == c {
      assert s[0] == Encoded(c)[0] && s[1] == Encoded(c)[1];
    }
  }

  /** The code points of a string; a surrogate without its partner stands for itself. */
  function CodePoints(s: seq<Unit>): seq<int>
    decreases |s|
  {
    if s == [] then [] else [Head(s)] + CodePoints(s[HeadLength(s)..])
  }

  /** Every surrogate is half of a pair. */
  ghost predicate WellFormed(s: seq<Unit>) {
    forall c :: c in CodePoints(s) ==> !(0xD800 <= c <= 0xDFFF)
  }

  /** Position `k` does not fall inside a surrogate pair. */
  predicate Boundary(s: seq<Unit>, k: int) {
    0 <= k <= |s| && !(0 < k < |s| && IsHigh(s[k - 1]) && IsLow(s[k]))
  }

  lemma HeadOfPrefix(s: seq<Unit>, k: nat)
    requires 0 < k && Boundary(s, k)
    ensures HeadLength(s) <= k && Head(s[..k]) == Head(s) && HeadLength(s[..k]) == HeadLength(s)
    ensures Boundary(s[HeadLength(s)..], k - HeadLength(s))
  {
  }

  lemma SlicesAgree(s: seq<Unit>, n: nat, k: nat)
    requires n <= k <= |s|
    ensures s[n..][..k - n] == s[..k][n..] && s[n..][k - n..] == s[k..]
  {
  }

  lemma Unfold(s: seq<Unit>)
    requires s != []
    ensures CodePoints(s) == [Head(s)] + CodePoints(s[HeadLength(s)..])
  {
  }

  lemma NoCodePoints()
    ensures CodePoints([]) == []
  {
  }

  lemma Assoc(h: int, a: seq<int>, b: seq<int>)
    ensures [h] + (a + b) == [h] + a + b
  {
  }

  lemma {:induction false} SplitAtBoundary(s: seq<Unit>, k: nat)
    requires Boundary(s, k)
    ensures CodePoints(s) == CodePoints(s[..k]) + CodePoints(s[k..])
    decreases k
  {
    hide CodePoints, Boundary, Head, HeadLength;
    if k == 0 {
      assert s[0..] == s && s[..0] == [];
      NoCodePoints();
    } else {
      HeadOfPrefix(s, k);
      BoundaryInRange(s, k);
      var n := HeadLength(s);
      SplitAtBoundary(s[n..], k - n);
      SlicesAgree(s, n, k);
      Unfold(s);
      Unfold(s[..k]);
      Assoc(Head(s), CodePoints(s[..k][n..]), CodePoints(s[k..]));
    }
  }

  lemma BoundaryInRange(s: seq<Unit>, k: int)
    requires Boundary(s, k)
    ensures 0 <= k <= |s|
  {
  }

  lemma PiecesOfWellFormed(a: seq<int>, b: seq<int>, c: seq<int>)
    ensures forall x :: x in b ==> x in a + b + c
  {
  }

  /** A slice between two boundaries has a contiguous piece of the code points, and cannot become ill-formed. */
  lemma SliceIsPiece(s: seq<Unit>, i: nat, j: nat)
    requires i <= j && Boundary(s, i) && Boundary(s, j)
    ensures CodePoints(s) == CodePoints(s[..i]) + CodePoints(s[i..j]) + CodePoints(s[j..])
    ensures WellFormed(s) ==> WellFormed(s[i..j])
  {
    hide CodePoints, Boundary;
    BoundaryInRange(s, j);
    BoundaryOfRest(s, i, j);
    SplitAtBoundary(s, i);
    SplitAtBoundary(s[i..], j - i);
    SlicesOfRest(s, i, j);
    PiecesOfWellFormed(CodePoints(s[..i]), CodePoints(s[i..j]), CodePoints(s[j..]));
    assert CodePoints(s[..i]) + (CodePoints(s[i..j]) + CodePoints(s[j..])) ==
      CodePoints(s[..i]) + CodePoints(s[i..j]) + CodePoints(s[j..]);
  }

  lemma SlicesOfRest(s: seq<Unit>, i: nat, j: nat)
    requires i <= j <= |s|
    ensures s[i..][..j - i] == s[i..j] && s[i..][j - i..] == s[j..]
  {
  }

  lemma BoundaryOfRest(s: seq<Unit>, i: nat, j: nat)
    requires i <= j && Boundary(s, j)
    ensures Boundary(s[i..], j - i)
  {
  }

  /** Where a negative or too large index points. */
  function Clamp(index: int, len: nat): (r: nat)
    ensures r <= len
  {
    if index < 0 then (if len + index > 0 then len + index else 0) else if index < len then index else len
  }

  /** A negative index counts from the end; what points outside the string means the end it is beyond. */
  lemma ClampExactly(index: int, len: nat, k: nat)
    ensures Clamp(index, len) == k <==>
      var target := if index < 0 then len + index else index;
      if target < 0 then k == 0 else if target > len then k == len else k == target
  {
  }

  /** The bounds are the two places asked for, the smaller first; without an end it is the end of the string. */
  lemma BoundsExactly(len: nat, start: int, end: Option<int>)
    ensures var b := Bounds(len, start, end); var to := if end.Some? then end.value else len;
      b.0 <= b.1 && multiset{b.0, b.1} == multiset{Clamp(start, len), Clamp(to, len)}
  {
  }

  /** The requested bounds, in order. */
  function Bounds(len: nat, start: int, end: Option<int>): (r: (nat, nat))
    ensures r.0 <= r.1 <= len
  {
    var from, to := Clamp(start, len), if end.None? then len else Clamp(end.value, len);
    if to < from then (to, from) else (from, to)
  }

  /** Moves a bound off the middle of a pair: the lower one up, the upper one down. */
  function Inward(s: seq<Unit>, k: nat, up: bool): int
    requires k <= |s|
  {
    if Boundary(s, k) then k else if up then k + 1 else k - 1
  }

  lemma InwardIsBoundary(s: seq<Unit>, k: nat, up: bool)
    requires k <= |s|
    ensures Boundary(s, Inward(s, k, up))
  {
  }

  /** What is returned: the units between the two bounds moved inward. */
  function Slice(s: seq<Unit>, start: int, end: Option<int>): seq<Unit> {
    var b := Bounds(|s|, start, end);
    var from, to := Inward(s, b.0, true), Inward(s, b.1, false);
    if from <= to then s[from..to] else []
  }

  method SliceUtf16Safe(input: seq<Unit>, start: int, end: Option<int>) returns (r: seq<Unit>)
    ensures r == Slice(input, start, end)
  {
    var len := |input|;
    var from: int := if start < 0 then (if len + start > 0 then len + start else 0) else if start < len then start else len;
    var to: int := len;
    if end.Some? {
      to := if end.value < 0 then (if len + end.value > 0 then len + end.value else 0)
        else if end.value < len then end.value else len;
    }
    if to < from {
      var tmp := from;
      from := to;
      to := tmp;
    }
    assert from == Bounds(len, start, end).0 && to == Bounds(len, start, end).1;
    hide Bounds, Clamp;
    if from > 0 && from < len {
      if IsLow(input[from]) && IsHigh(input[from - 1]) { from := from + 1; }
    }
    if to > 0 && to < len {
      if IsHigh(input[to - 1]) && IsLow(input[to]) { to := to - 1; }
    }
    assert from == Inward(input, Bounds(len, start, end).0, true) && to == Inward(input, Bounds(len, start, end).1, false);
    hide Inward;
    r := if from <= to then input[from..to] else [];
  }

  /** The units from `i` to `j`, both not inside a pair; nothing when the bounds crossed. */
  ghost predicate IsPiece(s: seq<Unit>, i: int, j: int, r: seq<Unit>) {
    && Boundary(s, i) && Boundary(s, j)
    && r == (if i <= j then s[i..j] else [])
    && (i <= j ==> CodePoints(s) == CodePoints(s[..i]) + CodePoints(r) + CodePoints(s[j..]))
  }

  /** For every string and every pair of indices the result is a run of whole code points of the input, missing the one unit
      at either end of what was asked for that would be half of a pair, and nothing else; from a well-formed string it is
      well-formed. */
  lemma SliceKeepsPairs(s: seq<Unit>, start: int, end: Option<int>)
    ensures var b, r := Bounds(|s|, start, end), Slice(s, start, end);
      exists i, j :: IsPiece(s, i, j, r)
        && i == (if Boundary(s, b.0) then b.0 else b.0 + 1) && j == (if Boundary(s, b.1) then b.1 else b.1 - 1)
    ensures WellFormed(s) ==> WellFormed(Slice(s, start, end))
  {
    var b := Bounds(|s|, start, end);
    var i, j := Inward(s, b.0, true), Inward(s, b.1, false);
    assert b.0 <= i <= b.0 + 1 && b.1 - 1 <= j <= b.1;
    InwardIsBoundary(s, b.0, true);
    InwardIsBoundary(s, b.1, false);
    BoundaryInRange(s, i);
    BoundaryInRange(s, j);
    hide CodePoints, Boundary, Inward, Bounds;
    if i <= j { SliceIsPiece(s, i, j); }
    assert CodePoints([]) == [] by { NoCodePoints(); }
    assert IsPiece(s, i, j, Slice(s, start, end));
  }

  /** Math.max(0, Math.floor(maxLen)) */
  function Limit(maxLen: real): nat {
    if maxLen.Floor > 0 then maxLen.Floor else 0
  }

  method TruncateUtf16Safe(input: seq<Unit>, maxLen: real) returns (r: seq<Unit>)
    ensures |r| <= Limit(maxLen) && r <= input && Boundary(input, |r|)
    ensures forall k :: Boundary(input, k) && k <= Limit(maxLen) ==> k <= |r|
    ensures |r| >= (if |input| <= Limit(maxLen) then |input| else Limit(maxLen) - 1)
    ensures WellFormed(input) ==> WellFormed(r)
  {
    var limit := Limit(maxLen);
    if |input| <= limit { return input; }
    r := SliceUtf16Safe(input, 0, Some(limit));
    SliceKeepsPairs(input, 0, Some(limit));
    assert Inward(input, 0, true) == 0;
  }

  /** Within a well-formed string the well-formed prefixes are exactly those that end at a boundary, so the
      truncation is the longest well-formed prefix within the limit. */
  lemma WellFormedPrefixes(s: seq<Unit>, k: nat)
    requires WellFormed(s) && k <= |s|
    ensures WellFormed(s[..k]) <==> Boundary(s, k)
  {
    if Boundary(s, k) {
      SplitAtBoundary(s, k);
      assert forall c :: c in CodePoints(s[..k]) ==> c in CodePoints(s);
    } else {
      SplitAtBoundary(s[..k], k - 1);
      assert s[..k][k - 1..] == [s[k - 1]];
      assert CodePoints([s[k - 1]]) == [s[k - 1] as int];
      assert s[k - 1] in CodePoints(s[..k]);
    }
  }
}
