/** The three replacements told by positions, the way the regular expressions read: the first match, the shortest block. */
module ReasoningMatches {
  import opened Text
  import opened ReasoningTags

  // ---- the tags ----

  function Lower(s: string): string {
    seq(|s|, i requires 0 <= i < |s| => if 'A' <= s[i] <= 'Z' then (s[i] as int + 32) as char else s[i])
  }

  lemma StartsExactly(s: string, tag: string)
    requires forall i :: 0 <= i < |tag| ==> !('A' <= tag[i] <= 'Z')
    ensures StartsWith(s, tag) <==> |tag| <= |s| && Lower(s[..|tag|]) == tag
  {
    if |tag| <= |s| {
      var low := Lower(s[..|tag|]);
      assert forall i :: 0 <= i < |tag| ==> (SameLetter(s[i], tag[i]) <==> low[i] == tag[i]);
    }
  }

  /** An opening tag is, in small letters, `<think>` or `<thinking>`; the number is its length. */
  lemma OpensExactly(s: string, n: nat)
    requires 0 < n <= |s|
    ensures OpenLen(s) == n <==> Lower(s[..n]) in ["<think>", "<thinking>"]
  {
    hide StartsWith;
    StartsExactly(s, "<think>");
    StartsExactly(s, "<thinking>");
    NotBoth(s, "<think>", "<thinking>", 6);
  }

  lemma ClosesExactly(s: string, n: nat)
    requires 0 < n <= |s|
    ensures CloseLen(s) == n <==> Lower(s[..n]) in ["</think>", "</thinking>"]
  {
    hide StartsWith;
    StartsExactly(s, "</think>");
    StartsExactly(s, "</thinking>");
    NotBoth(s, "</think>", "</thinking>", 7);
  }

  lemma NotBoth(s: string, a: string, b: string, k: nat)
    requires k < |a| && k < |b| && a[k] == '>' && b[k] == 'i'
    ensures !(StartsWith(s, a) && StartsWith(s, b))
  {
  }

  predicate OpensAt(s: string, i: nat) {
    i < |s| && OpenLen(s[i..]) > 0
  }

  predicate ClosesAt(s: string, i: nat) {
    i < |s| && CloseLen(s[i..]) > 0
  }

  /** Where the tag at `i` ends. */
  function AfterTag(s: string, i: nat): (r: nat)
    requires i < |s|
    ensures i <= r <= |s|
  {
    i + if OpenLen(s[i..]) > 0 then OpenLen(s[i..]) else CloseLen(s[i..])
  }

  // ---- 1. closed blocks ----

  /** An opening tag at `i`, and at `j` the first closing tag after it. */
  ghost predicate IsBlock(s: string, i: nat, j: nat) {
    && OpensAt(s, i) && AfterTag(s, i) <= j && ClosesAt(s, j)
    && forall k: nat :: AfterTag(s, i) <= k < j ==> !ClosesAt(s, k)
  }

  ghost predicate IsFirstBlock(s: string, i: nat, j: nat) {
    IsBlock(s, i, j) && forall h: nat, k: nat :: h < i ==> !IsBlock(s, h, k)
  }

  lemma {:induction false} ClosesFirst(s: string, j: nat)
    requires ClosesAt(s, j) && forall k: nat :: k < j ==> !ClosesAt(s, k)
    ensures AfterClose(s) == At(s[j + CloseLen(s[j..])..])
  {
    assert s[0..] == s;
    if j > 0 {
      assert !ClosesAt(s, 0);
      assert s[1..][j - 1..] == s[j..];
      forall k: nat | k < j - 1 ensures !ClosesAt(s[1..], k) { assert s[1..][k..] == s[k + 1..] && !ClosesAt(s, k + 1); }
      ClosesFirst(s[1..], j - 1);
      assert s[1..][j - 1 + CloseLen(s[j..])..] == s[j + CloseLen(s[j..])..];
    }
  }

  lemma {:induction false} ClosesSomewhere(s: string) returns (j: nat)
    requires AfterClose(s).At?
    ensures ClosesAt(s, j) && forall k: nat :: k < j ==> !ClosesAt(s, k)
  {
    hide CloseLen;
    assert s[0..] == s;
    if ClosesAt(s, 0) {
      j := 0;
    } else {
      var i := ClosesSomewhere(s[1..]);
      j := i + 1;
      assert s[1..][i..] == s[j..];
      forall k: nat | k < j ensures !ClosesAt(s, k) {
        if k > 0 { assert s[1..][k - 1..] == s[k..] && !ClosesAt(s[1..], k - 1); }
      }
    }
  }

  /** The text from the end of the opening tag at `i` on has a closing tag exactly when a block starts there. */
  lemma BlockFrom(s: string, i: nat, j: nat)
    requires IsBlock(s, i, j)
    ensures AfterClose(s[AfterTag(s, i)..]) == At(s[j + CloseLen(s[j..])..])
  {
    hide OpenLen, CloseLen, AfterClose;
    var n := AfterTag(s, i);
    var rest := s[n..];
    assert rest[j - n..] == s[j..];
    forall k: nat | k < j - n ensures !ClosesAt(rest, k) {
      if k < |rest| { assert rest[k..] == s[n + k..] && !ClosesAt(s, n + k); }
    }
    ClosesFirst(rest, j - n);
    assert rest[j - n + CloseLen(s[j..])..] == s[j + CloseLen(s[j..])..];
  }

  lemma BlockThere(s: string, i: nat) returns (j: nat)
    requires OpensAt(s, i) && AfterClose(s[AfterTag(s, i)..]).At?
    ensures IsBlock(s, i, j)
  {
    hide OpenLen, CloseLen, AfterClose;
    var n := AfterTag(s, i);
    var k := ClosesSomewhere(s[n..]);
    j := n + k;
    assert s[n..][k..] == s[j..];
    forall h: nat | n <= h < j ensures !ClosesAt(s, h) {
      assert s[n..][h - n..] == s[h..] && !ClosesAt(s[n..], h - n);
    }
  }

  lemma BlockOfRest(s: string, i: nat, j: nat)
    requires s != []
    ensures IsBlock(s[1..], i, j) <==> IsBlock(s, i + 1, j + 1)
  {
    hide OpenLen, CloseLen;
    var r := s[1..];
    assert forall k: nat :: k < |r| ==> r[k..] == s[k + 1..];
    if IsBlock(r, i, j) {
      forall k: nat | AfterTag(s, i + 1) <= k < j + 1 ensures !ClosesAt(s, k) {
        assert k >= 1 && !ClosesAt(r, k - 1);
      }
    }
    if IsBlock(s, i + 1, j + 1) {
      forall k: nat | AfterTag(r, i) <= k < j ensures !ClosesAt(r, k) { assert !ClosesAt(s, k + 1); }
    }
  }

  /** The first replacement cuts the first block out and goes on behind it; without a block it changes nothing. */
  lemma {:induction false} Pass1Exactly(s: string)
    ensures forall i: nat, j: nat :: IsFirstBlock(s, i, j) ==> Pass1(s) == s[..i] + Pass1(s[j + CloseLen(s[j..])..])
    ensures (forall i: nat, j: nat :: !IsBlock(s, i, j)) ==> Pass1(s) == s
  {
    hide OpenLen, CloseLen, AfterClose;
    forall i: nat, j: nat | IsFirstBlock(s, i, j) ensures Pass1(s) == s[..i] + Pass1(s[j + CloseLen(s[j..])..]) {
      CutsFirst(s, i, j);
    }
    if forall i: nat, j: nat :: !IsBlock(s, i, j) { KeepsAll(s); }
  }

  lemma Pass1Block(s: string, j: nat)
    requires IsBlock(s, 0, j)
    ensures Pass1(s) == Pass1(s[j + CloseLen(s[j..])..])
  {
    hide AfterClose;
    BlockFrom(s, 0, j);
    assert s[0..] == s;
  }

  lemma Pass1Char(s: string)
    requires s != [] && forall j: nat :: !IsBlock(s, 0, j)
    ensures Pass1(s) == [s[0]] + Pass1(s[1..])
  {
    hide AfterClose, OpenLen, CloseLen, IsBlock;
    assert s[0..] == s;
    if OpenLen(s) > 0 && AfterClose(s[OpenLen(s)..]).At? {
      var j := BlockThere(s, 0);
      assert false;
    }
  }

  lemma {:induction false} CutsFirst(s: string, i: nat, j: nat)
    requires IsFirstBlock(s, i, j)
    ensures i <= j < |s| && Pass1(s) == s[..i] + Pass1(s[j + CloseLen(s[j..])..])
  {
    hide OpenLen, CloseLen, Pass1;
    BlockBounds(s, i, j);
    if i == 0 {
      hide IsBlock;
      Pass1Block(s, j);
      assert [] + Pass1(s[j + CloseLen(s[j..])..]) == Pass1(s[j + CloseLen(s[j..])..]);
    } else {
      hide IsBlock;
      Pass1Char(s);
      BlockOfRest(s, i - 1, j - 1);
      forall h: nat, k: nat | h < i - 1 ensures !IsBlock(s[1..], h, k) { BlockOfRest(s, h, k); }
      CutsFirst(s[1..], i - 1, j - 1);
      assert s[1..][j - 1..] == s[j..] && s[1..][j - 1 + CloseLen(s[j..])..] == s[j + CloseLen(s[j..])..];
      assert [s[0]] + s[1..][..i - 1] == s[..i];
      assert [s[0]] + (s[1..][..i - 1] + Pass1(s[j + CloseLen(s[j..])..])) == s[..i] + Pass1(s[j + CloseLen(s[j..])..]);
    }
  }

  lemma BlockBounds(s: string, i: nat, j: nat)
    requires IsBlock(s, i, j)
    ensures i < j < |s|
  {
  }

  lemma {:induction false} KeepsAll(s: string)
    requires forall i: nat, j: nat :: !IsBlock(s, i, j)
    ensures Pass1(s) == s
  {
    hide IsBlock;
    if s != [] {
      Pass1Char(s);
      forall i: nat, j: nat ensures !IsBlock(s[1..], i, j) { BlockOfRest(s, i, j); }
      KeepsAll(s[1..]);
    }
  }

  // ---- 2. the opener that is left, 3. the tags that are left ----

  /** The second replacement keeps what stands before the first opening tag. */
  lemma {:induction false} Pass2Exactly(s: string, i: nat)
    requires i <= |s| && (i < |s| ==> OpensAt(s, i)) && forall k: nat :: k < i ==> !OpensAt(s, k)
    ensures Pass2(s) == s[..i]
  {
    hide OpenLen;
    assert s[0..] == s;
    if i > 0 {
      assert !OpensAt(s, 0);
      if i < |s| { assert s[1..][i - 1..] == s[i..]; }
      forall k: nat | k < i - 1 ensures !OpensAt(s[1..], k) { assert s[1..][k..] == s[k + 1..] && !OpensAt(s, k + 1); }
      Pass2Exactly(s[1..], i - 1);
      assert [s[0]] + s[1..][..i - 1] == s[..i];
    }
  }

  lemma Pass3Tag(s: string)
    requires OpensAt(s, 0) || ClosesAt(s, 0)
    ensures Pass3(s) == [] + Pass3(s[AfterTag(s, 0)..])
  {
    hide OpenLen, CloseLen;
    assert s[0..] == s;
    assert [] + Pass3(s[AfterTag(s, 0)..]) == Pass3(s[AfterTag(s, 0)..]);
  }

  lemma Pass3Char(s: string)
    requires s != [] && !OpensAt(s, 0) && !ClosesAt(s, 0)
    ensures Pass3(s) == [s[0]] + Pass3(s[1..])
  {
    hide OpenLen, CloseLen;
    assert s[0..] == s;
  }

  lemma TagOfRest(s: string, k: nat)
    requires k + 1 < |s|
    ensures OpensAt(s[1..], k) == OpensAt(s, k + 1) && ClosesAt(s[1..], k) == ClosesAt(s, k + 1)
    ensures s[1..][AfterTag(s[1..], k)..] == s[AfterTag(s, k + 1)..]
  {
    hide OpenLen, CloseLen;
    assert s[1..][k..] == s[k + 1..];
  }

  /** The third replacement drops the first tag and goes on behind it; without a tag it changes nothing. */
  lemma {:induction false} Pass3Exactly(s: string, i: nat)
    requires i <= |s| && (i < |s| ==> OpensAt(s, i) || ClosesAt(s, i))
    requires forall k: nat :: k < i ==> !OpensAt(s, k) && !ClosesAt(s, k)
    ensures Pass3(s) == if i < |s| then s[..i] + Pass3(s[AfterTag(s, i)..]) else s
  {
    hide OpensAt, ClosesAt, AfterTag, Pass3;
    if i == 0 {
      if s != [] { Pass3Tag(s); } else { Pass3Nothing(); }
    } else {
      Pass3Char(s);
      forall k: nat | k < i - 1 ensures !OpensAt(s[1..], k) && !ClosesAt(s[1..], k) { TagOfRest(s, k); }
      if i < |s| { TagOfRest(s, i - 1); }
      Pass3Exactly(s[1..], i - 1);
      if i < |s| { Regroup(s, i, Pass3(s[AfterTag(s, i)..])); }
      assert [s[0]] + s[1..] == s;
    }
  }

  lemma Pass3Nothing()
    ensures Pass3([]) == []
  {
  }

  lemma Regroup(s: string, i: nat, r: string)
    requires 0 < i <= |s|
    ensures [s[0]] + (s[1..][..i - 1] + r) == s[..i] + r
  {
    assert [s[0]] + s[1..][..i - 1] == s[..i];
  }
}
