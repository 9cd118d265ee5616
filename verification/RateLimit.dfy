/** The sliding-window limiter: one insertion-ordered map from keys to their recent call times, pruned,
    swept now and then, and capped by evicting the oldest keys. */
module RateLimit {
  import opened JsMaps

  const WINDOW_MS := 60000
  const MAX_ATTEMPTS := 10
  const CLEANUP_INTERVAL := 300000
  const MAX_KEYS := 10000

  type Attempts = JsMap<string, seq<int>>

  datatype State = State(attempts: Attempts, lastCleanup: int)

  /** One call, with what the clock showed when cleanup, sweep and the limiter itself read it. */
  datatype Call = Call(key: string, atCleanup: int, atSweep: int, time: int)

  // ---- the specification of the pieces ----

  function Recent(times: seq<int>, cutoff: int): (r: seq<int>)
    ensures |r| <= |times|
    ensures forall t :: t in r <==> t in times && t > cutoff
  {
    if times == [] then []
    else
      var rest := |times| - 1;
      Recent(times[..rest], cutoff) + (if times[rest] > cutoff then [times[rest]] else [])
  }

  /** The keys that still have a recent time, in order. */
  function LiveKeys(entries: map<string, seq<int>>, keys: seq<string>, cutoff: int): (r: seq<string>)
    ensures forall k :: k in r <==> k in keys && k in entries && Recent(entries[k], cutoff) != []
  {
    if keys == [] then []
    else
      var rest := |keys| - 1;
      LiveKeys(entries, keys[..rest], cutoff)
      + (if keys[rest] in entries && Recent(entries[keys[rest]], cutoff) != [] then [keys[rest]] else [])
  }

  function Swept(m: Attempts, cutoff: int): Attempts {
    JsMap(LiveKeys(m.entries, m.keys, cutoff),
          map k | k in m.entries && Recent(m.entries[k], cutoff) != [] :: Recent(m.entries[k], cutoff))
  }

  /** Without the first `n` keys. */
  function Drop(m: Attempts, n: nat): Attempts
    requires n <= |m.keys|
  {
    JsMap(m.keys[n..], m.entries - set k | k in m.keys[..n])
  }

  function Capped(m: Attempts): Attempts {
    if |m.keys| > MAX_KEYS then Drop(m, |m.keys| - MAX_KEYS) else m
  }

  function Cleaned(s: State, c: Call): State {
    if |s.attempts.keys| > MAX_KEYS then State(Capped(Swept(s.attempts, c.atSweep - WINDOW_MS)), c.atCleanup)
    else if c.atCleanup - s.lastCleanup < CLEANUP_INTERVAL then s
    else State(Swept(s.attempts, c.atSweep - WINDOW_MS), c.atCleanup)
  }

  function Stored(m: Attempts, key: string): seq<int> {
    if key in m.entries then m.entries[key] else []
  }

  function Kept(s: State, c: Call): seq<int> {
    Recent(Stored(Cleaned(s, c).attempts, c.key), c.time - WINDOW_MS) + [c.time]
  }

  function Step(s: State, c: Call): State {
    Cleaned(s, c).(attempts := Cleaned(s, c).attempts.Put(c.key, Kept(s, c)))
  }

  function Verdict(s: State, c: Call): bool {
    |Kept(s, c)| > MAX_ATTEMPTS
  }

  // ---- the limiter ----

  class Limiter {
    var attempts: Attempts
    var lastCleanup: int

    ghost function View(): State
      reads this
    {
      State(attempts, lastCleanup)
    }

    constructor (now: int)
      ensures View() == State(JsMap([], map[]), now)
    {
      attempts, lastCleanup := JsMap([], map[]), now;
    }

    method Sweep(now: int)
      requires attempts.Valid()
      modifies this`attempts
      ensures attempts == Swept(old(attempts), now - WINDOW_MS) && attempts.Valid()
    {
      hide Recent, LiveKeys, SweptUpTo, Without, JsMap.Put, JsMap.Remove;
      var cutoff := now - WINDOW_MS;
      var before := attempts;
      SweepStart(before, cutoff);
      for i := 0 to |before.keys|
        invariant attempts.Valid()
        invariant attempts.keys == LiveKeys(before.entries, before.keys[..i], cutoff) + before.keys[i..]
        invariant attempts.entries == SweptUpTo(before, i, cutoff)
      {
        var key := before.keys[i];
        var times := Filter(attempts.entries[key], cutoff);
        SweepOne(before, attempts, i, cutoff);
        if times == [] {
          attempts := attempts.Remove(key);
        } else {
          attempts := attempts.Put(key, times);
        }
      }
      SweepEnd(before, cutoff);
    }

    method Filter(times: seq<int>, cutoff: int) returns (r: seq<int>)
      ensures r == Recent(times, cutoff)
    {
      r := [];
      for i := 0 to |times|
        invariant r == Recent(times[..i], cutoff)
      {
        assert times[..i + 1][..i] == times[..i];
        if times[i] > cutoff { r := r + [times[i]]; }
      }
      assert times[..|times|] == times;
    }

    method Evict()
      requires attempts.Valid()
      modifies this`attempts
      ensures attempts == Capped(old(attempts)) && attempts.Valid()
    {
      hide Without;
      ghost var before := attempts;
      ghost var n := 0;
      while |attempts.keys| > MAX_KEYS
        invariant attempts.Valid()
        invariant n <= |before.keys| && attempts == Drop(before, n)
        invariant n > 0 ==> |attempts.keys| >= MAX_KEYS
        decreases |attempts.keys|
      {
        DropOneMore(before, n);
        attempts := attempts.Remove(attempts.keys[0]);
        n := n + 1;
      }
      assert n == 0 ==> Drop(before, 0) == before;
    }

    method Cleanup(c: Call)
      requires attempts.Valid()
      modifies this
      ensures View() == Cleaned(old(View()), c) && attempts.Valid()
    {
      hide Swept, Capped;
      if |attempts.keys| > MAX_KEYS {
        Sweep(c.atSweep);
        Evict();
        lastCleanup := c.atCleanup;
        return;
      }
      if c.atCleanup - lastCleanup < CLEANUP_INTERVAL { return; }
      lastCleanup := c.atCleanup;
      Sweep(c.atSweep);
    }

    method IsRateLimited(c: Call) returns (limited: bool)
      requires attempts.Valid()
      modifies this
      ensures View() == Step(old(View()), c) && limited == Verdict(old(View()), c) && attempts.Valid()
    {
      hide Cleaned, Recent, JsMap.Put;
      Cleanup(c);
      var times: seq<int> := [];
      if attempts.Has(c.key) { times := attempts.entries[c.key]; }
      var recent := Filter(times, c.time - WINDOW_MS);
      recent := recent + [c.time];
      attempts := attempts.Put(c.key, recent);
      limited := |recent| > MAX_ATTEMPTS;
    }
  }

  ghost function SweptUpTo(m: Attempts, i: nat, cutoff: int): map<string, seq<int>>
    requires i <= |m.keys|
  {
    map k | k in m.entries && (k in m.keys[..i] ==> Recent(m.entries[k], cutoff) != []) ::
      if k in m.keys[..i] then Recent(m.entries[k], cutoff) else m.entries[k]
  }

  lemma SweepStart(m: Attempts, cutoff: int)
    ensures m.keys == LiveKeys(m.entries, m.keys[..0], cutoff) + m.keys[0..] && m.entries == SweptUpTo(m, 0, cutoff)
  {
    hide Recent;
  }

  lemma SweepEnd(m: Attempts, cutoff: int)
    requires m.Valid()
    ensures m.keys[|m.keys|..] == []
    ensures LiveKeys(m.entries, m.keys[..|m.keys|], cutoff) + m.keys[|m.keys|..] == Swept(m, cutoff).keys
    ensures SweptUpTo(m, |m.keys|, cutoff) == Swept(m, cutoff).entries
  {
    hide Recent, LiveKeys;
    assert m.keys[..|m.keys|] == m.keys;
  }

  lemma LiveKeysOneMore(m: Attempts, i: nat, cutoff: int)
    requires i < |m.keys| && m.keys[i] in m.entries
    ensures LiveKeys(m.entries, m.keys[..i + 1], cutoff) ==
      LiveKeys(m.entries, m.keys[..i], cutoff) + if Recent(m.entries[m.keys[i]], cutoff) != [] then [m.keys[i]] else []
  {
    assert m.keys[..i + 1][..i] == m.keys[..i];
  }

  lemma SweptOneMore(m: Attempts, i: nat, cutoff: int)
    requires m.Valid() && i < |m.keys|
    ensures var key := m.keys[i]; var r := Recent(m.entries[key], cutoff);
      && key in SweptUpTo(m, i, cutoff) && SweptUpTo(m, i, cutoff)[key] == m.entries[key]
      && SweptUpTo(m, i + 1, cutoff) == if r == [] then SweptUpTo(m, i, cutoff) - {key} else SweptUpTo(m, i, cutoff)[key := r]
  {
    hide Recent;
    assert m.keys[..i + 1] == m.keys[..i] + [m.keys[i]] && m.keys[i] !in m.keys[..i];
  }

  lemma SweepOne(before: Attempts, now: Attempts, i: nat, cutoff: int)
    requires before.Valid() && i < |before.keys|
    requires now.keys == LiveKeys(before.entries, before.keys[..i], cutoff) + before.keys[i..]
    requires now.entries == SweptUpTo(before, i, cutoff)
    ensures var key := before.keys[i];
      && key in now.entries && now.entries[key] == before.entries[key]
      && var r := Recent(before.entries[key], cutoff);
      && (if r == [] then now.Remove(key) else now.Put(key, r)) ==
         JsMap(LiveKeys(before.entries, before.keys[..i + 1], cutoff) + before.keys[i + 1..], SweptUpTo(before, i + 1, cutoff))
  {
    hide Recent, LiveKeys, SweptUpTo, Without;
    SweptOneMore(before, i, cutoff);
    LiveKeysOneMore(before, i, cutoff);
    KeyLeaves(before, i, cutoff);
  }

  lemma KeyLeaves(before: Attempts, i: nat, cutoff: int)
    requires before.Valid() && i < |before.keys|
    ensures var live := LiveKeys(before.entries, before.keys[..i], cutoff);
      && Without(live + before.keys[i..], before.keys[i]) == live + before.keys[i + 1..]
      && live + [before.keys[i]] + before.keys[i + 1..] == live + before.keys[i..]
  {
    hide LiveKeys, Without;
    var key, later := before.keys[i], before.keys[i + 1..];
    var live := LiveKeys(before.entries, before.keys[..i], cutoff);
    assert before.keys[i..] == [key] + later;
    assert live + before.keys[i..] == live + [key] + later;
    WithoutMiddle(live, key, later);
  }

  lemma {:induction false} WithoutAbsent(s: seq<string>, k: string)
    requires k !in s
    ensures Without(s, k) == s
  {
    if s != [] { WithoutAbsent(s[1..], k); assert [s[0]] + s[1..] == s; }
  }

  lemma {:induction false} WithoutMiddle(a: seq<string>, k: string, b: seq<string>)
    requires k !in a && k !in b
    ensures Without(a + [k] + b, k) == a + b
  {
    if a == [] {
      assert a + [k] + b == [k] + b && ([k] + b)[1..] == b && a + b == b;
      WithoutAbsent(b, k);
    } else {
      assert (a + [k] + b)[1..] == a[1..] + [k] + b;
      WithoutMiddle(a[1..], k, b);
      assert [a[0]] + (a[1..] + b) == a + b;
    }
  }

  lemma DropOneMore(m: Attempts, n: nat)
    requires m.Valid() && n < |m.keys|
    ensures Drop(m, n).keys != [] && Drop(m, n).Remove(Drop(m, n).keys[0]) == Drop(m, n + 1)
  {
    hide Without;
    var key, later := m.keys[n], m.keys[n + 1..];
    assert m.keys[n..] == [] + [key] + later;
    WithoutMiddle([], key, later);
    DropEntries(m, n);
    assert [] + later == later;
  }

  lemma DropEntries(m: Attempts, n: nat)
    requires n < |m.keys|
    ensures Drop(m, n).entries - {m.keys[n]} == Drop(m, n + 1).entries
  {
    assert m.keys[..n + 1] == m.keys[..n] + [m.keys[n]];
  }
}
