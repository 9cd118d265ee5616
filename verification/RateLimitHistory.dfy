/** The limiter's verdicts against the full history of calls, over every run with a clock that never goes back. */
module RateLimitHistory {
  import opened JsMaps
  import opened RateLimit

  function Start(now: int): State {
    State(JsMap([], map[]), now)
  }

  function Run(now: int, calls: seq<Call>): State {
    if calls == [] then Start(now) else Step(Run(now, calls[..|calls| - 1]), calls[|calls| - 1])
  }

  /** Each call reads the clock three times, and later calls read it later. */
  ghost predicate Clocked(calls: seq<Call>) {
    && (forall i :: 0 <= i < |calls| ==> calls[i].atCleanup <= calls[i].atSweep <= calls[i].time)
    && (forall i, j :: 0 <= i < j < |calls| ==> calls[i].time <= calls[j].atCleanup)
  }

  /** The times of all calls by one key: the history the verdicts are about. */
  function TimesOf(calls: seq<Call>, key: string): seq<int> {
    if calls == [] then []
    else
      var c := calls[|calls| - 1];
      TimesOf(calls[..|calls| - 1], key) + (if c.key == key then [c.time] else [])
  }

  /** The verdict the history calls for: more than ten calls by the key in the last minute, this one included. */
  predicate OverLimit(calls: seq<Call>, c: Call) {
    |Recent(TimesOf(calls + [c], c.key), c.time - 60000)| > 10
  }

  function SetOf(keys: seq<string>): set<string> {
    set k | k in keys
  }

  /** The keys the cap costs in this call. */
  function Evicted(s: State, c: Call): set<string> {
    if |s.attempts.keys| > MAX_KEYS then
      var swept := Swept(s.attempts, c.atSweep - WINDOW_MS);
      if |swept.keys| > MAX_KEYS then SetOf(swept.keys[..|swept.keys| - MAX_KEYS]) else {}
    else {}
  }

  /** When the key was last evicted. */
  function LostAt(now: int, calls: seq<Call>, key: string): Option<int> {
    if calls == [] then None
    else
      var c := calls[|calls| - 1];
      if key in Evicted(Run(now, calls[..|calls| - 1]), c) then Some(c.atSweep) else LostAt(now, calls[..|calls| - 1], key)
  }

  // ---- sorted lists ----

  ghost predicate Sorted(times: seq<int>) {
    forall i, j :: 0 <= i < j < |times| ==> times[i] <= times[j]
  }

  lemma RecentOneMore(front: seq<int>, last: int, cutoff: int)
    ensures Recent(front + [last], cutoff) == Recent(front, cutoff) + if last > cutoff then [last] else []
  {
    assert (front + [last])[..|front|] == front;
  }

  ghost predicate IsCut(times: seq<int>, r: seq<int>, cutoff: int) {
    && |r| <= |times| && r == times[|times| - |r|..]
    && forall i :: 0 <= i < |times| - |r| ==> times[i] <= cutoff
  }

  lemma CutOneMore(front: seq<int>, last: int, r: seq<int>, cutoff: int)
    requires Sorted(front + [last]) && IsCut(front, r, cutoff) && forall t :: t in r ==> t > cutoff
    ensures IsCut(front + [last], r + if last > cutoff then [last] else [], cutoff)
  {
    if r != [] {
      assert r[0] in r;
      assert front[|front| - |r|] == r[0];
      assert (front + [last])[|front| - |r|] == r[0] && (front + [last])[|front|] == last;
    }
  }

  /** Filtering a sorted list cuts off a prefix. */
  lemma {:induction false} RecentCutsPrefix(times: seq<int>, cutoff: int)
    requires Sorted(times)
    ensures IsCut(times, Recent(times, cutoff), cutoff)
  {
    hide Recent;
    if times == [] {
      assert |Recent(times, cutoff)| == 0;
    } else {
      var front, last := times[..|times| - 1], times[|times| - 1];
      assert times == front + [last];
      RecentCutsPrefix(front, cutoff);
      RecentOneMore(front, last, cutoff);
      CutOneMore(front, last, Recent(front, cutoff), cutoff);
    }
  }

  lemma {:induction false} RecentConcat(a: seq<int>, b: seq<int>, cutoff: int)
    ensures Recent(a + b, cutoff) == Recent(a, cutoff) + Recent(b, cutoff)
  {
    if b == [] {
      assert a + b == a;
    } else {
      assert (a + b)[..|a + b| - 1] == a + b[..|b| - 1];
      RecentConcat(a, b[..|b| - 1], cutoff);
    }
  }

  lemma {:induction false} RecentOfOld(times: seq<int>, cutoff: int)
    requires forall i :: 0 <= i < |times| ==> times[i] <= cutoff
    ensures Recent(times, cutoff) == []
  {
    if times != [] { RecentOfOld(times[..|times| - 1], cutoff); }
  }

  lemma {:induction false} RecentTwice(times: seq<int>, early: int, late: int)
    requires early <= late
    ensures Recent(Recent(times, early), late) == Recent(times, late)
  {
    if times != [] {
      var rest := |times| - 1;
      RecentTwice(times[..rest], early, late);
      RecentConcat(Recent(times[..rest], early), if times[rest] > early then [times[rest]] else [], late);
    }
  }

  /** A sweep, at any earlier moment, never changes what a later call counts. */
  lemma SweepIsInvisible(m: Attempts, key: string, early: int, late: int)
    requires early <= late
    ensures Recent(Stored(Swept(m, early), key), late) == Recent(Stored(m, key), late)
  {
    RecentTwice(Stored(m, key), early, late);
  }

  // ---- what is stored for one key ----

  /** The stored list is the history without a prefix, and the prefix is too old to count unless it was evicted. */
  ghost predicate Faithful(stored: seq<int>, times: seq<int>, now: int, lost: Option<int>) {
    && Sorted(times) && (forall i :: 0 <= i < |times| ==> times[i] <= now)
    && |stored| <= |times|
    && var n := |times| - |stored|;
    && stored == times[n..]
    && forall i :: 0 <= i < n ==> times[i] <= now - WINDOW_MS || (lost.Some? && times[i] <= lost.value)
  }

  lemma FilteredStaysFaithful(stored: seq<int>, times: seq<int>, now: int, later: int, lost: Option<int>)
    requires Faithful(stored, times, now, lost) && now <= later
    ensures Faithful(Recent(stored, later - WINDOW_MS), times, later, lost)
  {
    hide Recent;
    assert Sorted(stored) by { SuffixIsSorted(times, |times| - |stored|); }
    RecentCutsPrefix(stored, later - WINDOW_MS);
    CutStaysFaithful(stored, Recent(stored, later - WINDOW_MS), times, now, later, lost);
  }

  lemma SuffixIsSorted(times: seq<int>, n: nat)
    requires Sorted(times) && n <= |times|
    ensures Sorted(times[n..])
  {
  }

  lemma CutStaysFaithful(stored: seq<int>, kept: seq<int>, times: seq<int>, now: int, later: int, lost: Option<int>)
    requires Faithful(stored, times, now, lost) && now <= later && IsCut(stored, kept, later - WINDOW_MS)
    ensures Faithful(kept, times, later, lost)
  {
    hide Sorted;
    var n, m := |times| - |stored|, |times| - |kept|;
    assert stored[m - n..] == times[m..];
    forall i | n <= i < m ensures times[i] <= later - WINDOW_MS {
      assert times[i] == stored[i - n];
    }
  }

  lemma LaterStaysFaithful(stored: seq<int>, times: seq<int>, now: int, later: int, lost: Option<int>)
    requires Faithful(stored, times, now, lost) && now <= later
    ensures Faithful(stored, times, later, lost)
  {
  }

  lemma EvictedIsFaithful(stored: seq<int>, times: seq<int>, now: int, later: int, lost: Option<int>)
    requires Faithful(stored, times, now, lost) && now <= later
    ensures Faithful([], times, later, Some(later))
  {
  }

  /** Cleanup prunes, evicts or leaves alone; whichever it does, the stored list stays faithful. */
  lemma CleanupStaysFaithful(s: State, c: Call, times: seq<int>, now: int, lost: Option<int>, key: string)
    requires s.attempts.Valid()
    requires Faithful(Stored(s.attempts, key), times, now, lost) && now <= c.atSweep
    ensures Faithful(Stored(Cleaned(s, c).attempts, key), times, c.atSweep,
                     if key in Evicted(s, c) then Some(c.atSweep) else lost)
  {
    hide Recent, Faithful, LiveKeys;
    var stored := Stored(s.attempts, key);
    FilteredStaysFaithful(stored, times, now, c.atSweep, lost);
    LaterStaysFaithful(stored, times, now, c.atSweep, lost);
    EvictedIsFaithful(stored, times, now, c.atSweep, lost);
    assert Recent([], c.atSweep - WINDOW_MS) == [] by { RecentOfOld([], c.atSweep - WINDOW_MS); }
  }

  lemma AddedStaysFaithful(stored: seq<int>, times: seq<int>, now: int, time: int, lost: Option<int>)
    requires Faithful(stored, times, now, lost) && now <= time
    ensures Faithful(Recent(stored, time - WINDOW_MS) + [time], times + [time], time, lost)
  {
    FilteredStaysFaithful(stored, times, now, time, lost);
    var kept := Recent(stored, time - WINDOW_MS);
    var n := |times| - |kept|;
    assert (times + [time])[n..] == times[n..] + [time];
  }

  lemma ClockedPrefix(calls: seq<Call>, c: Call)
    requires Clocked(calls + [c])
    ensures Clocked(calls) && c.atCleanup <= c.atSweep <= c.time && forall i :: 0 <= i < |calls| ==> calls[i].time <= c.atCleanup
  {
    var all := calls + [c];
    assert all[|calls|] == c;
    assert forall i :: 0 <= i < |calls| ==> all[i] == calls[i];
  }

  lemma StepStaysFaithful(s: State, c: Call, times: seq<int>, lost: Option<int>, key: string)
    requires s.attempts.Valid() && c.atCleanup <= c.atSweep <= c.time
    requires Faithful(Stored(s.attempts, key), times, c.atCleanup, lost)
    ensures Faithful(Stored(Step(s, c).attempts, key), if c.key == key then times + [c.time] else times, c.time,
      if key in Evicted(s, c) then Some(c.atSweep) else lost)
  {
    hide Recent, Faithful, Cleaned, Evicted, JsMap.Put;
    CleanupStaysFaithful(s, c, times, c.atCleanup, lost, key);
    var lost1 := if key in Evicted(s, c) then Some(c.atSweep) else lost;
    var stored := Stored(Cleaned(s, c).attempts, key);
    AddedStaysFaithful(stored, times, c.atSweep, c.time, lost1);
    LaterStaysFaithful(stored, times, c.atSweep, c.time, lost1);
  }

  lemma NothingIsFaithful(at: int)
    ensures Faithful([], [], at, None)
  {
  }

  lemma {:induction false} RunIsFaithful(now: int, calls: seq<Call>, key: string, at: int)
    requires Clocked(calls) && (forall i :: 0 <= i < |calls| ==> calls[i].time <= at)
    ensures Faithful(Stored(Run(now, calls).attempts, key), TimesOf(calls, key), at, LostAt(now, calls, key))
  {
    hide Faithful, Step, Evicted, Clocked;
    if calls != [] {
      var before, c := calls[..|calls| - 1], calls[|calls| - 1];
      assert before + [c] == calls;
      ClockedPrefix(before, c);
      RunIsFaithful(now, before, key, c.atCleanup);
      Bounded(now, before);
      StepStaysFaithful(Run(now, before), c, TimesOf(before, key), LostAt(now, before, key), key);
      assert TimesOf(before, key) + [] == TimesOf(before, key);
      LaterStaysFaithful(Stored(Run(now, calls).attempts, key), TimesOf(calls, key), c.time, at, LostAt(now, calls, key));
    } else {
      NothingIsFaithful(at);
    }
  }

  lemma {:induction false} LiveKeysDistinct(entries: map<string, seq<int>>, keys: seq<string>, cutoff: int)
    requires Distinct(keys)
    ensures Distinct(LiveKeys(entries, keys, cutoff)) && |LiveKeys(entries, keys, cutoff)| <= |keys|
  {
    hide Recent;
    if keys != [] { LiveKeysDistinct(entries, keys[..|keys| - 1], cutoff); }
  }

  lemma SweptIsValid(m: Attempts, cutoff: int)
    requires m.Valid()
    ensures Swept(m, cutoff).Valid() && |Swept(m, cutoff).keys| <= |m.keys|
  {
    hide Recent;
    LiveKeysDistinct(m.entries, m.keys, cutoff);
  }

  lemma CappedIsValid(m: Attempts)
    requires m.Valid()
    ensures Capped(m).Valid() && |Capped(m).keys| <= MAX_KEYS
  {
  }

  lemma CleanedIsValid(s: State, c: Call)
    requires s.attempts.Valid()
    ensures Cleaned(s, c).attempts.Valid() && |Cleaned(s, c).attempts.keys| <= MAX_KEYS
  {
    hide Swept, Capped;
    SweptIsValid(s.attempts, c.atSweep - WINDOW_MS);
    CappedIsValid(Swept(s.attempts, c.atSweep - WINDOW_MS));
  }

  // ---- the verdicts ----

  /** In every run the map never holds more than MAX_KEYS + 1 keys. */
  lemma {:induction false} Bounded(now: int, calls: seq<Call>)
    ensures Run(now, calls).attempts.Valid() && |Run(now, calls).attempts.keys| <= MAX_KEYS + 1
  {
    if calls != [] {
      Bounded(now, calls[..|calls| - 1]);
      CleanedIsValid(Run(now, calls[..|calls| - 1]), calls[|calls| - 1]);
      hide Cleaned, Kept;
    }
  }

  lemma CountsFromHistory(stored: seq<int>, times: seq<int>, now: int, time: int, lost: Option<int>)
    requires Faithful(stored, times, now, lost) && now <= time
    ensures |Recent(stored, time - WINDOW_MS)| <= |Recent(times, time - WINDOW_MS)|
    ensures lost.None? || lost.value <= time - WINDOW_MS ==> Recent(stored, time - WINDOW_MS) == Recent(times, time - WINDOW_MS)
  {
    var n, cutoff := |times| - |stored|, time - WINDOW_MS;
    assert times == times[..n] + stored;
    RecentConcat(times[..n], stored, cutoff);
    if lost.None? || lost.value <= cutoff { RecentOfOld(times[..n], cutoff); }
  }

  /** In every run a caller is limited only if the history says so; and it is limited exactly then, unless the
      cap evicted its key within the last minute. */
  lemma VerdictMatchesHistory(now: int, calls: seq<Call>, c: Call)
    requires Clocked(calls + [c])
    ensures Verdict(Run(now, calls), c) ==> OverLimit(calls, c)
    ensures var lost := LostAt(now, calls + [c], c.key);
      lost.None? || lost.value <= c.time - WINDOW_MS ==> (Verdict(Run(now, calls), c) <==> OverLimit(calls, c))
  {
    hide Recent, Faithful, Cleaned, Clocked, Evicted, Run;
    var s, key := Run(now, calls), c.key;
    ClockedPrefix(calls, c);
    RunIsFaithful(now, calls, key, c.atCleanup);
    Bounded(now, calls);
    var times, lost := TimesOf(calls, key), LostAt(now, calls, key);
    var lost1 := if key in Evicted(s, c) then Some(c.atSweep) else lost;
    CleanupStaysFaithful(s, c, times, c.atCleanup, lost, key);
    CountsFromHistory(Stored(Cleaned(s, c).attempts, key), times, c.atSweep, c.time, lost1);
    OneMoreCall(now, calls, c);
    RecentConcat(times, [c.time], c.time - WINDOW_MS);
    RecentOfOne(c.time);
  }

  lemma OneMoreCall(now: int, calls: seq<Call>, c: Call)
    ensures TimesOf(calls + [c], c.key) == TimesOf(calls, c.key) + [c.time]
    ensures LostAt(now, calls + [c], c.key) ==
      if c.key in Evicted(Run(now, calls), c) then Some(c.atSweep) else LostAt(now, calls, c.key)
  {
    hide Evicted, Run;
    assert (calls + [c])[..|calls|] == calls;
  }

  lemma RecentOfOne(time: int)
    ensures Recent([time], time - WINDOW_MS) == [time]
  {
    assert [time][..0] == [];
  }

  // ---- when the cap bites ----

  /** The keys with a call after `cutoff`. */
  function ActiveKeys(calls: seq<Call>, cutoff: int): set<string> {
    set i | 0 <= i < |calls| && calls[i].time > cutoff :: calls[i].key
  }

  lemma {:induction false} RecentTimeIsACall(calls: seq<Call>, key: string, t: int)
    requires t in TimesOf(calls, key)
    ensures exists i :: 0 <= i < |calls| && calls[i].key == key && calls[i].time == t
  {
    var before, c := calls[..|calls| - 1], calls[|calls| - 1];
    if t in TimesOf(before, key) {
      RecentTimeIsACall(before, key, t);
      var i :| 0 <= i < |before| && before[i].key == key && before[i].time == t;
      assert calls[i] == before[i];
    } else {
      assert calls[|calls| - 1].key == key;
    }
  }

  lemma {:induction false} DistinctCount(keys: seq<string>, s: set<string>)
    requires Distinct(keys) && forall k :: k in keys ==> k in s
    ensures |keys| <= |s|
  {
    if keys != [] {
      var last := keys[|keys| - 1];
      assert last in keys;
      DistinctCount(keys[..|keys| - 1], s - {last});
    }
  }

  lemma LiveKeyIsActive(now: int, calls: seq<Call>, at: int, key: string)
    requires Clocked(calls) && (forall i :: 0 <= i < |calls| ==> calls[i].time <= at)
    requires key in Swept(Run(now, calls).attempts, at - WINDOW_MS).keys
    ensures key in ActiveKeys(calls, at - WINDOW_MS)
  {
    RunIsFaithful(now, calls, key, at);
    var s, times := Run(now, calls), TimesOf(calls, key);
    hide Run, LostAt, TimesOf, Clocked, LiveKeys;
    var recent := Recent(s.attempts.entries[key], at - WINDOW_MS);
    assert recent[0] in recent;
    assert recent[0] in Stored(s.attempts, key) && recent[0] in times;
    RecentTimeIsACall(calls, key, recent[0]);
  }

  /** A key is evicted only when more than MAX_KEYS different keys called within the last minute. */
  lemma EvictionNeedsLoad(now: int, calls: seq<Call>, c: Call)
    requires Clocked(calls + [c]) && Evicted(Run(now, calls), c) != {}
    ensures |ActiveKeys(calls, c.atSweep - WINDOW_MS)| > MAX_KEYS
  {
    hide Clocked, Run, ActiveKeys, Swept;
    ClockedPrefix(calls, c);
    var swept := Swept(Run(now, calls).attempts, c.atSweep - WINDOW_MS);
    Bounded(now, calls);
    SweptIsValid(Run(now, calls).attempts, c.atSweep - WINDOW_MS);
    forall k | k in swept.keys ensures k in ActiveKeys(calls, c.atSweep - WINDOW_MS) {
      LiveKeyIsActive(now, calls, c.atSweep, k);
    }
    DistinctCount(swept.keys, ActiveKeys(calls, c.atSweep - WINDOW_MS));
  }

  ghost predicate NeverOverloaded(calls: seq<Call>) {
    forall i :: 0 <= i < |calls| ==> |ActiveKeys(calls[..i], calls[i].atSweep - WINDOW_MS)| <= MAX_KEYS
  }

  lemma {:induction false} NothingLost(now: int, calls: seq<Call>, key: string)
    requires Clocked(calls) && NeverOverloaded(calls)
    ensures LostAt(now, calls, key).None?
  {
    hide Clocked, ActiveKeys, Evicted, Run;
    if calls != [] {
      var before, c := calls[..|calls| - 1], calls[|calls| - 1];
      assert before + [c] == calls;
      assert forall i :: 0 <= i < |before| ==> before[..i] == calls[..i];
      ClockedPrefix(before, c);
      NothingLost(now, before, key);
      if Evicted(Run(now, before), c) != {} { EvictionNeedsLoad(now, before, c); }
    }
  }

  /** As long as at most MAX_KEYS different keys call within a minute, every verdict is exactly the history's. */
  lemma ExactUnderLoad(now: int, calls: seq<Call>, c: Call)
    requires Clocked(calls + [c]) && NeverOverloaded(calls + [c])
    ensures Verdict(Run(now, calls), c) <==> OverLimit(calls, c)
  {
    NothingLost(now, calls + [c], c.key);
    VerdictMatchesHistory(now, calls, c);
  }

  // ---- what cleanup keeps ----

  /** The key called within the last minute, by its stored times. */
  ghost predicate Fresh(m: Attempts, key: string, now: int) {
    exists t :: t in Stored(m, key) && t > now - 60000
  }

  /** Cleanup does nothing until five minutes after the last one, unless there are more than ten thousand keys. When it runs,
      it leaves only fresh keys, in their order, and every fresh key unless the cap is exceeded: then the ten thousand that
      were entered last. */
  lemma CleanupExactly(s: State, c: Call)
    requires s.attempts.Valid()
    ensures var r, over := Cleaned(s, c), |s.attempts.keys| > 10000;
      if !over && c.atCleanup - s.lastCleanup < 300000 then r == s
      else
        var kept := Swept(s.attempts, c.atSweep - 60000).keys;
        && r.lastCleanup == c.atCleanup && |r.attempts.keys| <= |kept|
        && r.attempts.keys == kept[|kept| - |r.attempts.keys|..]
        && (|r.attempts.keys| < |kept| ==> over && |r.attempts.keys| == 10000)
  {
    hide Swept;
    var kept := Swept(s.attempts, c.atSweep - WINDOW_MS).keys;
    assert kept[0..] == kept;
  }

  lemma SweptAreFresh(m: Attempts, now: int, key: string)
    requires m.Valid()
    ensures key in Swept(m, now - 60000).keys <==> Fresh(m, key, now)
  {
    hide Recent, LiveKeys;
    var r := Recent(Stored(m, key), now - 60000);
    RecentOfNothing(now - 60000);
    if r != [] { assert r[0] in r; }
    assert r != [] <==> Fresh(m, key, now);
  }

  lemma RecentOfNothing(cutoff: int)
    ensures Recent([], cutoff) == []
  {
  }
}
