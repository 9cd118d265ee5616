/** What a worker restart preserves, and which session ids can be issued after it. */
module RelayRestart {
  import opened JsMaps
  import opened RelaySessions
  import opened RelaySessionSafety
  import opened RelaySessionOrder

  function ConnectingIds(s: State): set<TabId> {
    set t | t in s.tabs.entries && s.tabs.entries[t].Connecting?
  }

  lemma {:induction false} PersistedKeys(tabs: JsMap<TabId, Tab>, keys: seq<TabId>, skipped: set<TabId>)
    requires forall t :: t in keys ==> tabs.Has(t) && (t in skipped <==> tabs.entries[t].Connecting?)
    requires forall t :: t in tabs.entries && tabs.entries[t].Connected? ==> tabs.entries[t].targetId != ""
    ensures Ids(Persisted(tabs, keys)) == WithoutAll(keys, skipped)
  {
    if keys != [] {
      var rest := |keys| - 1;
      PersistedKeys(tabs, keys[..rest], skipped);
    }
  }

  lemma WithoutOneLast(keys: seq<TabId>, last: TabId, dead: set<TabId>)
    ensures WithoutAll(keys + [last], dead) == WithoutAll(keys, dead) + if last in dead then [] else [last]
  {
    assert (keys + [last])[..|keys|] == keys;
  }

  lemma {:induction false} WithoutTwice(keys: seq<TabId>, a: set<TabId>, b: set<TabId>)
    ensures WithoutAll(WithoutAll(keys, a), b) == WithoutAll(keys, a + b)
  {
    if keys != [] {
      hide WithoutAll;
      var front, last := keys[..|keys| - 1], keys[|keys| - 1];
      assert keys == front + [last];
      WithoutTwice(front, a, b);
      WithoutOneLast(front, last, a);
      WithoutOneLast(front, last, a + b);
      if last in a {
        assert WithoutAll(front, a) + [] == WithoutAll(front, a);
      } else {
        WithoutOneLast(WithoutAll(front, a), last, b);
      }
    }
  }

  lemma {:induction false} WithoutSame(keys: seq<TabId>, a: set<TabId>, b: set<TabId>)
    requires forall t :: t in keys ==> (t in a <==> t in b)
    ensures WithoutAll(keys, a) == WithoutAll(keys, b)
  {
    if keys != [] {
      hide WithoutAll;
      var front, last := keys[..|keys| - 1], keys[|keys| - 1];
      assert keys == front + [last];
      WithoutSame(front, a, b);
      WithoutOneLast(front, last, a);
      WithoutOneLast(front, last, b);
    }
  }

  /** Saving, losing all memory and rehydrating gives back exactly the connected tabs that still answer: the
      same records in the same order, an index that is exactly theirs, and the same next session number. */
  lemma RestartRestores(s: State, dead: set<TabId>)
    requires Safe(s)
    ensures
      var r := Rehydrate(Save(s, true), true, dead);
      && r.tabs.keys == WithoutAll(s.tabs.keys, dead + ConnectingIds(s))
      && (forall t :: t in r.tabs.entries <==> t in s.tabs.entries && s.tabs.entries[t].Connected? && t !in dead)
      && (forall t :: t in r.tabs.entries ==> r.tabs.entries[t] == s.tabs.entries[t])
      && (forall name, t :: (name in r.tabBySession && r.tabBySession[name] == t) <==> Holds(r, t, name))
      && r.nextSession == s.nextSession
  {
    hide WithoutAll, Rehydrate;
    var saved := Save(s, true);
    var p, r := saved.stored.value.persistedTabs, Rehydrate(saved, true, dead);
    SaveKeeps(s, true);
    PersistedOk(s.tabs, s.tabs.keys, s.nextSession);
    RehydrateExact(saved, dead);
    RestoredRecords(s, p, r, dead);
    PersistedKeys(s.tabs, s.tabs.keys, ConnectingIds(s));
    WithoutTwice(s.tabs.keys, ConnectingIds(s), DeadIn(p, dead));
    WithoutSame(s.tabs.keys, ConnectingIds(s) + DeadIn(p, dead), dead + ConnectingIds(s)) by {
      forall t | t in s.tabs.keys && t in dead && t !in ConnectingIds(s) ensures t in DeadIn(p, dead) {
        assert t in WithoutAll(s.tabs.keys, ConnectingIds(s));
        var i :| 0 <= i < |p| && Ids(p)[i] == t;
        assert p[i].tabId == t;
      }
    }
    RehydrateKeeps(saved, true, dead);
    RehydrateIsComplete(saved, true, dead);
    forall name, t | Holds(r, t, name) ensures name in r.tabBySession && r.tabBySession[name] == t {
    }
  }

  lemma RestoredRecords(s: State, p: seq<PersistedTab>, r: State, dead: set<TabId>)
    requires Safe(s) && AnswersExactly(r, p, dead)
    requires forall e :: e in p <==> e.tabId in s.tabs.keys && s.tabs.Has(e.tabId) && s.tabs.entries[e.tabId] == Record(e)
    ensures forall t :: t in r.tabs.entries <==> t in s.tabs.entries && s.tabs.entries[t].Connected? && t !in dead
    ensures forall t :: t in r.tabs.entries ==> r.tabs.entries[t] == s.tabs.entries[t]
  {
    forall t | t in r.tabs.entries
      ensures t in s.tabs.entries && s.tabs.entries[t].Connected? && r.tabs.entries[t] == s.tabs.entries[t]
    {
      hide Safe;
      var i :| 0 <= i < |p| && Ids(p)[i] == t;
      assert p[i] in p && p[i].tabId == t;
    }
    forall t | t in s.tabs.entries && s.tabs.entries[t].Connected? && t !in dead ensures t in r.tabs.entries {
      RestoredRecord(s, p, r, dead, t);
    }
  }

  lemma RestoredRecord(s: State, p: seq<PersistedTab>, r: State, dead: set<TabId>, t: TabId)
    requires s.tabs.Valid() && AnswersExactly(r, p, dead)
    requires forall e :: e in p <==> e.tabId in s.tabs.keys && s.tabs.Has(e.tabId) && s.tabs.entries[e.tabId] == Record(e)
    requires t in s.tabs.entries && s.tabs.entries[t].Connected? && t !in dead
    ensures t in r.tabs.entries
  {
    var tab := s.tabs.entries[t];
    var e := PersistedTab(t, tab.sessionId, tab.targetId, tab.attachOrder);
    assert e in p;
    var i :| 0 <= i < |p| && p[i] == e;
    assert Ids(p)[i] == t;
  }

  // ---- session ids within one worker life ----

  /** Every connected record of `s` was there at `start`, or was issued since. */
  ghost predicate OldOrNew(start: State, s: State) {
    && start.nextSession <= s.nextSession
    && forall t :: t in s.tabs.entries && s.tabs.entries[t].Connected? ==>
      start.nextSession <= s.tabs.entries[t].attachOrder || exists u :: start.tabs.Get(u) == Some(s.tabs.entries[t])
  }

  lemma StepIssuesNew(start: State, s: State, e: Event)
    requires Safe(start) && Safe(s) && OldOrNew(start, s) && !e.Restart?
    ensures OldOrNew(start, Step(s, e))
  {
    var r := Step(s, e);
    hide Step, Safe;
    if e.TabReplaced? {
      assert forall t :: t in r.tabs.entries ==> exists u :: s.tabs.Get(u) == Some(r.tabs.entries[t]) by {
        ReplaceMoves(s, e);
      }
      assert r.nextSession == s.nextSession by { ReplaceMoves(s, e); }
    } else {
      StepHoldsNoMore(s, e);
      NextGrows(s, e);
    }
  }

  lemma ReplaceMoves(s: State, e: Event)
    requires e.TabReplaced?
    ensures Step(s, e).nextSession == s.nextSession
    ensures forall t :: t in Step(s, e).tabs.entries ==> exists u :: s.tabs.Get(u) == Some(Step(s, e).tabs.entries[t])
  {
    hide Save, Without;
    var r := Step(s, e);
    forall t | t in r.tabs.entries ensures exists u :: s.tabs.Get(u) == Some(r.tabs.entries[t]) {
      if s.tabs.Has(e.removed) && t == e.added {
        assert s.tabs.Get(e.removed) == Some(r.tabs.entries[t]);
      } else {
        assert s.tabs.Get(t) == Some(r.tabs.entries[t]);
      }
    }
  }

  ghost predicate IssuedNumber(tab: Tab, k: nat) {
    tab.Connected? && tab.sessionId == SessionName(k) ==> tab.attachOrder == k
  }

  lemma ResumeGrows(s: State, task: Task, a: Answer)
    ensures s.nextSession <= ResumeStep(s, task, a).nextSession
  {
    hide SessionName, Save, Detach, ForgetSession, Rehydrate, Replace, JsMap.Put, JsMap.Remove;
  }

  lemma StepGrows(s: State, e: Event)
    requires !e.Restart?
    ensures s.nextSession <= Step(s, e).nextSession
  {
    hide ResumeStep, Save, Detach, Rehydrate, Replace, JsMap.Put, JsMap.Remove;
    if e.Resume? { ResumeGrows(s.(tasks := s.tasks - multiset{e.task}), e.task, e.answer); }
  }

  /** Session numbers only grow, and a record named by the next number carries that number. */
  lemma NextGrows(s: State, e: Event)
    requires Safe(s) && !e.Restart?
    ensures s.nextSession <= Step(s, e).nextSession
    ensures forall t :: Step(s, e).tabs.Get(t).Some? ==>
      IssuedNumber(Step(s, e).tabs.entries[t], s.nextSession)
  {
    hide Step;
    StepKeeps(s, e);
    StepGrows(s, e);
    NamesAreNumbers(Step(s, e), s.nextSession);
  }

  lemma NamesAreNumbers(r: State, k: nat)
    requires Safe(r)
    ensures forall t :: r.tabs.Get(t).Some? ==> IssuedNumber(r.tabs.entries[t], k)
  {
    forall t | r.tabs.Get(t).Some? ensures IssuedNumber(r.tabs.entries[t], k) {
      assert Issued(r.tabs.entries[t], r.nextSession);
    }
  }

  lemma {:induction false} RunIssuesNew(start: State, events: seq<Event>)
    requires Safe(start) && forall i :: 0 <= i < |events| ==> !events[i].Restart?
    ensures Safe(Run(start, events)) && OldOrNew(start, Run(start, events))
  {
    hide Step, Safe;
    if events != [] {
      var before := events[..|events| - 1];
      RunIssuesNew(start, before);
      StepKeeps(Run(start, before), events[|events| - 1]);
      StepIssuesNew(start, Run(start, before), events[|events| - 1]);
    } else {
      assert forall t :: t in start.tabs.entries ==> start.tabs.Get(t) == Some(start.tabs.entries[t]);
    }
  }

  /** Within one worker life a session id means one attachment: whatever a tab holds later under a name that
      was live at `start`, in particular right after a restart, is that very record. */
  lemma NoIdIssuedTwice(start: State, events: seq<Event>, t: TabId, u: TabId, name: string)
    requires Safe(start) && forall i :: 0 <= i < |events| ==> !events[i].Restart?
    requires Holds(Run(start, events), t, name) && Holds(start, u, name)
    ensures Run(start, events).tabs.entries[t] == start.tabs.entries[u]
  {
    RunIssuesNew(start, events);
    var r := Run(start, events);
    hide Run;
    assert Issued(r.tabs.entries[t], r.nextSession) && Issued(start.tabs.entries[u], start.nextSession);
    var v :| start.tabs.Get(v) == Some(r.tabs.entries[t]);
    OneHolder(start, v, u, name);
  }
}
