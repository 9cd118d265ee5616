/** What every interleaving of the worker's pieces keeps, and where keeping it depends on the order. */
module RelaySessionSafety {
  import opened JsMaps
  import opened RelaySessions

  /** Tab `t` is connected under session `name`. */
  ghost predicate Holds(s: State, t: TabId, name: string) {
    s.tabs.Has(t) && s.tabs.entries[t].Connected? && s.tabs.entries[t].sessionId == name
  }

  /** A connected record carries the name of a session issued before `next`. */
  ghost predicate Issued(tab: Tab, next: nat) {
    tab.Connected? ==>
      && 1 <= tab.attachOrder < next
      && tab.sessionId == SessionName(tab.attachOrder)
      && tab.targetId != ""
  }

  ghost predicate OneTabPerSession(tabs: map<TabId, Tab>) {
    forall t, u :: t in tabs && u in tabs && t != u && tabs[t].Connected? && tabs[u].Connected?
      ==> tabs[t].attachOrder != tabs[u].attachOrder
  }

  /** The index never leads from a live session to a tab other than its own. */
  ghost predicate NeverMisrouted(s: State) {
    forall t :: t in s.tabs.entries && s.tabs.entries[t].Connected? && s.tabs.entries[t].sessionId in s.tabBySession
      ==> s.tabBySession[s.tabs.entries[t].sessionId] == t
  }

  ghost predicate NoFutureNames(s: State) {
    forall k: nat :: k >= s.nextSession ==> SessionName(k) !in s.tabBySession
  }

  function Record(e: PersistedTab): Tab {
    Connected(e.sessionId, e.targetId, e.attachOrder)
  }

  function Ids(p: seq<PersistedTab>): (r: seq<TabId>)
    ensures |r| == |p|
  {
    seq(|p|, i requires 0 <= i < |p| => p[i].tabId)
  }

  ghost predicate SnapshotOk(p: seq<PersistedTab>, next: nat) {
    && 1 <= next
    && (forall i :: 0 <= i < |p| ==> Issued(Record(p[i]), next))
    && (forall i, j :: 0 <= i < j < |p| ==> p[i].tabId != p[j].tabId && p[i].attachOrder != p[j].attachOrder)
  }

  ghost predicate TablesOk(s: State) {
    && 1 <= s.nextSession
    && s.tabs.Valid()
    && (forall t :: t in s.tabs.entries ==> Issued(s.tabs.entries[t], s.nextSession))
    && OneTabPerSession(s.tabs.entries)
    && NeverMisrouted(s)
    && NoFutureNames(s)
  }

  function Captured(task: Task): Tab {
    match task
    case ReattachTimer(_, seen) => seen
    case ReattachLookup(_, seen) => seen
    case Probe(_, seen) => seen
    case _ => Connecting
  }

  ghost predicate TasksOk(s: State) {
    forall task :: task in s.tasks ==> Issued(Captured(task), s.nextSession)
  }

  /** Kept by every interleaving whatsoever. */
  ghost predicate Safe(s: State) {
    && TablesOk(s)
    && TasksOk(s)
    && (s.stored.Some? ==> SnapshotOk(s.stored.value.persistedTabs, s.stored.value.nextSession))
  }

  // ---- each piece keeps Safe ----

  lemma AttachKeeps(s: State, t: TabId, targetId: string)
    requires Safe(s) && targetId != ""
    ensures Safe(Attach(s, t, targetId))
  {
    hide SessionNumber, Without, JsMap.Remove;
  }

  lemma DetachKeeps(s: State, t: TabId)
    requires Safe(s)
    ensures Safe(Detach(s, t))
  {
  }

  /** A record that moves to another tab id stays the only one with its session. */
  lemma MovedRecord(tabs: map<TabId, Tab>, added: TabId, removed: TabId, next: nat)
    requires removed in tabs && OneTabPerSession(tabs)
    requires forall t :: t in tabs ==> Issued(tabs[t], next)
    ensures OneTabPerSession((tabs - {removed})[added := tabs[removed]])
    ensures forall t :: t in tabs && t != removed && tabs[t].Connected? && tabs[removed].Connected? ==>
      tabs[t].sessionId != tabs[removed].sessionId
  {
    forall t | t in tabs && t != removed && tabs[t].Connected? && tabs[removed].Connected?
      ensures tabs[t].sessionId != tabs[removed].sessionId
    {
      assert Issued(tabs[t], next) && Issued(tabs[removed], next);
    }
  }

  lemma ReplaceKeeps(s: State, added: TabId, removed: TabId)
    requires Safe(s) && s.tabs.Has(removed)
    ensures Safe(Replace(s, added, removed))
  {
    MovedRecord(s.tabs.entries, added, removed, s.nextSession);
    var r := Replace(s, added, removed);
    assert r.tabs.entries == (s.tabs.entries - {removed})[added := s.tabs.entries[removed]];
    assert NeverMisrouted(r);
  }

  lemma DropKeeps(s: State, t: TabId)
    requires Safe(s)
    ensures Safe(DropTab(s, t))
  {
  }

  lemma ForgetAndDropKeep(s: State, t: TabId, seen: Tab)
    requires Safe(s)
    ensures Safe(DropTab(ForgetSession(s, seen), t)) && Safe(ForgetSession(DropTab(s, t), seen))
  {
  }

  lemma {:induction false} PersistedOk(tabs: JsMap<TabId, Tab>, keys: seq<TabId>, next: nat)
    requires 1 <= next && Distinct(keys)
    requires forall t :: t in tabs.entries ==> Issued(tabs.entries[t], next)
    requires OneTabPerSession(tabs.entries)
    ensures SnapshotOk(Persisted(tabs, keys), next)
    ensures forall e :: e in Persisted(tabs, keys) <==>
      e.tabId in keys && tabs.Has(e.tabId) && tabs.entries[e.tabId] == Record(e)
  {
    if keys != [] {
      var rest := |keys| - 1;
      PersistedOk(tabs, keys[..rest], next);
      assert keys == keys[..rest] + [keys[rest]];
      assert keys[rest] !in keys[..rest];
      var p := Persisted(tabs, keys[..rest]);
      assert forall i :: 0 <= i < |p| ==> p[i] in p;
    }
  }

  lemma SaveKeeps(s: State, saved: bool)
    requires Safe(s)
    ensures Safe(Save(s, saved))
  {
    PersistedOk(s.tabs, s.tabs.keys, s.nextSession);
  }

  // ---- a restart ----

  function TabsOf(p: seq<PersistedTab>): map<TabId, Tab> {
    if p == [] then map[] else var e := p[|p| - 1]; TabsOf(p[..|p| - 1])[e.tabId := Record(e)]
  }

  function IndexOf(p: seq<PersistedTab>): map<string, TabId> {
    if p == [] then map[] else var e := p[|p| - 1]; IndexOf(p[..|p| - 1])[e.sessionId := e.tabId]
  }

  function WithoutAll(keys: seq<TabId>, dead: set<TabId>): (r: seq<TabId>)
    ensures forall t :: t in r <==> t in keys && t !in dead
  {
    if keys == [] then []
    else
      var rest := |keys| - 1;
      WithoutAll(keys[..rest], dead) + (if keys[rest] in dead then [] else [keys[rest]])
  }

  lemma WithoutNone(keys: seq<TabId>)
    ensures WithoutAll(keys, {}) == keys
  {
  }

  ghost predicate AllDistinct(p: seq<PersistedTab>) {
    forall i, j :: 0 <= i < j < |p| ==> p[i].tabId != p[j].tabId && p[i].sessionId != p[j].sessionId
  }

  lemma SnapshotDistinct(p: seq<PersistedTab>, next: nat)
    requires SnapshotOk(p, next)
    ensures AllDistinct(p)
  {
    forall i, j | 0 <= i < j < |p| ensures p[i].sessionId != p[j].sessionId {
      assert Issued(Record(p[i]), next) && Issued(Record(p[j]), next);
    }
  }

  lemma {:induction false} RebuiltTabs(p: seq<PersistedTab>)
    requires AllDistinct(p)
    ensures forall t :: t in TabsOf(p) <==> t in Ids(p)
    ensures forall i :: 0 <= i < |p| ==> p[i].tabId in TabsOf(p) && TabsOf(p)[p[i].tabId] == Record(p[i])
  {
    RebuiltIds(p);
    if p != [] {
      hide TabsOf, Ids, Record;
      var rest := |p| - 1;
      RebuiltTabs(p[..rest]);
      TabsOfLast(p);
      forall i | 0 <= i < |p| ensures p[i].tabId in TabsOf(p) && TabsOf(p)[p[i].tabId] == Record(p[i]) {
        if i < rest { assert p[..rest][i] == p[i] && p[i].tabId != p[rest].tabId; }
      }
    }
  }

  lemma {:induction false} RebuiltIds(p: seq<PersistedTab>)
    ensures forall t :: t in TabsOf(p) <==> t in Ids(p)
  {
    if p != [] {
      var rest := |p| - 1;
      RebuiltIds(p[..rest]);
      hide TabsOf;
      TabsOfLast(p);
      assert Ids(p) == Ids(p[..rest]) + [p[rest].tabId];
    }
  }

  lemma TabsOfLast(p: seq<PersistedTab>)
    requires p != []
    ensures var e := p[|p| - 1]; TabsOf(p) == TabsOf(p[..|p| - 1])[e.tabId := Record(e)]
  {
  }

  lemma IndexOfLast(p: seq<PersistedTab>)
    requires p != []
    ensures var e := p[|p| - 1]; IndexOf(p) == IndexOf(p[..|p| - 1])[e.sessionId := e.tabId]
  {
  }

  lemma {:induction false} RebuiltIndex(p: seq<PersistedTab>)
    requires AllDistinct(p)
    ensures forall i :: 0 <= i < |p| ==> p[i].sessionId in IndexOf(p) && IndexOf(p)[p[i].sessionId] == p[i].tabId
    ensures forall name :: name in IndexOf(p) ==> exists i :: 0 <= i < |p| && p[i].sessionId == name
  {
    if p != [] {
      var rest := |p| - 1;
      hide IndexOf;
      RebuiltIndex(p[..rest]);
      IndexOfLast(p);
      forall name | name in IndexOf(p) ensures exists i :: 0 <= i < |p| && p[i].sessionId == name {
        if name != p[rest].sessionId {
          var i :| 0 <= i < rest && p[..rest][i].sessionId == name;
          assert p[i].sessionId == name;
        } else {
          assert p[rest].sessionId == name;
        }
      }
    }
  }

  lemma {:induction false} RestoreBuilds(s: State, p: seq<PersistedTab>)
    requires s.tabs == JsMap([], map[]) && s.tabBySession == map[]
    requires forall i, j :: 0 <= i < j < |p| ==> p[i].tabId != p[j].tabId
    ensures Restore(s, p) == s.(tabs := JsMap(Ids(p), TabsOf(p)), tabBySession := IndexOf(p))
    ensures TabsOf(p).Keys == set t | t in Ids(p)
  {
    if p != [] {
      var rest := |p| - 1;
      RestoreBuilds(s, p[..rest]);
      hide TabsOf, IndexOf;
      TabsOfLast(p);
      IndexOfLast(p);
      assert Ids(p) == Ids(p[..rest]) + [p[rest].tabId];
    }
  }

  lemma {:induction false} WithoutOneMore(keys: seq<TabId>, dead: set<TabId>, t: TabId)
    ensures Without(WithoutAll(keys, dead), t) == WithoutAll(keys, dead + {t})
  {
    if keys != [] {
      var rest := |keys| - 1;
      WithoutOneMore(keys[..rest], dead, t);
      var last := if keys[rest] in dead then [] else [keys[rest]];
      WithoutConcat(WithoutAll(keys[..rest], dead), last, t);
    }
  }

  lemma {:induction false} WithoutConcat(a: seq<TabId>, b: seq<TabId>, t: TabId)
    ensures Without(a + b, t) == Without(a, t) + Without(b, t)
  {
    if a == [] {
      assert a + b == b;
    } else {
      assert (a + b)[1..] == a[1..] + b;
      WithoutConcat(a[1..], b, t);
    }
  }

  function DeadIn(p: seq<PersistedTab>, dead: set<TabId>): set<TabId> {
    set i | 0 <= i < |p| && p[i].tabId in dead :: p[i].tabId
  }

  function DeadNames(p: seq<PersistedTab>, dead: set<TabId>): set<string> {
    set i | 0 <= i < |p| && p[i].tabId in dead :: p[i].sessionId
  }

  lemma {:induction false} ValidateRemoves(s: State, p: seq<PersistedTab>, dead: set<TabId>)
    ensures Validate(s, p, dead) == s.(
      tabs := JsMap(WithoutAll(s.tabs.keys, DeadIn(p, dead)), s.tabs.entries - DeadIn(p, dead)),
      tabBySession := s.tabBySession - DeadNames(p, dead))
  {
    if p == [] {
      WithoutNone(s.tabs.keys);
      assert DeadIn(p, dead) == {} && DeadNames(p, dead) == {};
    } else {
      hide DeadIn, DeadNames, WithoutAll, Without;
      var rest := |p| - 1;
      ValidateRemoves(s, p[..rest], dead);
      DeadOneMore(p, dead);
      if p[rest].tabId in dead {
        WithoutOneMore(s.tabs.keys, DeadIn(p[..rest], dead), p[rest].tabId);
        MinusTwice(s.tabs.entries, DeadIn(p[..rest], dead), p[rest].tabId);
        MinusTwice(s.tabBySession, DeadNames(p[..rest], dead), p[rest].sessionId);
      }
    }
  }

  lemma DeadOneMore(p: seq<PersistedTab>, dead: set<TabId>)
    requires p != []
    ensures var e, before := p[|p| - 1], p[..|p| - 1];
      if e.tabId in dead
      then DeadIn(p, dead) == DeadIn(before, dead) + {e.tabId} && DeadNames(p, dead) == DeadNames(before, dead) + {e.sessionId}
      else DeadIn(p, dead) == DeadIn(before, dead) && DeadNames(p, dead) == DeadNames(before, dead)
  {
    assert p == p[..|p| - 1] + [p[|p| - 1]];
  }

  lemma MinusTwice<K, V>(m: map<K, V>, a: set<K>, x: K)
    ensures m - a - {x} == m - (a + {x})
  {
  }

  /** After a readable restart the two tables hold exactly the stored tabs that still answer. */
  lemma RehydrateExact(s: State, dead: set<TabId>)
    requires s.stored.Some?
    requires SnapshotOk(s.stored.value.persistedTabs, s.stored.value.nextSession)
    ensures
      var p, r := s.stored.value.persistedTabs, Rehydrate(s, true, dead);
      && r == FirstStart.(stored := s.stored, nextSession := s.stored.value.nextSession,
        tabs := JsMap(WithoutAll(Ids(p), DeadIn(p, dead)), TabsOf(p) - DeadIn(p, dead)),
        tabBySession := IndexOf(p) - DeadNames(p, dead))
      && AnswersExactly(r, p, dead)
  {
    var p, next := s.stored.value.persistedTabs, s.stored.value.nextSession;
    var s1 := FirstStart.(stored := s.stored, nextSession := next);
    SnapshotDistinct(p, next);
    RestoreBuilds(s1, p);
    ValidateRemoves(Restore(s1, p), p, dead);
    TablesAnswer(p, dead, Rehydrate(s, true, dead));
  }

  /** A stored tab outside `dead` is found in both tables, and nothing else is. */
  ghost predicate AnswersExactly(r: State, p: seq<PersistedTab>, dead: set<TabId>) {
    && (forall t :: t in r.tabs.entries <==> t in Ids(p) && t !in dead)
    && (forall i :: 0 <= i < |p| && p[i].tabId !in dead ==> r.tabs.Get(p[i].tabId) == Some(Record(p[i])))
    && (forall i :: 0 <= i < |p| && p[i].tabId !in dead ==>
      p[i].sessionId in r.tabBySession && r.tabBySession[p[i].sessionId] == p[i].tabId)
    && (forall name :: name in r.tabBySession ==> Holds(r, r.tabBySession[name], name))
  }

  lemma TablesAnswer(p: seq<PersistedTab>, dead: set<TabId>, r: State)
    requires AllDistinct(p)
    requires r.tabs.entries == TabsOf(p) - DeadIn(p, dead) && r.tabBySession == IndexOf(p) - DeadNames(p, dead)
    ensures AnswersExactly(r, p, dead)
  {
    hide TabsOf, IndexOf;
    RebuiltTabs(p);
    IndexAnswers(p, dead, r);
  }

  lemma IndexAnswers(p: seq<PersistedTab>, dead: set<TabId>, r: State)
    requires AllDistinct(p)
    requires r.tabs.entries == TabsOf(p) - DeadIn(p, dead) && r.tabBySession == IndexOf(p) - DeadNames(p, dead)
    ensures forall i :: 0 <= i < |p| && p[i].tabId !in dead ==>
      p[i].sessionId in r.tabBySession && r.tabBySession[p[i].sessionId] == p[i].tabId
    ensures forall name :: name in r.tabBySession ==> Holds(r, r.tabBySession[name], name)
  {
    hide TabsOf, IndexOf;
    RebuiltTabs(p);
    RebuiltIndex(p);
    forall i | 0 <= i < |p| && p[i].tabId !in dead ensures p[i].sessionId in r.tabBySession {
      assert p[i].sessionId !in DeadNames(p, dead);
    }
    forall name | name in r.tabBySession ensures Holds(r, r.tabBySession[name], name) {
      var i :| 0 <= i < |p| && p[i].sessionId == name;
      assert p[i].tabId !in dead;
      assert r.tabs.entries[p[i].tabId] == Record(p[i]);
    }
  }

  lemma {:induction false} WithoutAllKeepsDistinct(keys: seq<TabId>, dead: set<TabId>)
    requires Distinct(keys)
    ensures Distinct(WithoutAll(keys, dead))
  {
    if keys != [] {
      WithoutAllKeepsDistinct(keys[..|keys| - 1], dead);
    }
  }

  lemma RehydrateKeeps(s: State, readable: bool, dead: set<TabId>)
    requires Safe(s)
    ensures Safe(Rehydrate(s, readable, dead))
  {
    if readable && s.stored.Some? {
      RehydrateExact(s, dead);
      var p, r := s.stored.value.persistedTabs, Rehydrate(s, readable, dead);
      WithoutAllKeepsDistinct(Ids(p), DeadIn(p, dead));
      AnswersSafely(r, p, dead);
    }
  }

  lemma AnswersSafely(r: State, p: seq<PersistedTab>, dead: set<TabId>)
    requires AnswersExactly(r, p, dead) && SnapshotOk(p, r.nextSession)
    requires r.tabs.Valid()
    ensures TablesOk(r)
  {
    forall t | t in r.tabs.entries
      ensures exists i :: 0 <= i < |p| && p[i].tabId == t && r.tabs.entries[t] == Record(p[i])
    {
      var i :| 0 <= i < |p| && Ids(p)[i] == t;
      assert p[i].tabId == t;
    }
  }

  // ---- all steps, all runs ----

  lemma SuspendKeeps(s: State, task: Task)
    requires Safe(s) && Issued(Captured(task), s.nextSession)
    ensures Safe(Suspend(s, task))
  {
  }

  lemma LocksDoNotMatter(s: State, locks: set<TabId>)
    requires Safe(s)
    ensures Safe(s.(locks := locks))
  {
  }

  lemma ResumeKeeps(s: State, task: Task, a: Answer)
    requires Safe(s) && Issued(Captured(task), s.nextSession)
    ensures Safe(ResumeStep(s, task, a))
  {
    hide Safe, Attach, Detach, Save, Suspend, DropTab, ForgetSession;
    var tab, attached := task.tab, a.ok && a.targetId != "";
    var s1 := if attached then Attach(s, tab, a.targetId) else s;
    if attached { AttachKeeps(s, tab, a.targetId); }
    match task
    case ToggleAttach(_) =>
      SaveKeeps(s1, a.saved);
      DropKeeps(s1, tab);
      SuspendKeeps(Save(s1, a.saved), Unlock(tab));
      LocksDoNotMatter(DropTab(s1, tab), s1.locks - {tab});
    case ToggleDetach(_) => SaveKeeps(s, a.saved); SuspendKeeps(Save(s, a.saved), Unlock(tab));
    case Unlock(_) => LocksDoNotMatter(s, s.locks - {tab});
    case CreateAttach(_) => SaveKeeps(s1, a.saved);
    case NavigationAttach(_) =>
      SaveKeeps(s1, a.saved);
      DetachKeeps(s1, tab);
      SuspendKeeps(Detach(s1, tab), Detaching(tab));
    case Detaching(_) => SaveKeeps(s, a.saved);
    case ReattachTimer(_, seen) => SuspendKeeps(s, ReattachLookup(tab, seen));
    case ReattachLookup(_, seen) =>
      ForgetAndDropKeep(s, tab, seen);
      SuspendKeeps(DropTab(ForgetSession(s, seen), tab), NavigationAttach(tab));
      DetachKeeps(s, tab);
      SuspendKeeps(Detach(s, tab), Detaching(tab));
    case Probe(_, seen) =>
      ForgetAndDropKeep(s, tab, seen);
      SuspendKeeps(s, Announce(tab, seen));
    case Announce(_, _) =>
  }

  lemma ChildrenDoNotMatter(s: State, children: map<string, TabId>)
    requires Safe(s)
    ensures Safe(s.(childSessionToTab := children))
  {
  }

  lemma ConnectingKeeps(s: State, tab: TabId)
    requires Safe(s)
    ensures Safe(s.(tabs := s.tabs.Put(tab, Connecting)))
  {
  }

  lemma ClickKeeps(s: State, tab: TabId)
    requires Safe(s)
    ensures Safe(ClickStep(s, tab))
  {
    hide Safe, Detach, Suspend;
    var s1 := s.(locks := s.locks + {tab});
    LocksDoNotMatter(s, s.locks + {tab});
    DetachKeeps(s1, tab);
    SuspendKeeps(Detach(s1, tab), ToggleDetach(tab));
    ConnectingKeeps(s1, tab);
    SuspendKeeps(s1.(tabs := s1.tabs.Put(tab, Connecting)), ToggleAttach(tab));
  }

  lemma CaptureKeeps(s: State, tab: TabId)
    requires Safe(s) && s.tabs.Has(tab)
    ensures Safe(Suspend(s, ReattachTimer(tab, s.tabs.entries[tab])))
    ensures Safe(Suspend(s, Probe(tab, s.tabs.entries[tab])))
  {
  }

  lemma TaskTaken(s: State, task: Task)
    requires Safe(s) && task in s.tasks
    ensures Safe(s.(tasks := s.tasks - multiset{task})) && Issued(Captured(task), s.nextSession)
  {
  }

  lemma StepKeeps(s: State, e: Event)
    requires Safe(s)
    ensures Safe(Step(s, e))
  {
    hide Safe, Detach, Save, Replace, Rehydrate, ResumeStep;
    match e
    case Click(tab) => ClickKeeps(s, tab);
    case CreateTarget(tab) => SuspendKeeps(s, CreateAttach(tab));
    case ChildAttached(tab, child) => ChildrenDoNotMatter(s, ChildStep(s, tab, child, true).childSessionToTab);
    case ChildDetached(tab, child) => ChildrenDoNotMatter(s, ChildStep(s, tab, child, false).childSessionToTab);
    case DebuggerDetached(tab, navigation) =>
      if s.tabs.Has(tab) { CaptureKeeps(s, tab); }
      DetachKeeps(s, tab);
      SuspendKeeps(Detach(s, tab), Detaching(tab));
    case TabRemoved(tab, saved) => DetachKeeps(s, tab); SaveKeeps(Detach(s, tab), saved);
    case TabReplaced(added, removed, saved) =>
      if s.tabs.Has(removed) {
        ReplaceKeeps(s, added, removed);
        SaveKeeps(Replace(s, added, removed), saved);
      }
    case ReannounceVisit(tab) => if s.tabs.Has(tab) { CaptureKeeps(s, tab); }
    case ReannounceEnd(saved) => SaveKeeps(s, saved);
    case Resume(task, answer) =>
      if task in s.tasks {
        TaskTaken(s, task);
        ResumeKeeps(s.(tasks := s.tasks - multiset{task}), task, answer);
      }
    case Restart(readable, dead) => RehydrateKeeps(s, readable, dead);
  }

  lemma {:induction false} EveryRunIsSafe(events: seq<Event>)
    ensures Safe(Run(FirstStart, events))
  {
    if events != [] {
      EveryRunIsSafe(events[..|events| - 1]);
      StepKeeps(Run(FirstStart, events[..|events| - 1]), events[|events| - 1]);
    }
  }
}
