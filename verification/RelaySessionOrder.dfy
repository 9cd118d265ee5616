/** Properties that depend on which pieces interleave: when the session index covers every connected tab,
    what the per-tab locks exclude, and which tabs can be left "connecting". */
module RelaySessionOrder {
  import opened JsMaps
  import opened RelaySessions
  import opened RelaySessionSafety

  // ---- the session index ----

  /** Every connected tab can be found by its session. */
  ghost predicate Complete(s: State) {
    forall t :: t in s.tabs.entries && s.tabs.entries[t].Connected? ==> s.tabs.entries[t].sessionId in s.tabBySession
  }

  /** The piece deletes from the index the session its call captured before suspending. */
  predicate Deletes(task: Task, a: Answer) {
    match task
    case ReattachLookup(_, seen) => a.ok && a.relayOpen && seen.Connected?
    case Probe(_, seen) => !a.ok && seen.Connected?
    case _ => false
  }

  /** The captured session meanwhile belongs to another tab. */
  ghost predicate StaleDelete(s: State, e: Event) {
    && e.Resume? && e.task in s.tasks && Deletes(e.task, e.answer)
    && exists u :: u != e.task.tab && Holds(s, u, Captured(e.task).sessionId)
  }

  lemma ForgetExact(s: State, tab: TabId, seen: Tab)
    requires Complete(s) && seen.Connected?
    ensures Complete(DropTab(ForgetSession(s, seen), tab)) <==> !exists u :: u != tab && Holds(s, u, seen.sessionId)
    ensures Complete(ForgetSession(DropTab(s, tab), seen)) <==> !exists u :: u != tab && Holds(s, u, seen.sessionId)
  {
    var r := DropTab(ForgetSession(s, seen), tab);
    assert r.tabs.entries == s.tabs.entries - {tab};
    assert ForgetSession(DropTab(s, tab), seen).tabs.entries == s.tabs.entries - {tab};
    if exists u :: u != tab && Holds(s, u, seen.sessionId) {
      var u :| u != tab && Holds(s, u, seen.sessionId);
      assert u in r.tabs.entries && r.tabs.entries[u].sessionId !in r.tabBySession;
    } else {
      assert forall t :: t in r.tabs.entries && r.tabs.entries[t].Connected? ==> !Holds(s, t, seen.sessionId);
    }
  }

  lemma DetachStaysComplete(s: State, tab: TabId)
    requires Safe(s) && Complete(s)
    ensures Complete(Detach(s, tab))
  {
    var r := Detach(s, tab);
    forall t | t in r.tabs.entries && r.tabs.entries[t].Connected? ensures r.tabs.entries[t].sessionId in r.tabBySession {
      assert t != tab && Issued(s.tabs.entries[t], s.nextSession);
      assert tab in s.tabs.entries ==> Issued(s.tabs.entries[tab], s.nextSession);
    }
  }

  lemma ResumeExact(s: State, task: Task, a: Answer)
    requires Safe(s) && Complete(s) && Issued(Captured(task), s.nextSession)
    ensures Complete(ResumeStep(s, task, a)) <==>
      !(Deletes(task, a) && exists u :: u != task.tab && Holds(s, u, Captured(task).sessionId))
  {
    hide Detach, ForgetSession;
    var tab, attached := task.tab, a.ok && a.targetId != "";
    DetachStaysComplete(s, tab);
    if attached {
      AttachKeeps(s, tab, a.targetId);
      DetachStaysComplete(Attach(s, tab, a.targetId), tab);
    }
    if Captured(task).Connected? { ForgetExact(s, tab, Captured(task)); }
    if task.ReattachLookup? && task.seen.Connecting? { ForgetNothing(s, task.seen); }
    if task.Probe? && task.seen.Connecting? { ForgetNothing(DropTab(s, tab), task.seen); }
  }

  lemma ForgetNothing(s: State, seen: Tab)
    requires seen.Connecting?
    ensures ForgetSession(s, seen) == s
  {
  }

  lemma RehydrateIsComplete(s: State, readable: bool, dead: set<TabId>)
    requires Safe(s)
    ensures Complete(Rehydrate(s, readable, dead))
  {
    if readable && s.stored.Some? {
      RehydrateExact(s, dead);
      var p, r := s.stored.value.persistedTabs, Rehydrate(s, readable, dead);
      forall t | t in r.tabs.entries ensures r.tabs.entries[t].Connected? && r.tabs.entries[t].sessionId in r.tabBySession {
        var i :| 0 <= i < |p| && Ids(p)[i] == t;
        assert p[i].tabId == t;
      }
    }
  }

  /** Exactly one kind of step can make a connected tab unreachable by its session: a resumed re-attach or
      probe that deletes the session it captured, after that session moved to another tab. */
  lemma CompleteExactly(s: State, e: Event)
    requires Safe(s) && Complete(s)
    ensures Complete(Step(s, e)) <==> !StaleDelete(s, e)
  {
    hide Safe, Detach, Rehydrate, ResumeStep, ForgetSession;
    match e
    case Click(tab) =>
      LocksDoNotMatter(s, s.locks + {tab});
      DetachStaysComplete(s.(locks := s.locks + {tab}), tab);
    case DebuggerDetached(tab, navigation) => DetachStaysComplete(s, tab);
    case TabRemoved(tab, saved) => DetachStaysComplete(s, tab);
    case Resume(task, answer) =>
      if task in s.tasks {
        TaskTaken(s, task);
        var s1 := s.(tasks := s.tasks - multiset{task});
        ResumeExact(s1, task, answer);
        assert forall u, name :: Holds(s1, u, name) == Holds(s, u, name);
      }
    case Restart(readable, dead) => RehydrateIsComplete(s, readable, dead);
    case _ =>
  }

  /** No suspended call holds a session that has moved to another tab. */
  ghost predicate CapturesCurrent(s: State) {
    forall task, u :: task in s.tasks && Captured(task).Connected? && Holds(s, u, Captured(task).sessionId) ==> u == task.tab
  }

  /** Chrome swaps a tab's id while a suspended call still holds that tab's session. */
  ghost predicate MovesCaptured(s: State, e: Event) {
    && e.TabReplaced? && s.tabs.Has(e.removed) && s.tabs.entries[e.removed].Connected?
    && var moved := s.tabs.entries[e.removed].sessionId;
    exists task :: task in s.tasks && Captured(task).Connected? && Captured(task).sessionId == moved
  }

  /** From `s` to `r` no tab came to hold a session, unless a newly issued one. */
  ghost predicate HoldsNoMore(s: State, r: State) {
    forall u :: u in r.tabs.entries && r.tabs.entries[u].Connected? ==>
      s.tabs.Get(u) == Some(r.tabs.entries[u]) || r.tabs.entries[u].sessionId == SessionName(s.nextSession)
  }

  lemma ResumeHoldsNoMore(s: State, task: Task, a: Answer)
    ensures HoldsNoMore(s, ResumeStep(s, task, a))
  {
    hide SessionName, Save, Detach, ForgetSession, Without;
  }

  lemma StepHoldsNoMore(s: State, e: Event)
    requires !e.TabReplaced? && !e.Restart?
    ensures HoldsNoMore(s, Step(s, e))
  {
    hide SessionName, Save, Detach, ForgetSession, Without, ResumeStep;
    if e.Resume? { ResumeHoldsNoMore(s.(tasks := s.tasks - multiset{e.task}), e.task, e.answer); }
  }

  lemma ResumeTasks(s: State, task: Task, a: Answer, t: Task)
    requires t in ResumeStep(s, task, a).tasks && Captured(t).Connected?
    ensures t in s.tasks || (task.tab == t.tab && Captured(task) == Captured(t))
  {
    hide SessionName, Save, Detach, ForgetSession, Without;
  }

  /** A suspended call's capture is either inherited from the call that was resumed or just read from the table. */
  lemma StepTasks(s: State, e: Event, task: Task)
    requires !e.Restart? && task in Step(s, e).tasks && Captured(task).Connected?
    ensures
      || task in s.tasks
      || (e.Resume? && e.task in s.tasks && e.task.tab == task.tab && Captured(e.task) == Captured(task))
      || (s.tabs.Has(task.tab) && s.tabs.entries[task.tab] == Captured(task))
  {
    hide SessionName, Save, Detach, ForgetSession, Without, ResumeStep;
    if e.Resume? && e.task in s.tasks { ResumeTasks(s.(tasks := s.tasks - multiset{e.task}), e.task, e.answer, task); }
  }

  lemma OneHolder(s: State, t: TabId, u: TabId, name: string)
    requires Safe(s) && Holds(s, t, name) && Holds(s, u, name)
    ensures t == u
  {
    assert Issued(s.tabs.entries[t], s.nextSession) && Issued(s.tabs.entries[u], s.nextSession);
  }

  lemma CapturedOnce(s: State, task: Task)
    requires Safe(s) && task in s.tasks && Captured(task).Connected?
    ensures Captured(task).sessionId != SessionName(s.nextSession)
  {
  }

  lemma HeldBeforeNext(s: State, t: TabId)
    requires Safe(s) && s.tabs.Has(t) && s.tabs.entries[t].Connected?
    ensures s.tabs.entries[t].sessionId != SessionName(s.nextSession)
  {
  }

  lemma ReplaceHolds(s: State, added: TabId, removed: TabId, u: TabId, name: string)
    requires s.tabs.Has(removed) && Holds(Replace(s, added, removed), u, name)
    ensures Holds(s, u, name) || (u == added && Holds(s, removed, name))
  {
  }

  lemma CapturesStayCurrent(s: State, e: Event)
    requires Safe(s) && CapturesCurrent(s) && !MovesCaptured(s, e)
    ensures CapturesCurrent(Step(s, e))
  {
    var r := Step(s, e);
    hide Safe, Step, Holds;
    if e.Restart? {
      assert r.tasks == multiset{} by { RehydrateForgetsTasks(s, e); }
    } else if e.TabReplaced? {
      ReplacedCaptures(s, e);
    } else {
      StepHoldsNoMore(s, e);
      forall task, u | task in r.tasks && Captured(task).Connected? && Holds(r, u, Captured(task).sessionId)
        ensures u == task.tab
      {
        StepTasks(s, e, task);
        var name := Captured(task).sessionId;
        if task in s.tasks {
          CapturedOnce(s, task);
          HeldBefore(s, r, u, name);
        } else if s.tabs.Has(task.tab) && s.tabs.entries[task.tab] == Captured(task) {
          HeldBeforeNext(s, task.tab);
          HeldBefore(s, r, u, name);
          assert Holds(s, task.tab, name) by { hide *; HoldsIts(s, task.tab); }
          OneHolder(s, task.tab, u, name);
        } else {
          CapturedOnce(s, e.task);
          HeldBefore(s, r, u, name);
        }
      }
    }
  }

  lemma HeldBefore(s: State, r: State, u: TabId, name: string)
    requires HoldsNoMore(s, r) && Holds(r, u, name) && name != SessionName(s.nextSession)
    ensures Holds(s, u, name)
  {
  }

  lemma HoldsIts(s: State, t: TabId)
    requires s.tabs.Has(t) && s.tabs.entries[t].Connected?
    ensures Holds(s, t, s.tabs.entries[t].sessionId)
  {
  }

  lemma RehydrateForgetsTasks(s: State, e: Event)
    requires Safe(s) && e.Restart?
    ensures Step(s, e).tasks == multiset{}
  {
    if e.readable && s.stored.Some? { RehydrateExact(s, e.dead); }
  }

  lemma ReplacedCaptures(s: State, e: Event)
    requires e.TabReplaced? && CapturesCurrent(s) && !MovesCaptured(s, e)
    ensures CapturesCurrent(Step(s, e))
  {
    hide Save, Without;
    if s.tabs.Has(e.removed) {
      var r := Step(s, e);
      forall task, u | task in r.tasks && Captured(task).Connected? && Holds(r, u, Captured(task).sessionId)
        ensures u == task.tab
      {
        assert Holds(Replace(s, e.added, e.removed), u, Captured(task).sessionId);
        ReplaceHolds(s, e.added, e.removed, u, Captured(task).sessionId);
        assert task in s.tasks;
      }
    }
  }

  /** A run, every prefix of which keeps Chrome from swapping a tab id under a suspended call. */
  ghost predicate NeverMovesCaptured(events: seq<Event>) {
    forall i :: 0 <= i < |events| ==> !MovesCaptured(Run(FirstStart, events[..i]), events[i])
  }

  /** In every such run, however its pieces interleave, each connected tab's session leads back to exactly that tab. */
  lemma {:induction false} EveryTabIsFound(events: seq<Event>)
    requires NeverMovesCaptured(events)
    ensures CapturesCurrent(Run(FirstStart, events)) && Complete(Run(FirstStart, events))
    ensures forall t, name :: Holds(Run(FirstStart, events), t, name) ==>
      name in Run(FirstStart, events).tabBySession && Run(FirstStart, events).tabBySession[name] == t
  {
    hide Step, Safe;
    EveryRunIsSafe(events);
    if events != [] {
      var before, e := events[..|events| - 1], events[|events| - 1];
      assert forall i :: 0 <= i < |before| ==> before[..i] == events[..i];
      EveryTabIsFound(before);
      EveryRunIsSafe(before);
      CapturesStayCurrent(Run(FirstStart, before), e);
      CompleteExactly(Run(FirstStart, before), e);
    }
    SafeNeverMisroutes(Run(FirstStart, events));
  }

  lemma SafeNeverMisroutes(s: State)
    requires Safe(s)
    ensures NeverMisrouted(s)
  {
  }

  const Yes := Answer(true, "T", true, true)

  /** The interleaving that loses a session: tab 1 navigates, its re-attach is waiting for chrome.tabs.get,
      Chrome replaces tab 1 by tab 2, and the resumed call deletes the session that now belongs to tab 2. */
  function LosingRun(): seq<Event> {
    var seen := Connected(SessionName(1), "T", 1);
    [Click(1), Resume(ToggleAttach(1), Yes), DebuggerDetached(1, true), Resume(ReattachTimer(1, seen), Yes),
     TabReplaced(2, 1, true), Resume(ReattachLookup(1, seen), Yes)]
  }

  lemma RunOneMore(events: seq<Event>, e: Event)
    ensures Run(FirstStart, events + [e]) == Step(Run(FirstStart, events), e)
  {
    assert (events + [e])[..|events|] == events;
  }

  lemma ASessionCanBeLost()
    ensures Holds(Run(FirstStart, LosingRun()), 2, SessionName(1))
    ensures SessionName(1) !in Run(FirstStart, LosingRun()).tabBySession
  {
    hide *;
    var seen := Connected(SessionName(1), "T", 1);
    var e2 := [Click(1), Resume(ToggleAttach(1), Yes)];
    var e4 := e2 + [DebuggerDetached(1, true), Resume(ReattachTimer(1, seen), Yes)];
    var e6 := e4 + [TabReplaced(2, 1, true), Resume(ReattachLookup(1, seen), Yes)];
    RunNothing();
    RunTwoMore([], Click(1), Resume(ToggleAttach(1), Yes));
    assert [] + e2 == e2;
    AttachOne();
    RunTwoMore(e2, DebuggerDetached(1, true), Resume(ReattachTimer(1, seen), Yes));
    NavigateOne(Run(FirstStart, e2), seen);
    RunTwoMore(e4, TabReplaced(2, 1, true), Resume(ReattachLookup(1, seen), Yes));
    LoseOne(Run(FirstStart, e4), seen);
    assert LosingRun() == e6 by { LosingRunIs(); }
  }

  lemma LosingRunIs()
    ensures LosingRun() ==
      var seen := Connected(SessionName(1), "T", 1);
      [Click(1), Resume(ToggleAttach(1), Yes)] + [DebuggerDetached(1, true), Resume(ReattachTimer(1, seen), Yes)]
      + [TabReplaced(2, 1, true), Resume(ReattachLookup(1, seen), Yes)]
  {
  }

  lemma RunTwoMore(events: seq<Event>, e: Event, f: Event)
    ensures Run(FirstStart, events + [e, f]) == Step(Step(Run(FirstStart, events), e), f)
  {
    hide Run, Step;
    RunOneMore(events, e);
    RunOneMore(events + [e], f);
    assert events + [e] + [f] == events + [e, f];
  }

  lemma AttachOne()
    ensures
      var s := Step(Step(FirstStart, Click(1)), Resume(ToggleAttach(1), Yes));
      s.tabs.entries == map[1 := Connected(SessionName(1), "T", 1)] && s.tabBySession == map[SessionName(1) := 1]
  {
    hide SessionName, Save;
    assert Step(FirstStart, Click(1)).tasks == multiset{ToggleAttach(1)};
  }

  lemma NavigateOne(s: State, seen: Tab)
    requires s.tabs.entries == map[1 := seen]
    ensures
      var r := Step(Step(s, DebuggerDetached(1, true)), Resume(ReattachTimer(1, seen), Yes));
      ReattachLookup(1, seen) in r.tasks && r.tabs == s.tabs && r.tabBySession == s.tabBySession
  {
  }

  lemma LoseOne(s: State, seen: Tab)
    requires s.tabs.entries == map[1 := seen] && seen.Connected? && ReattachLookup(1, seen) in s.tasks
    ensures
      var r := Step(Step(s, TabReplaced(2, 1, true)), Resume(ReattachLookup(1, seen), Yes));
      Holds(r, 2, seen.sessionId) && seen.sessionId !in r.tabBySession
  {
    hide Save;
    var s1 := Step(s, TabReplaced(2, 1, true));
    assert s1.tabs.entries == map[2 := seen] && ReattachLookup(1, seen) in s1.tasks;
  }

  lemma RunNothing()
    ensures Run(FirstStart, []) == FirstStart
  {
  }

  // ---- the per-tab locks ----

  function Toggles(tasks: multiset<Task>, t: TabId): nat {
    tasks[ToggleAttach(t)] + tasks[ToggleDetach(t)] + tasks[Unlock(t)]
  }

  /** A tab is locked exactly while one click on it is suspended. */
  ghost predicate LocksExact(s: State) {
    forall t :: Toggles(s.tasks, t) == if t in s.locks then 1 else 0
  }

  function Share(task: Task, t: TabId): nat {
    if task.tab == t && (task.ToggleAttach? || task.ToggleDetach? || task.Unlock?) then 1 else 0
  }

  lemma TogglesMove(tasks: multiset<Task>, task: Task, t: TabId)
    ensures Toggles(tasks + multiset{task}, t) == Toggles(tasks, t) + Share(task, t)
    ensures task in tasks ==> Toggles(tasks - multiset{task}, t) == Toggles(tasks, t) - Share(task, t)
  {
  }

  lemma ResumeKeepsLocks(s: State, task: Task, a: Answer, t: TabId)
    requires Toggles(s.tasks, t) == (if t in s.locks then 1 else 0) - Share(task, t)
    ensures Toggles(ResumeStep(s, task, a).tasks, t) == if t in ResumeStep(s, task, a).locks then 1 else 0
  {
    hide Detach, Save, ForgetSession, SessionName, Toggles, DropTab;
    var tab := task.tab;
    TogglesMove(s.tasks, Unlock(tab), t);
    TogglesMove(s.tasks, Detaching(tab), t);
    TogglesMove(s.tasks, ReattachLookup(tab, Captured(task)), t);
    TogglesMove(s.tasks, NavigationAttach(tab), t);
    TogglesMove(s.tasks, Announce(tab, Captured(task)), t);
    assert forall r: State :: DropTab(r, tab).locks == r.locks && DropTab(r, tab).tasks == r.tasks by { DropFrame(tab); }
  }

  lemma DropFrame(tab: TabId)
    ensures forall r: State :: DropTab(r, tab).locks == r.locks && DropTab(r, tab).tasks == r.tasks
  {
  }

  lemma ClickKeepsLocks(s: State, tab: TabId, t: TabId)
    requires Toggles(s.tasks, t) == if t in s.locks then 1 else 0
    ensures Toggles(ClickStep(s, tab).tasks, t) == if t in ClickStep(s, tab).locks then 1 else 0
  {
    hide Detach, Toggles, JsMap.Put;
    TogglesMove(s.tasks, ToggleAttach(tab), t);
    TogglesMove(s.tasks, ToggleDetach(tab), t);
  }

  lemma OtherStepsKeepLocks(s: State, e: Event, t: TabId)
    requires Toggles(s.tasks, t) == (if t in s.locks then 1 else 0) && !e.Resume? && !e.Restart?
    ensures Toggles(Step(s, e).tasks, t) == if t in Step(s, e).locks then 1 else 0
  {
    hide ClickStep, Detach, Save, Replace, Toggles, ResumeStep, Rehydrate;
    match e
    case Click(tab) => ClickKeepsLocks(s, tab, t);
    case CreateTarget(tab) => TogglesMove(s.tasks, CreateAttach(tab), t);
    case DebuggerDetached(tab, _) =>
      TogglesMove(s.tasks, Detaching(tab), t);
      if s.tabs.Has(tab) { TogglesMove(s.tasks, ReattachTimer(tab, s.tabs.entries[tab]), t); }
    case ReannounceVisit(tab) => if s.tabs.Has(tab) { TogglesMove(s.tasks, Probe(tab, s.tabs.entries[tab]), t); }
    case _ =>
  }

  lemma StepKeepsLock(s: State, e: Event, t: TabId)
    requires Toggles(s.tasks, t) == if t in s.locks then 1 else 0
    ensures Toggles(Step(s, e).tasks, t) == if t in Step(s, e).locks then 1 else 0
  {
    if e.Resume? {
      hide ResumeStep, Toggles;
      if e.task in s.tasks {
        TogglesMove(s.tasks, e.task, t);
        ResumeKeepsLocks(s.(tasks := s.tasks - multiset{e.task}), e.task, e.answer, t);
      }
    } else if e.Restart? {
      hide Toggles, Rehydrate;
      RehydrateFrame(s, e.readable, e.dead);
      NoTogglesInNothing(t);
    } else {
      hide Step, Toggles;
      OtherStepsKeepLocks(s, e, t);
    }
  }

  lemma StepKeepsLocks(s: State, e: Event)
    requires LocksExact(s)
    ensures LocksExact(Step(s, e))
  {
    hide Step, Toggles;
    forall t ensures Toggles(Step(s, e).tasks, t) == if t in Step(s, e).locks then 1 else 0 { StepKeepsLock(s, e, t); }
  }

  lemma NoTogglesInNothing(t: TabId)
    ensures Toggles(multiset{}, t) == 0
  {
  }

  lemma {:induction false} RestoreFrame(s: State, p: seq<PersistedTab>, dead: set<TabId>)
    ensures Restore(s, p).(tabs := s.tabs, tabBySession := s.tabBySession) == s
    ensures Validate(s, p, dead).(tabs := s.tabs, tabBySession := s.tabBySession) == s
  {
    if p != [] { RestoreFrame(s, p[..|p| - 1], dead); }
  }

  lemma RehydrateFrame(s: State, readable: bool, dead: set<TabId>)
    ensures Rehydrate(s, readable, dead).tasks == multiset{} && Rehydrate(s, readable, dead).locks == {}
    ensures Rehydrate(s, readable, dead).childSessionToTab == map[]
  {
    if readable && s.stored.Some? {
      var s1 := FirstStart.(stored := s.stored,
        nextSession := if s.stored.value.nextSession > 1 then s.stored.value.nextSession else 1);
      RestoreFrame(s1, s.stored.value.persistedTabs, dead);
      RestoreFrame(Restore(s1, s.stored.value.persistedTabs), s.stored.value.persistedTabs, dead);
    }
  }

  /** In every interleaving at most one click per tab is in progress, and a tab is locked exactly then. */
  lemma {:induction false} OneClickPerTab(events: seq<Event>)
    ensures LocksExact(Run(FirstStart, events))
  {
    if events != [] {
      OneClickPerTab(events[..|events| - 1]);
      StepKeepsLocks(Run(FirstStart, events[..|events| - 1]), events[|events| - 1]);
    }
  }

  // ---- tabs shown as connecting ----

  /** A tab in state "connecting" has a click on it waiting to finish. */
  ghost predicate ConnectingIsPending(s: State) {
    forall t :: t in s.tabs.entries && s.tabs.entries[t].Connecting? ==> ToggleAttach(t) in s.tasks
  }

  /** Chrome moves a connecting record to a tab id that nobody has clicked. */
  ghost predicate Strands(s: State, e: Event) {
    && e.TabReplaced? && s.tabs.Has(e.removed) && s.tabs.entries[e.removed].Connecting?
    && ToggleAttach(e.added) !in s.tasks
  }

  /** Only a tab replacement can leave a tab connecting with nothing under way to resolve it. */
  lemma PendingExactly(s: State, e: Event)
    requires Safe(s) && ConnectingIsPending(s)
    ensures ConnectingIsPending(Step(s, e)) <==> !Strands(s, e)
  {
    if e.TabReplaced? {
      hide Safe;
      ReplacePending(s, e);
    } else if e.Restart? {
      RestoredAreConnected(s, e.readable, e.dead);
      hide Rehydrate, Safe;
    } else if e.Resume? {
      hide ResumeStep, Safe, ConnectingIsPending;
      if e.task in s.tasks { ResumePending(s, e.task, e.answer); }
    } else {
      hide Safe;
      OtherPending(s, e);
    }
  }

  lemma ReplacePending(s: State, e: Event)
    requires ConnectingIsPending(s) && e.TabReplaced?
    ensures ConnectingIsPending(Step(s, e)) <==> !Strands(s, e)
  {
    hide Save, JsMap.Put, JsMap.Remove;
    if s.tabs.Has(e.removed) {
      var r := Step(s, e);
      assert r.tabs.entries == (s.tabs.entries - {e.removed})[e.added := s.tabs.entries[e.removed]];
    }
  }

  lemma OtherPending(s: State, e: Event)
    requires ConnectingIsPending(s) && !e.TabReplaced? && !e.Restart? && !e.Resume?
    ensures ConnectingIsPending(Step(s, e))
  {
    hide Detach, Save, JsMap.Put, JsMap.Remove;
  }

  lemma ResumePending(s: State, task: Task, a: Answer)
    requires ConnectingIsPending(s) && task in s.tasks
    ensures ConnectingIsPending(ResumeStep(s.(tasks := s.tasks - multiset{task}), task, a))
  {
    hide Detach, Save, ForgetSession, SessionName, Without, JsMap.Put, JsMap.Remove, ConnectingIsPending;
    var s1 := s.(tasks := s.tasks - multiset{task});
    ResumeKeepsTasks(s1, task, a);
    ResumeConnects(s1, task, a);
    hide ResumeStep;
    PendingMoves(s, task, ResumeStep(s1, task, a));
  }

  lemma ResumeKeepsTasks(s: State, task: Task, a: Answer)
    ensures s.tasks <= ResumeStep(s, task, a).tasks
  {
    hide Detach, Save, ForgetSession, SessionName, JsMap.Put, JsMap.Remove;
  }

  lemma ResumeConnects(s: State, task: Task, a: Answer)
    ensures forall t :: t in ResumeStep(s, task, a).tabs.entries && ResumeStep(s, task, a).tabs.entries[t].Connecting? ==>
      t in s.tabs.entries && s.tabs.entries[t].Connecting? && task != ToggleAttach(t)
  {
    hide Save, ForgetSession, SessionName, JsMap.Put, JsMap.Remove;
  }

  /** Taking a task up keeps the others, and adds no connecting tab; the tab of a click that ends is connected or gone. */
  lemma PendingMoves(s: State, task: Task, r: State)
    requires ConnectingIsPending(s)
    requires s.tasks - multiset{task} <= r.tasks
    requires forall t :: t in r.tabs.entries && r.tabs.entries[t].Connecting? ==>
      t in s.tabs.entries && s.tabs.entries[t].Connecting? && task != ToggleAttach(t)
    ensures ConnectingIsPending(r)
  {
    forall t | t in r.tabs.entries && r.tabs.entries[t].Connecting? ensures ToggleAttach(t) in r.tasks {
      assert ToggleAttach(t) in s.tasks - multiset{task};
    }
  }

  lemma RestoredAreConnected(s: State, readable: bool, dead: set<TabId>)
    requires Safe(s)
    ensures forall t :: t in Rehydrate(s, readable, dead).tabs.entries ==> Rehydrate(s, readable, dead).tabs.entries[t].Connected?
  {
    if readable && s.stored.Some? {
      RehydrateExact(s, dead);
      var p, r := s.stored.value.persistedTabs, Rehydrate(s, readable, dead);
      forall t | t in r.tabs.entries ensures r.tabs.entries[t].Connected? {
        var i :| 0 <= i < |p| && Ids(p)[i] == t;
        assert p[i].tabId == t;
      }
    }
  }

  /** So when Chrome never strands one, no tab is connecting once no click is in progress. */
  lemma {:induction false} NoTabLeftConnecting(events: seq<Event>)
    requires forall i :: 0 <= i < |events| ==> !Strands(Run(FirstStart, events[..i]), events[i])
    ensures ConnectingIsPending(Run(FirstStart, events))
    ensures forall t :: Run(FirstStart, events).tabs.Get(t) == Some(Connecting) ==> t in Run(FirstStart, events).locks
  {
    hide Step, Safe;
    OneClickPerTab(events);
    if events != [] {
      var before := events[..|events| - 1];
      assert forall i :: 0 <= i < |before| ==> before[..i] == events[..i];
      NoTabLeftConnecting(before);
      EveryRunIsSafe(before);
      PendingExactly(Run(FirstStart, before), events[|events| - 1]);
    }
    var s := Run(FirstStart, events);
    forall t | s.tabs.Get(t) == Some(Connecting) ensures t in s.locks {
      assert s.tasks[ToggleAttach(t)] > 0;
      assert Toggles(s.tasks, t) > 0;
    }
  }

  lemma ATabCanBeStranded()
    ensures var s := Run(FirstStart, [Click(1), TabReplaced(2, 1, true)]);
      s.tabs.Get(2) == Some(Connecting) && 2 !in s.locks && ToggleAttach(2) !in s.tasks
  {
    hide *;
    RunNothing();
    RunTwoMore([], Click(1), TabReplaced(2, 1, true));
    assert [] + [Click(1), TabReplaced(2, 1, true)] == [Click(1), TabReplaced(2, 1, true)];
    ClickThenReplace();
  }

  lemma ClickThenReplace()
    ensures var s := Step(Step(FirstStart, Click(1)), TabReplaced(2, 1, true));
      s.tabs.Get(2) == Some(Connecting) && 2 !in s.locks && ToggleAttach(2) !in s.tasks
  {
    hide Save, ClickStep;
    AfterClick(FirstStart, 1);
  }

  lemma AfterClick(s: State, tab: TabId)
    requires tab != 0 && tab !in s.locks && !s.tabs.Has(tab)
    ensures var r := Step(s, Click(tab));
      && r.tabs.Get(tab) == Some(Connecting)
      && r.locks == s.locks + {tab} && r.tasks == s.tasks + multiset{ToggleAttach(tab)}
  {
    hide Detach;
  }

  // ---- child sessions ----

  /** Every child session belongs to a tab that has a record. */
  ghost predicate ChildrenHaveTabs(s: State) {
    forall c :: c in s.childSessionToTab ==> s.childSessionToTab[c] in s.tabs.entries
  }

  /** The piece deletes its tab's record without detaching the tab. */
  predicate DropsRecordOnly(task: Task, a: Answer) {
    match task
    case ToggleAttach(_) => !(a.ok && a.targetId != "" && a.relayOpen)
    case ReattachLookup(_, _) => a.ok && a.relayOpen
    case Probe(_, _) => !a.ok
    case _ => false
  }

  ghost predicate OrphansChildren(s: State, e: Event) {
    && e.Resume? && e.task in s.tasks && DropsRecordOnly(e.task, e.answer)
    && exists c :: c in s.childSessionToTab && s.childSessionToTab[c] == e.task.tab
  }

  lemma DetachedChildren(s: State, tab: TabId)
    requires ChildrenHaveTabs(s)
    ensures ChildrenHaveTabs(Detach(s, tab))
  {
    hide Without;
  }

  lemma ReplacedChildren(s: State, added: TabId, removed: TabId)
    requires ChildrenHaveTabs(s) && s.tabs.Has(removed)
    ensures ChildrenHaveTabs(Replace(s, added, removed))
  {
    hide Without;
  }

  lemma ResumedChildren(s: State, task: Task, a: Answer)
    requires ChildrenHaveTabs(s)
    ensures ChildrenHaveTabs(ResumeStep(s, task, a)) <==>
      !(DropsRecordOnly(task, a) && exists c :: c in s.childSessionToTab && s.childSessionToTab[c] == task.tab)
  {
    hide SessionName, Save, Detach, ForgetSession, Without;
    var tab, attached := task.tab, a.ok && a.targetId != "";
    DetachedChildren(s, tab);
    if attached { DetachedChildren(Attach(s, tab, a.targetId), tab); }
    if c :| c in s.childSessionToTab && s.childSessionToTab[c] == tab {
      assert DropsRecordOnly(task, a) ==> ResumeStep(s, task, a).childSessionToTab[c] !in ResumeStep(s, task, a).tabs.entries;
    }
  }

  /** A step leaves a child session without a tab if and only if it drops just the record of a tab that has children: a
      click that failed, a navigation re-attach, or a failed probe. */
  lemma OrphansExactly(s: State, e: Event)
    requires ChildrenHaveTabs(s)
    ensures ChildrenHaveTabs(Step(s, e)) <==> !OrphansChildren(s, e)
  {
    hide Save, Detach, Replace, Rehydrate, ResumeStep, DropsRecordOnly, JsMap.Remove;
    match e
    case Click(tab) => DetachedChildren(s.(locks := s.locks + {tab}), tab);
    case DebuggerDetached(tab, _) => DetachedChildren(s, tab);
    case TabRemoved(tab, _) => DetachedChildren(s, tab);
    case TabReplaced(added, removed, _) => if s.tabs.Has(removed) { ReplacedChildren(s, added, removed); }
    case Resume(task, answer) =>
      if task in s.tasks { ResumedChildren(s.(tasks := s.tasks - multiset{task}), task, answer); }
    case Restart(readable, dead) => RehydrateFrame(s, readable, dead);
    case _ =>
  }
}
