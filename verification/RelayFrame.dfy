/** What each piece of the worker's code leaves alone: the tabs it is not about. */
module RelayFrame {
  import opened JsMaps
  import opened RelaySessions
  import opened RelaySessionSafety
  import opened RelaySessionOrder

  /** The tabs an event is about. */
  function Subject(e: Event): set<TabId>
    requires !e.Restart?
  {
    match e
    case Click(tab) => {tab}
    case CreateTarget(_) => {}
    case ChildAttached(tab, _) => {tab}
    case ChildDetached(tab, _) => {tab}
    case DebuggerDetached(tab, navigation) => if navigation then {} else {tab}
    case TabRemoved(tab, _) => {tab}
    case TabReplaced(added, removed, _) => {added, removed}
    case ReannounceVisit(_) => {}
    case ReannounceEnd(_) => {}
    case Resume(task, _) => {task.tab}
  }

  /** The child session an event is about, if any. */
  predicate Names(e: Event, child: string) {
    match e
    case ChildAttached(_, c) => c == child
    case ChildDetached(_, c) => c == child
    case _ => false
  }

  predicate IsChildOf(children: map<string, TabId>, child: string, t: TabId) {
    child in children && children[child] == t
  }

  /** The tab's record and lock, and whether `c` is a child session of it, are the same. */
  predicate Untouched(s: State, r: State, t: TabId, c: string) {
    && r.tabs.Get(t) == s.tabs.Get(t)
    && (t in r.locks <==> t in s.locks)
    && (IsChildOf(s.childSessionToTab, c, t) <==> IsChildOf(r.childSessionToTab, c, t))
  }

  lemma DetachTouches(s: State, tab: TabId, t: TabId, c: string)
    requires t != tab
    ensures Untouched(s, Detach(s, tab), t, c)
  {
    hide Without;
  }

  lemma ReplaceTouches(s: State, added: TabId, removed: TabId, t: TabId, c: string)
    requires s.tabs.Has(removed) && t != added && t != removed
    ensures Untouched(s, Replace(s, added, removed), t, c)
  {
    hide Without;
  }

  lemma AttachTouches(s: State, tab: TabId, targetId: string, t: TabId)
    requires t != tab
    ensures Attach(s, tab, targetId).tabs.Get(t) == s.tabs.Get(t)
    ensures Attach(s, tab, targetId).locks == s.locks && Attach(s, tab, targetId).childSessionToTab == s.childSessionToTab
  {
    hide SessionName, JsMap.Put;
  }

  lemma ResumeTouches(s: State, task: Task, a: Answer, t: TabId, c: string)
    requires t != task.tab
    ensures Untouched(s, ResumeStep(s, task, a), t, c)
  {
    hide SessionName, Save, Detach, Attach, ForgetSession, Without, JsMap.Put, JsMap.Remove;
    var tab, attached := task.tab, a.ok && a.targetId != "";
    DetachTouches(s, tab, t, c);
    AttachTouches(s, tab, a.targetId, t);
    if attached { DetachTouches(Attach(s, tab, a.targetId), tab, t, c); }
  }

  /** No event changes the record, the lock or a child session of a tab it is not about, except the child session that it
      names itself. */
  lemma OthersUntouched(s: State, e: Event, t: TabId, c: string)
    requires !e.Restart? && t !in Subject(e)
    ensures Step(s, e).tabs.Get(t) == s.tabs.Get(t) && (t in Step(s, e).locks <==> t in s.locks)
    ensures Names(e, c) || (IsChildOf(s.childSessionToTab, c, t) <==> IsChildOf(Step(s, e).childSessionToTab, c, t))
  {
    hide Save, Detach, Replace, ResumeStep, JsMap.Put, JsMap.Remove;
    match e
    case Click(tab) => DetachTouches(s.(locks := s.locks + {tab}), tab, t, c);
    case DebuggerDetached(tab, navigation) => if !navigation { DetachTouches(s, tab, t, c); }
    case TabRemoved(tab, _) => DetachTouches(s, tab, t, c);
    case TabReplaced(added, removed, _) => if s.tabs.Has(removed) { ReplaceTouches(s, added, removed, t, c); }
    case Resume(task, a) =>
      if task in s.tasks { ResumeTouches(s.(tasks := s.tasks - multiset{task}), task, a, t, c); }
    case ChildAttached(_, _) =>
    case ChildDetached(_, _) =>
    case _ =>
  }

  // ---- the index entries of other tabs ----

  ghost predicate Indexed(s: State, t: TabId, name: string) {
    name in s.tabBySession && s.tabBySession[name] == t
  }

  lemma DetachKeepsOthers(s: State, tab: TabId, t: TabId, name: string)
    requires Safe(s) && t != tab && Holds(s, t, name) && Indexed(s, t, name)
    ensures Indexed(Detach(s, tab), t, name)
  {
    hide Without;
    assert tab in s.tabs.entries && s.tabs.entries[tab].Connected? ==> s.tabs.entries[tab].sessionId != name by {
      if Holds(s, tab, name) { OneHolder(s, t, tab, name); }
    }
  }

  lemma ReplaceKeepsOthers(s: State, added: TabId, removed: TabId, t: TabId, name: string)
    requires Safe(s) && s.tabs.Has(removed) && t != added && t != removed && Holds(s, t, name) && Indexed(s, t, name)
    ensures Indexed(Replace(s, added, removed), t, name)
  {
    hide Without;
    if Holds(s, removed, name) { OneHolder(s, t, removed, name); }
  }

  lemma AttachKeepsOthers(s: State, tab: TabId, targetId: string, t: TabId, name: string)
    requires Safe(s) && t != tab && Holds(s, t, name) && Indexed(s, t, name)
    ensures Holds(Attach(s, tab, targetId), t, name) && Indexed(Attach(s, tab, targetId), t, name)
  {
    HeldBeforeNext(s, t);
    hide Without, SessionName;
  }

  lemma ResumeKeepsOthers(s: State, task: Task, a: Answer, t: TabId, name: string)
    requires Safe(s) && t != task.tab && Holds(s, t, name) && Indexed(s, t, name)
    requires !(Deletes(task, a) && Captured(task).sessionId == name)
    ensures Indexed(ResumeStep(s, task, a), t, name)
  {
    hide SessionName, Save, Detach, Attach, Without, JsMap.Put, JsMap.Remove, Safe, Holds;
    var tab, attached := task.tab, a.ok && a.targetId != "";
    DetachKeepsOthers(s, tab, t, name);
    if attached {
      AttachKeepsOthers(s, tab, a.targetId, t, name);
      AttachKeeps(s, tab, a.targetId);
      DetachKeepsOthers(Attach(s, tab, a.targetId), tab, t, name);
    }
  }

  /** No event takes another tab's session out of the index or points it elsewhere, except a delayed deletion of a session
      that had moved to that tab. */
  lemma OthersStayIndexed(s: State, e: Event, t: TabId, name: string)
    requires Safe(s) && !e.Restart? && t !in Subject(e) && Holds(s, t, name) && Indexed(s, t, name)
    requires !StaleDelete(s, e)
    ensures Indexed(Step(s, e), t, name)
  {
    hide Safe, Save, Detach, Replace, ResumeStep, JsMap.Put, JsMap.Remove, Holds;
    match e
    case Click(tab) =>
      LocksDoNotMatter(s, s.locks + {tab});
      SameHolds(s, s.(locks := s.locks + {tab}), t, name);
      DetachKeepsOthers(s.(locks := s.locks + {tab}), tab, t, name);
    case DebuggerDetached(tab, navigation) => if !navigation { DetachKeepsOthers(s, tab, t, name); }
    case TabRemoved(tab, _) => DetachKeepsOthers(s, tab, t, name);
    case TabReplaced(added, removed, _) => if s.tabs.Has(removed) { ReplaceKeepsOthers(s, added, removed, t, name); }
    case Resume(task, a) =>
      if task in s.tasks {
        var s1 := s.(tasks := s.tasks - multiset{task});
        TaskTaken(s, task);
        SameHolds(s, s1, t, name);
        ResumeKeepsOthers(s1, task, a, t, name);
      }
    case _ =>
  }

  lemma SameHolds(s: State, r: State, t: TabId, name: string)
    requires r.tabs == s.tabs
    ensures Holds(r, t, name) == Holds(s, t, name)
  {
  }

  // ---- what attaching and detaching do to their own tab ----

  /** An attached tab is found under a session that no tab had and the index did not hold. */
  lemma AttachIsNew(s: State, tab: TabId, targetId: string)
    requires Safe(s)
    ensures var r, name := Attach(s, tab, targetId), SessionName(s.nextSession);
      && Holds(r, tab, name) && Indexed(r, tab, name)
      && name !in s.tabBySession && forall u :: !Holds(s, u, name)
  {
    forall u ensures !Holds(s, u, SessionName(s.nextSession)) {
      if s.tabs.Has(u) && s.tabs.entries[u].Connected? { HeldBeforeNext(s, u); }
    }
  }

  /** A detached tab has no record and no child session, and the session it had is in no index. */
  lemma DetachLeavesNothing(s: State, tab: TabId)
    requires Safe(s)
    ensures var r := Detach(s, tab);
      && !r.tabs.Has(tab) && (forall c :: !IsChildOf(r.childSessionToTab, c, tab))
      && forall name :: Holds(s, tab, name) ==> name !in r.tabBySession
  {
    hide Without;
  }

  /** A replaced tab's record, session and children all lead to the new id, and nothing leads to the old one. */
  lemma ReplaceMovesAll(s: State, added: TabId, removed: TabId)
    requires Safe(s) && s.tabs.Has(removed) && added != removed
    ensures var r := Replace(s, added, removed);
      && r.tabs.Get(added) == s.tabs.Get(removed) && !r.tabs.Has(removed)
      && (forall name :: Holds(s, removed, name) ==> Indexed(r, added, name))
      && (forall c :: !IsChildOf(r.childSessionToTab, c, removed))
      && forall c :: IsChildOf(s.childSessionToTab, c, removed) ==> IsChildOf(r.childSessionToTab, c, added)
  {
    hide Without;
  }
}
