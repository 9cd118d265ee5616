/** What each event does to one tab and to one session, told by tab and by session: when a tab gets a record and when it
    loses it, where the index leads, whose a child session is. */
module RelayEffects {
  import opened JsMaps
  import opened RelaySessions
  import opened RelaySessionSafety
  import opened RelaySessionOrder
  import opened RelayFrame
  import opened RelayReissue
  import opened RelayRouting

  predicate Live(s: State, t: TabId) {
    s.tabs.Has(t) && s.tabs.entries[t].Connected?
  }

  /** The event takes the whole tab away: a click on a connected tab, a detach that is no navigation, the tab closing, or a
      re-attach after navigation that fails. */
  predicate TakesAway(s: State, e: Event, t: TabId) {
    match e
    case Click(u) => u == t && t != 0 && t !in s.locks && Live(s, t)
    case DebuggerDetached(u, navigation) => u == t && t != 0 && s.tabs.Has(t) && !navigation
    case TabRemoved(u, _) => u == t && s.tabs.Has(t)
    case Resume(task, a) =>
      && task in s.tasks && task.tab == t
      && (task.NavigationAttach? || task.ReattachLookup?)
      && !(a.ok && a.relayOpen && (task.NavigationAttach? ==> a.targetId != ""))
    case _ => false
  }

  /** Chrome gives tab `removed`, which has a record, the id `added`. */
  predicate Renames(s: State, e: Event, removed: TabId, added: TabId) {
    e.TabReplaced? && e.removed == removed && e.added == added && s.tabs.Has(removed)
  }

  // ---- child sessions ----

  /** Chrome reports a session attached within a connected tab. */
  predicate Adopts(s: State, e: Event, c: string, t: TabId) {
    e == ChildAttached(t, c) && t != 0 && c != "" && Live(s, t)
  }

  /** The child session is no longer the tab's: it detached, another tab reported it, the tab went or got a new id, or the
      worker restarted. */
  predicate Loses(s: State, e: Event, c: string, t: TabId) {
    || e.Restart?
    || (e.ChildDetached? && e.child == c && c != "" && e.tab != 0 && Live(s, e.tab))
    || (e.ChildAttached? && e.tab != t && Adopts(s, e, c, e.tab))
    || TakesAway(s, e, t)
    || (e.TabReplaced? && e.added != t && Renames(s, e, t, e.added))
  }

  lemma DetachChildren(s: State, tab: TabId, c: string, t: TabId)
    ensures IsChildOf(Detach(s, tab).childSessionToTab, c, t) <==> IsChildOf(s.childSessionToTab, c, t) && t != tab
  {
  }

  lemma ReplaceChildren(s: State, added: TabId, removed: TabId, c: string, t: TabId)
    requires s.tabs.Has(removed)
    ensures IsChildOf(Replace(s, added, removed).childSessionToTab, c, t) <==>
      (IsChildOf(s.childSessionToTab, c, t) && t != removed) || (t == added && IsChildOf(s.childSessionToTab, c, removed))
  {
  }

  lemma ResumeChildren(s: State, task: Task, a: Answer, c: string, t: TabId)
    ensures IsChildOf(ResumeStep(s, task, a).childSessionToTab, c, t) <==>
      && IsChildOf(s.childSessionToTab, c, t)
      && !(t == task.tab && (task.NavigationAttach? || task.ReattachLookup?)
           && !(a.ok && a.relayOpen && (task.NavigationAttach? ==> a.targetId != "")))
  {
    hide Detach, ForgetSession, SessionName, Save, IsChildOf, JsMap.Put, JsMap.Remove;
    DetachChildren(s, task.tab, c, t);
    DetachChildren(Attach(s, task.tab, a.targetId), task.tab, c, t);
  }

  lemma RestartForgetsChildren(s: State, e: Event)
    requires e.Restart?
    ensures Step(s, e).childSessionToTab == map[]
  {
    hide Rehydrate;
    RehydrateFrame(s, e.readable, e.dead);
  }

  /** The tab gets the child session with the id of another tab. */
  predicate Inherits(s: State, e: Event, c: string, t: TabId) {
    e.TabReplaced? && Renames(s, e, e.removed, t) && IsChildOf(s.childSessionToTab, c, e.removed)
  }

  lemma EventChildren(s: State, e: Event, c: string, t: TabId)
    requires !e.Restart? && !e.Resume? && !e.TabReplaced?
    ensures IsChildOf(Step(s, e).childSessionToTab, c, t) <==>
      Adopts(s, e, c, t) || (IsChildOf(s.childSessionToTab, c, t) && !Loses(s, e, c, t))
  {
    hide Save, Detach, JsMap.Put, JsMap.Remove;
    match e
    case Click(tab) => DetachChildren(s.(locks := s.locks + {tab}), tab, c, t);
    case DebuggerDetached(tab, _) => DetachChildren(s, tab, c, t);
    case TabRemoved(tab, _) => DetachChildren(s, tab, c, t);
    case _ =>
  }

  /** A session is a tab's child after an event exactly when the tab just adopted it, inherited it with the id, or had it
      and did not lose it. */
  lemma ChildrenExactly(s: State, e: Event, c: string, t: TabId)
    ensures IsChildOf(Step(s, e).childSessionToTab, c, t) <==>
      || Adopts(s, e, c, t) || Inherits(s, e, c, t)
      || (IsChildOf(s.childSessionToTab, c, t) && !Loses(s, e, c, t))
  {
    hide Save, Replace, ResumeStep, Rehydrate, ClickStep, DebuggerDetachedStep, ChildStep, JsMap.Put, JsMap.Remove;
    match e
    case TabReplaced(added, removed, _) => if s.tabs.Has(removed) { ReplaceChildren(s, added, removed, c, t); }
    case Resume(task, a) => if task in s.tasks { ResumeChildren(s.(tasks := s.tasks - multiset{task}), task, a, c, t); }
    case Restart(_, _) => RestartForgetsChildren(s, e);
    case _ => EventChildren(s, e, c, t);
  }

  // ---- the tabs' records ----

  /** A suspended attach succeeds and stays: with the relay closed only one for a new target does. */
  predicate Connects(s: State, e: Event, t: TabId) {
    && e.Resume? && e.task in s.tasks && e.task.tab == t && Attaches(e.task, e.answer)
    && (e.task.CreateAttach? || e.answer.relayOpen)
  }

  /** A click on a tab that is not connected and not locked. */
  predicate Waits(s: State, e: Event, t: TabId) {
    e == Click(t) && t != 0 && t !in s.locks && !Live(s, t)
  }

  /** The tab's record goes, with or without the rest of the tab. */
  predicate Leaves(s: State, e: Event, t: TabId) {
    || TakesAway(s, e, t)
    || (e.Resume? && e.task in s.tasks && e.task.tab == t && DropsRecordOnly(e.task, e.answer))
    || (e.TabReplaced? && e.added != t && Renames(s, e, t, e.added))
  }

  /** The record a tab has after an event: a new one, one that waits, the one of the tab whose id it took over, none, or
      the one it had. */
  ghost function RecordAfter(s: State, e: Event, t: TabId): Option<Tab> {
    if Connects(s, e, t) then Some(Connected(SessionName(s.nextSession), e.answer.targetId, s.nextSession))
    else if Waits(s, e, t) then Some(Connecting)
    else if e.TabReplaced? && Renames(s, e, e.removed, t) then s.tabs.Get(e.removed)
    else if Leaves(s, e, t) then None
    else s.tabs.Get(t)
  }

  lemma GetAfterRemove(m: JsMap<TabId, Tab>, k: TabId, t: TabId)
    ensures m.Remove(k).Get(t) == if t == k then None else m.Get(t)
  {
    hide Without;
  }

  lemma GetAfterPut(m: JsMap<TabId, Tab>, k: TabId, v: Tab, t: TabId)
    ensures m.Put(k, v).Get(t) == if t == k then Some(v) else m.Get(t)
  {
  }

  lemma DetachRecord(s: State, tab: TabId, t: TabId)
    ensures Detach(s, tab).tabs.Get(t) == if t == tab then None else s.tabs.Get(t)
  {
    hide Detach, JsMap.Remove, JsMap.Get;
    GetAfterRemove(s.tabs, tab, t);
  }

  lemma AttachRecord(s: State, tab: TabId, targetId: string, t: TabId)
    ensures Attach(s, tab, targetId).tabs.Get(t) ==
      if t == tab then Some(Connected(SessionName(s.nextSession), targetId, s.nextSession)) else s.tabs.Get(t)
  {
    hide SessionName, JsMap.Put, JsMap.Get;
    GetAfterPut(s.tabs, tab, Connected(SessionName(s.nextSession), targetId, s.nextSession), t);
  }

  lemma ReplaceRecord(s: State, added: TabId, removed: TabId, t: TabId)
    requires s.tabs.Has(removed)
    ensures Replace(s, added, removed).tabs.Get(t) ==
      if t == added then s.tabs.Get(removed) else if t == removed then None else s.tabs.Get(t)
  {
    hide JsMap.Put, JsMap.Remove;
    GetAfterRemove(s.tabs, removed, t);
    GetAfterPut(s.tabs.Remove(removed), added, s.tabs.entries[removed], t);
  }

  /** What a resumed call leaves in its own tab's record. */
  function Resumed(s: State, task: Task, a: Answer): Option<Tab> {
    if Attaches(task, a) && (task.CreateAttach? || a.relayOpen)
      then Some(Connected(SessionName(s.nextSession), a.targetId, s.nextSession))
    else if DropsRecordOnly(task, a) || task.NavigationAttach? || task.ReattachLookup? then None
    else s.tabs.Get(task.tab)
  }

  lemma ResumedAttach(s: State, task: Task, a: Answer, t: TabId)
    requires task.ToggleAttach? || task.NavigationAttach? || task.CreateAttach?
    ensures ResumeStep(s, task, a).tabs.Get(t) == if t == task.tab then Resumed(s, task, a) else s.tabs.Get(t)
  {
    hide Detach, Attach, SessionName, Save, JsMap.Put, JsMap.Remove, JsMap.Get;
    var s1 := Attach(s, task.tab, a.targetId);
    DetachRecord(s, task.tab, t);
    DetachRecord(s1, task.tab, t);
    AttachRecord(s, task.tab, a.targetId, t);
    GetAfterRemove(s.tabs, task.tab, t);
    GetAfterRemove(s1.tabs, task.tab, t);
  }

  lemma ResumeRecord(s: State, task: Task, a: Answer, t: TabId)
    ensures ResumeStep(s, task, a).tabs.Get(t) == if t == task.tab then Resumed(s, task, a) else s.tabs.Get(t)
  {
    if task.ToggleAttach? || task.NavigationAttach? || task.CreateAttach? {
      hide ResumeStep, Resumed, JsMap.Get;
      ResumedAttach(s, task, a, t);
    } else {
      hide Detach, ForgetSession, SessionName, Save, JsMap.Put, JsMap.Remove, JsMap.Get;
      DetachRecord(s, task.tab, t);
      GetAfterRemove(s.tabs, task.tab, t);
    }
  }

  lemma EventRecord(s: State, e: Event, t: TabId)
    requires !e.Restart? && !e.Resume? && !e.TabReplaced?
    ensures Step(s, e).tabs.Get(t) == RecordAfter(s, e, t)
  {
    hide Save, Detach, SessionName, JsMap.Put, JsMap.Remove, JsMap.Get;
    match e
    case Click(tab) =>
      DetachRecord(s.(locks := s.locks + {tab}), tab, t);
      GetAfterPut(s.tabs, tab, Connecting, t);
    case DebuggerDetached(tab, _) => DetachRecord(s, tab, t);
    case TabRemoved(tab, _) => DetachRecord(s, tab, t);
    case _ =>
  }

  lemma RecordsExactly(s: State, e: Event, t: TabId)
    requires !e.Restart?
    ensures Step(s, e).tabs.Get(t) == RecordAfter(s, e, t)
  {
    hide Save, Replace, ResumeStep, SessionName, JsMap.Put, JsMap.Remove, JsMap.Get, ClickStep, DebuggerDetachedStep, ChildStep;
    match e
    case TabReplaced(added, removed, _) => if s.tabs.Has(removed) { ReplaceRecord(s, added, removed, t); }
    case Resume(task, a) => if task in s.tasks { ResumeRecord(s.(tasks := s.tasks - multiset{task}), task, a, t); }
    case _ => EventRecord(s, e, t);
  }

  // ---- the session index ----

  /** The event enters a new session; a failed re-attach after navigation takes it out again. */
  predicate Registers(s: State, e: Event) {
    && e.Resume? && e.task in s.tasks && Attaches(e.task, e.answer)
    && (e.task.NavigationAttach? ==> e.answer.relayOpen)
  }

  /** The event deletes the session: its tab was taken away, or a suspended call deletes the one it captured. */
  ghost predicate Forgets(s: State, e: Event, name: string) {
    match e
    case Click(u) => TakesAway(s, e, u) && Holds(s, u, name)
    case DebuggerDetached(u, _) => TakesAway(s, e, u) && Holds(s, u, name)
    case TabRemoved(u, _) => TakesAway(s, e, u) && Holds(s, u, name)
    case Resume(task, a) =>
      && task in s.tasks
      && if Deletes(task, a) then name == Captured(task).sessionId else TakesAway(s, e, task.tab) && NewOrHeld(s, task, a, name)
    case _ => false
  }

  /** The session of the tab once the attach, if any, has been entered. */
  ghost predicate NewOrHeld(s: State, task: Task, a: Answer, name: string) {
    if Attaches(task, a) then name == SessionName(s.nextSession) else Holds(s, task.tab, name)
  }

  ghost function IndexAfter(s: State, e: Event, name: string): Option<TabId> {
    if Registers(s, e) && name == SessionName(s.nextSession) then Some(e.task.tab)
    else if e.TabReplaced? && Renames(s, e, e.removed, e.added) && Holds(s, e.removed, name) then Some(e.added)
    else if Forgets(s, e, name) then None
    else Lookup(s.tabBySession, name)
  }

  lemma DetachIndex(s: State, tab: TabId, name: string)
    ensures Lookup(Detach(s, tab).tabBySession, name) == if Holds(s, tab, name) then None else Lookup(s.tabBySession, name)
  {
    hide Without;
  }

  lemma ForgetIndex(s: State, seen: Tab, name: string)
    ensures Lookup(ForgetSession(s, seen).tabBySession, name) ==
      if seen.Connected? && seen.sessionId == name then None else Lookup(s.tabBySession, name)
  {
  }

  lemma AttachIndex(s: State, tab: TabId, targetId: string, name: string)
    ensures Lookup(Attach(s, tab, targetId).tabBySession, name) ==
      if name == SessionName(s.nextSession) then Some(tab) else Lookup(s.tabBySession, name)
    ensures Holds(Attach(s, tab, targetId), tab, name) <==> name == SessionName(s.nextSession)
  {
    hide SessionName;
  }

  lemma ReplaceIndex(s: State, added: TabId, removed: TabId, name: string)
    requires s.tabs.Has(removed)
    ensures Lookup(Replace(s, added, removed).tabBySession, name) ==
      if Holds(s, removed, name) then Some(added) else Lookup(s.tabBySession, name)
  {
    hide Without;
  }

  lemma ResumeIndex(s: State, task: Task, a: Answer, name: string)
    ensures Lookup(ResumeStep(s, task, a).tabBySession, name) ==
      if Attaches(task, a) && name == SessionName(s.nextSession) then
        if task.NavigationAttach? && !a.relayOpen then None else Some(task.tab)
      else if Deletes(task, a) then if name == Captured(task).sessionId then None else Lookup(s.tabBySession, name)
      else if (task.NavigationAttach? && !Attaches(task, a)) || (task.ReattachLookup? && !(a.ok && a.relayOpen)) then
        if Holds(s, task.tab, name) then None else Lookup(s.tabBySession, name)
      else Lookup(s.tabBySession, name)
  {
    hide Detach, ForgetSession, Attach, SessionName, Save, JsMap.Put, JsMap.Remove, Holds, Lookup;
    var tab := task.tab;
    var s1 := Attach(s, tab, a.targetId);
    DetachIndex(s, tab, name);
    DetachIndex(s1, tab, name);
    AttachIndex(s, tab, a.targetId, name);
    ForgetIndex(s, Captured(task), name);
    ForgetIndex(DropTab(s, tab), Captured(task), name);
  }

  lemma EventIndex(s: State, e: Event, name: string)
    requires !e.Restart? && !e.Resume? && !e.TabReplaced?
    ensures Lookup(Step(s, e).tabBySession, name) == IndexAfter(s, e, name)
  {
    hide Save, Detach, SessionName, JsMap.Put, JsMap.Remove, Lookup, Holds;
    match e
    case Click(tab) =>
      SameHolds(s, s.(locks := s.locks + {tab}), tab, name);
      DetachIndex(s.(locks := s.locks + {tab}), tab, name);
    case DebuggerDetached(tab, _) => DetachIndex(s, tab, name);
    case TabRemoved(tab, _) => DetachIndex(s, tab, name);
    case _ =>
  }

  lemma IndexExactly(s: State, e: Event, name: string)
    requires !e.Restart?
    ensures Lookup(Step(s, e).tabBySession, name) == IndexAfter(s, e, name)
  {
    hide Save, Replace, ResumeStep, SessionName, Lookup, Holds, ClickStep, DebuggerDetachedStep, ChildStep;
    match e
    case TabReplaced(added, removed, _) => if s.tabs.Has(removed) { ReplaceIndex(s, added, removed, name); }
    case Resume(task, a) =>
      if task in s.tasks {
        var s1 := s.(tasks := s.tasks - multiset{task});
        SameHolds(s, s1, task.tab, name);
        ResumeIndex(s1, task, a, name);
      }
    case _ => EventIndex(s, e, name);
  }

  // ---- storage ----

  lemma ResumeSaves(s: State, task: Task, a: Answer)
    requires !(a.saved && (task.ToggleDetach? || task.Detaching? || (Attaches(task, a) && a.relayOpen)))
    ensures ResumeStep(s, task, a).stored == s.stored
  {
    hide Detach, ForgetSession, SessionName, JsMap.Put, JsMap.Remove, Persisted;
  }

  /** Storage is written by exactly the events that run persistState with success, and then holds the tables as they are. */
  lemma StorageExactly(s: State, e: Event)
    ensures Step(s, e).stored == (if Persists(s, e) then Save(Step(s, e), true) else s).stored
  {
    if Persists(s, e) {
      PersistIsCurrent(s, e);
    } else {
      hide Detach, Replace, Rehydrate, ResumeStep, JsMap.Put, JsMap.Remove, Persisted;
      match e
      case Resume(task, a) => if task in s.tasks { ResumeSaves(s.(tasks := s.tasks - multiset{task}), task, a); }
      case Restart(readable, dead) => RestartCounts(s, readable, dead);
      case _ =>
    }
  }

  // ---- child sessions over whole runs ----

  ghost predicate IsSessionName(name: string) {
    exists k: nat :: name == SessionName(k)
  }

  /** The index holds nothing but names of sessions that the worker issues. */
  ghost predicate IndexHoldsNames(s: State) {
    forall name :: name in s.tabBySession ==> IsSessionName(name)
  }

  lemma HeldIsName(s: State, t: TabId, name: string)
    requires Safe(s) && Holds(s, t, name)
    ensures IsSessionName(name)
  {
    assert name == SessionName(s.tabs.entries[t].attachOrder);
  }

  lemma RestoredIsName(s: State, e: Event, name: string)
    requires Safe(s) && e.Restart? && name in Step(s, e).tabBySession
    ensures IsSessionName(name)
  {
    var r := Step(s, e);
    RehydrateKeeps(s, e.readable, e.dead);
    if e.readable && s.stored.Some? {
      RehydrateExact(s, e.dead);
      HeldIsName(r, r.tabBySession[name], name);
    }
  }

  lemma StepKeepsNames(s: State, e: Event)
    requires Safe(s) && IndexHoldsNames(s)
    ensures IndexHoldsNames(Step(s, e))
  {
    hide Safe, Holds, SessionName, IsSessionName, Step, Forgets;
    forall name | name in Step(s, e).tabBySession ensures IsSessionName(name) {
      if e.Restart? {
        RestoredIsName(s, e, name);
      } else {
        IndexExactly(s, e, name);
        IssuedIsName(s.nextSession);
        if e.TabReplaced? && Holds(s, e.removed, name) { HeldIsName(s, e.removed, name); }
      }
    }
  }

  lemma IssuedIsName(k: nat)
    ensures IsSessionName(SessionName(k))
  {
  }

  lemma {:induction false} RunHoldsNames(events: seq<Event>)
    ensures IndexHoldsNames(Run(FirstStart, events))
  {
    if events != [] {
      hide Safe, Step, IndexHoldsNames;
      var front := events[..|events| - 1];
      RunHoldsNames(front);
      EveryRunIsSafe(front);
      StepKeepsNames(Run(FirstStart, front), events[|events| - 1]);
    }
  }

  /** None of the events takes the child session from its tab. */
  ghost predicate NeverLoses(s: State, events: seq<Event>, c: string, t: TabId) {
    forall i :: 0 <= i < |events| ==> !Loses(Run(s, events[..i]), events[i], c, t)
  }

  lemma {:induction false} ChildStays(s: State, events: seq<Event>, c: string, t: TabId)
    requires IsChildOf(s.childSessionToTab, c, t) && NeverLoses(s, events, c, t)
    ensures IsChildOf(Run(s, events).childSessionToTab, c, t)
  {
    if events != [] {
      hide Step, Loses, IsChildOf;
      var front := events[..|events| - 1];
      forall i | 0 <= i < |front| ensures !Loses(Run(s, front[..i]), front[i], c, t) {
        assert front[..i] == events[..i];
      }
      ChildStays(s, front, c, t);
      ChildrenExactly(Run(s, front), events[|events| - 1], c, t);
    }
  }

  /** A child session attached within a connected tab is reached there, under its own id, in every later state of the run
      up to the event that takes it away, as long as the tab is connected then. */
  lemma AttachedChildIsReached(before: seq<Event>, t: TabId, c: string, more: seq<Event>, targetId: string)
    requires t != 0 && c != "" && !IsSessionName(c)
    requires Live(Run(FirstStart, before), t)
    requires var s := Run(FirstStart, before + [ChildAttached(t, c)]);
      NeverLoses(s, more, c, t) && Live(Run(s, more), t)
    requires NeverMovesCaptured(before + [ChildAttached(t, c)] + more)
    ensures Route(Run(FirstStart, before + [ChildAttached(t, c)] + more), c, targetId) == ToTab(t, Some(c))
  {
    hide Step, Loses, Route, IsSessionName, NeverLoses, NeverMovesCaptured;
    var e, events := ChildAttached(t, c), before + [ChildAttached(t, c)];
    var s := Run(FirstStart, before);
    RunOneMore(before, e);
    ChildrenExactly(s, e, c, t);
    ChildStays(Step(s, e), more, c, t);
    RunConcat(FirstStart, events, more);
    RunHoldsNames(events + more);
    EveryChildSessionIsReached(events + more, c, t, targetId);
  }

  /** With nothing in between: the session attached last. */
  lemma LastAttachedIsReached(before: seq<Event>, t: TabId, c: string, targetId: string)
    requires t != 0 && c != "" && !IsSessionName(c) && Live(Run(FirstStart, before), t)
    requires NeverMovesCaptured(before + [ChildAttached(t, c)])
    ensures Route(Run(FirstStart, before + [ChildAttached(t, c)]), c, targetId) == ToTab(t, Some(c))
  {
    hide Route, IsSessionName, NeverMovesCaptured;
    var events := before + [ChildAttached(t, c)];
    assert events + [] == events;
    RunOneMore(before, ChildAttached(t, c));
    AttachedChildIsReached(before, t, c, [], targetId);
  }

  /** What the two debugger events do to the whole table. */
  lemma ChildTable(s: State, t: TabId, c: string)
    requires t != 0 && c != "" && Live(s, t)
    ensures Step(s, ChildAttached(t, c)).childSessionToTab == s.childSessionToTab[c := t]
    ensures Step(s, ChildDetached(t, c)).childSessionToTab == s.childSessionToTab - {c}
  {
  }
}
