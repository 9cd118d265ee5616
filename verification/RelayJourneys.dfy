/** Whole operations, from the event that starts one to the last call it leaves suspended, in any safe state. */
module RelayJourneys {
  import opened JsMaps
  import opened RelaySessions
  import opened RelaySessionSafety
  import opened RelaySessionOrder
  import opened RelayFrame
  import opened RelayReissue
  import opened RelayRouting
  import opened RelayEffects

  // ---- the calls and locks an event leaves ----

  predicate Succeeds(a: Answer) {
    a.ok && a.targetId != "" && a.relayOpen
  }

  /** The call that a resumed call leaves suspended, if any. */
  function AfterResume(known: bool, task: Task, a: Answer): Option<Task> {
    match task
    case ToggleAttach(t) => if Succeeds(a) then Some(Unlock(t)) else None
    case ToggleDetach(t) => Some(Unlock(t))
    case NavigationAttach(t) => if Succeeds(a) then None else Some(Detaching(t))
    case ReattachTimer(t, seen) => if known then Some(ReattachLookup(t, seen)) else None
    case ReattachLookup(t, _) => Some(if a.ok && a.relayOpen then NavigationAttach(t) else Detaching(t))
    case Probe(t, seen) => if a.ok then Some(Announce(t, seen)) else None
    case _ => None
  }

  function With(tasks: multiset<Task>, task: Option<Task>): multiset<Task> {
    if task.Some? then tasks + multiset{task.value} else tasks
  }

  lemma ResumeBegins(s: State, task: Task, a: Answer)
    ensures ResumeStep(s, task, a).tasks == With(s.tasks, AfterResume(s.tabs.Has(task.tab), task, a))
    ensures ResumeStep(s, task, a).locks ==
      if task.Unlock? || (task.ToggleAttach? && !Succeeds(a)) then s.locks - {task.tab} else s.locks
  {
    hide Detach, ForgetSession, SessionName, Save, JsMap.Put, JsMap.Remove;
  }

  lemma TakesUp(s: State, task: Task, a: Answer)
    requires task in s.tasks
    ensures Step(s, Resume(task, a)).tasks == With(s.tasks - multiset{task}, AfterResume(s.tabs.Has(task.tab), task, a))
    ensures Step(s, Resume(task, a)).locks ==
      if task.Unlock? || (task.ToggleAttach? && !Succeeds(a)) then s.locks - {task.tab} else s.locks
  {
    hide ResumeStep, AfterResume, With;
    ResumeBegins(s.(tasks := s.tasks - multiset{task}), task, a);
  }

  lemma ClickBegins(s: State, t: TabId)
    requires t != 0 && t !in s.locks
    ensures Step(s, Click(t)).locks == s.locks + {t} && Step(s, Click(t)).nextSession == s.nextSession
    ensures Step(s, Click(t)).tasks == s.tasks + multiset{if Live(s, t) then ToggleDetach(t) else ToggleAttach(t)}
  {
    hide Detach, JsMap.Put;
  }

  lemma DetachBegins(s: State, t: TabId, navigation: bool)
    requires t != 0 && s.tabs.Has(t)
    ensures var r := Step(s, DebuggerDetached(t, navigation));
      && r.locks == s.locks && r.nextSession == s.nextSession
      && r.tasks == s.tasks + multiset{if navigation then ReattachTimer(t, s.tabs.entries[t]) else Detaching(t)}
  {
    hide Detach;
  }

  lemma VisitBegins(s: State, t: TabId)
    requires Live(s, t) && s.tabs.entries[t].targetId != ""
    ensures Step(s, ReannounceVisit(t)) == s.(tasks := s.tasks + multiset{Probe(t, s.tabs.entries[t])})
  {
  }

  // ---- a click that connects ----

  /** A tab is connected under the session with this number, found by it, and in storage as it is in memory. */
  ghost predicate ConnectedAs(r: State, t: TabId, target: string, number: nat) {
    && r.tabs.Get(t) == Some(Connected(SessionName(number), target, number))
    && Indexed(r, t, SessionName(number)) && r.nextSession == number + 1
  }

  lemma AttachResumed(s: State, task: Task, a: Answer)
    requires task in s.tasks && Attaches(task, a) && Succeeds(a)
    ensures var r := Step(s, Resume(task, a));
      && ConnectedAs(r, task.tab, a.targetId, s.nextSession)
      && (a.saved ==> Save(r, true) == r)
      && r.childSessionToTab == s.childSessionToTab
  {
    hide SessionName, Step, Lookup, Save, Persists;
    var e := Resume(task, a);
    RecordsExactly(s, e, task.tab);
    IndexExactly(s, e, SessionName(s.nextSession));
    LookupIs(Step(s, e), task.tab, SessionName(s.nextSession));
    CounterMoves(s, e);
    AttachKeepsChildren(s, task, a);
    if a.saved {
      AttachPersists(s, task, a);
      PersistIsCurrent(s, e);
    }
  }

  lemma AttachPersists(s: State, task: Task, a: Answer)
    requires task in s.tasks && Attaches(task, a) && Succeeds(a) && a.saved
    ensures Persists(s, Resume(task, a))
  {
  }

  lemma AttachKeepsChildren(s: State, task: Task, a: Answer)
    requires task in s.tasks && Attaches(task, a) && Succeeds(a)
    ensures Step(s, Resume(task, a)).childSessionToTab == s.childSessionToTab
  {
    hide SessionName, Save, JsMap.Put;
  }

  lemma LookupIs(s: State, t: TabId, name: string)
    ensures Lookup(s.tabBySession, name) == Some(t) <==> Indexed(s, t, name)
  {
  }

  /** A click on a tab that is not connected, followed by a successful attach and the write: the tab is connected under the
      next session, the index leads to it, storage is current, and the tab is unlocked again with nothing under way. */
  lemma ClickConnects(s: State, t: TabId, a: Answer, b: Answer)
    requires Safe(s) && t != 0 && t !in s.locks && !Live(s, t) && Succeeds(a)
    ensures var r := Step(Step(Step(s, Click(t)), Resume(ToggleAttach(t), a)), Resume(Unlock(t), b));
      && ConnectedAs(r, t, a.targetId, s.nextSession) && (a.saved ==> Save(r, true) == r)
      && r.locks == s.locks && r.tasks == s.tasks
  {
    hide Step, Safe, Save;
    var s1 := Step(s, Click(t));
    ClickBegins(s, t);
    var s2 := Step(s1, Resume(ToggleAttach(t), a));
    AttachResumed(s1, ToggleAttach(t), a);
    TakesUp(s1, ToggleAttach(t), a);
    Unlocks(s2, t, b);
  }

  lemma Unlocks(s: State, t: TabId, a: Answer)
    requires Unlock(t) in s.tasks
    ensures Step(s, Resume(Unlock(t), a)) == s.(locks := s.locks - {t}, tasks := s.tasks - multiset{Unlock(t)})
    ensures Save(s, true) == s ==> Save(Step(s, Resume(Unlock(t), a)), true) == Step(s, Resume(Unlock(t), a))
  {
  }

  /** A click whose attach fails, for whatever reason, leaves no record, no lock and nothing under way. */
  lemma ClickFails(s: State, t: TabId, a: Answer)
    requires t != 0 && t !in s.locks && !Live(s, t) && !Succeeds(a)
    ensures var r := Step(Step(s, Click(t)), Resume(ToggleAttach(t), a));
      && !r.tabs.Has(t) && r.locks == s.locks && r.tasks == s.tasks
  {
    hide Step, SessionName;
    var s1 := Step(s, Click(t));
    ClickBegins(s, t);
    TakesUp(s1, ToggleAttach(t), a);
    RecordsExactly(s1, Resume(ToggleAttach(t), a), t);
  }

  /** A tab opened on the relay's request is attached in the same way; with the relay closed it is still entered. */
  lemma TargetConnects(s: State, t: TabId, a: Answer)
    requires t != 0 && a.ok && a.targetId != ""
    ensures var r := Step(Step(s, CreateTarget(t)), Resume(CreateAttach(t), a));
      && r.tabs.Get(t) == Some(Connected(SessionName(s.nextSession), a.targetId, s.nextSession))
      && Indexed(r, t, SessionName(s.nextSession)) && (Succeeds(a) && a.saved ==> Save(r, true) == r)
      && r.locks == s.locks && r.tasks == s.tasks
  {
    hide SessionName, Step, Lookup, Save, Persists;
    var s1, e := Step(s, CreateTarget(t)), Resume(CreateAttach(t), a);
    TargetBegins(s, t);
    TakesUp(s1, CreateAttach(t), a);
    RecordsExactly(s1, e, t);
    IndexExactly(s1, e, SessionName(s.nextSession));
    LookupIs(Step(s1, e), t, SessionName(s.nextSession));
    if Succeeds(a) && a.saved {
      AttachPersists(s1, CreateAttach(t), a);
      PersistIsCurrent(s1, e);
    }
  }

  lemma TargetBegins(s: State, t: TabId)
    requires t != 0
    ensures Step(s, CreateTarget(t)) == s.(tasks := s.tasks + multiset{CreateAttach(t)})
  {
  }

  // ---- a tab that is taken away ----

  /** Nothing is left of the tab: no record, no child session, its session in no index. */
  ghost predicate IsGone(s: State, r: State, t: TabId) {
    && !r.tabs.Has(t)
    && (forall c :: !IsChildOf(r.childSessionToTab, c, t))
    && (forall name :: Holds(s, t, name) ==> name !in r.tabBySession)
  }

  lemma NotIndexed(s: State, name: string)
    ensures Lookup(s.tabBySession, name).None? <==> name !in s.tabBySession
  {
  }

  lemma TakenAway(s: State, e: Event, t: TabId)
    requires TakesAway(s, e, t) && !e.Resume?
    ensures IsGone(s, Step(s, e), t)
  {
    hide Step, Holds, SessionName, Lookup, Deletes;
    RecordsExactly(s, e, t);
    forall c ensures !IsChildOf(Step(s, e).childSessionToTab, c, t) { ChildrenExactly(s, e, c, t); }
    forall name | Holds(s, t, name) ensures name !in Step(s, e).tabBySession {
      IndexExactly(s, e, name);
      NotIndexed(Step(s, e), name);
    }
  }

  lemma SavesNext(s: State, task: Task, a: Answer)
    requires task in s.tasks && (task.ToggleDetach? || task.Detaching?) && a.saved
    ensures var r := Step(s, Resume(task, a));
      && Save(r, true) == r
      && r.tabs == s.tabs && r.tabBySession == s.tabBySession && r.childSessionToTab == s.childSessionToTab
  {
    hide Persisted;
  }

  lemma StaysGone(s: State, r: State, v: State, t: TabId)
    requires IsGone(s, r, t)
    requires v.tabs == r.tabs && v.tabBySession == r.tabBySession && v.childSessionToTab == r.childSessionToTab
    ensures IsGone(s, v, t)
  {
  }

  /** A click on a connected tab takes it away, saves that, and ends unlocked. */
  lemma ClickDisconnects(s: State, t: TabId, a: Answer, b: Answer)
    requires t != 0 && t !in s.locks && Live(s, t) && a.saved
    ensures var r := Step(Step(Step(s, Click(t)), Resume(ToggleDetach(t), a)), Resume(Unlock(t), b));
      IsGone(s, r, t) && Save(r, true) == r && r.locks == s.locks && r.tasks == s.tasks
  {
    hide Step, IsGone, Save;
    var s1 := Step(s, Click(t));
    ClickBegins(s, t);
    TakenAway(s, Click(t), t);
    var s2 := Step(s1, Resume(ToggleDetach(t), a));
    TakesUp(s1, ToggleDetach(t), a);
    SavesNext(s1, ToggleDetach(t), a);
    Unlocks(s2, t, b);
    StaysGone(s, s1, Step(s2, Resume(Unlock(t), b)), t);
  }

  /** The debugger detaching for any reason but navigation takes the tab away and saves that. */
  lemma DetachedForGood(s: State, t: TabId, a: Answer)
    requires t != 0 && s.tabs.Has(t) && a.saved
    ensures var r := Step(Step(s, DebuggerDetached(t, false)), Resume(Detaching(t), a));
      IsGone(s, r, t) && Save(r, true) == r && r.locks == s.locks && r.tasks == s.tasks
  {
    hide Step, IsGone, Save;
    var s1 := Step(s, DebuggerDetached(t, false));
    DetachBegins(s, t, false);
    TakenAway(s, DebuggerDetached(t, false), t);
    TakesUp(s1, Detaching(t), a);
    SavesNext(s1, Detaching(t), a);
    StaysGone(s, s1, Step(s1, Resume(Detaching(t), a)), t);
  }

  /** Closing a tab does all of that at once. */
  lemma Closes(s: State, t: TabId)
    requires s.tabs.Has(t)
    ensures var r := Step(s, TabRemoved(t, true));
      IsGone(s, r, t) && Save(r, true) == r && r.locks == s.locks && r.tasks == s.tasks
  {
    hide Step, IsGone, Save;
    TakenAway(s, TabRemoved(t, true), t);
    PersistIsCurrent(s, TabRemoved(t, true));
    RemovalFrame(s, t);
  }

  lemma RemovalFrame(s: State, t: TabId)
    ensures Step(s, TabRemoved(t, true)).locks == s.locks && Step(s, TabRemoved(t, true)).tasks == s.tasks
  {
    hide Detach, Persisted;
  }

  // ---- navigation ----

  /** A navigation of a connected tab with the relay open: after the grace period the tab is connected under a new session,
      its old session is forgotten, and its child sessions and lock are as they were. */
  lemma NavigationReattaches(s: State, t: TabId, a: Answer, b: Answer, c: Answer)
    requires Safe(s) && t != 0 && Live(s, t) && b.ok && b.relayOpen && Succeeds(c)
    ensures var seen := s.tabs.entries[t];
      var s1 := Step(Step(s, DebuggerDetached(t, true)), Resume(ReattachTimer(t, seen), a));
      var r := Step(Step(s1, Resume(ReattachLookup(t, seen), b)), Resume(NavigationAttach(t), c));
      && ConnectedAs(r, t, c.targetId, s.nextSession) && (c.saved ==> Save(r, true) == r)
      && seen.sessionId !in r.tabBySession
      && r.childSessionToTab == s.childSessionToTab && r.locks == s.locks && r.tasks == s.tasks
  {
    hide Step, Save, Holds, Safe, SessionName;
    var seen := s.tabs.entries[t];
    var s0 := Step(s, DebuggerDetached(t, true));
    GraceBegins(s, t);
    var s1 := Step(s0, Resume(ReattachTimer(t, seen), a));
    GraceEnds(s0, t, seen, a);
    var s2 := Step(s1, Resume(ReattachLookup(t, seen), b));
    LooksUp(s1, t, seen, b);
    var r := Step(s2, Resume(NavigationAttach(t), c));
    AttachResumed(s2, NavigationAttach(t), c);
    TakesUp(s2, NavigationAttach(t), c);
    HeldBeforeNext(s, t);
    IndexExactly(s2, Resume(NavigationAttach(t), c), seen.sessionId);
    NotIndexed(s2, seen.sessionId);
    NotIndexed(r, seen.sessionId);
  }

  /** When Chrome no longer has the tab, or the relay is closed, the tab is taken away after the grace period. */
  lemma NavigationGivesUp(s: State, t: TabId, a: Answer, b: Answer, c: Answer)
    requires t != 0 && Live(s, t) && !(b.ok && b.relayOpen) && c.saved
    ensures var seen := s.tabs.entries[t];
      var s1 := Step(Step(s, DebuggerDetached(t, true)), Resume(ReattachTimer(t, seen), a));
      var r := Step(Step(s1, Resume(ReattachLookup(t, seen), b)), Resume(Detaching(t), c));
      IsGone(s, r, t) && Save(r, true) == r && r.locks == s.locks && r.tasks == s.tasks
  {
    hide Step, IsGone, Save, Detach;
    var seen := s.tabs.entries[t];
    var s0 := Step(s, DebuggerDetached(t, true));
    GraceBegins(s, t);
    var s1 := Step(s0, Resume(ReattachTimer(t, seen), a));
    GraceEnds(s0, t, seen, a);
    var s2 := Step(s1, Resume(ReattachLookup(t, seen), b));
    GivesUp(s1, t, seen, b);
    DetachIsGone(s, s1, t);
    TakesUp(s2, Detaching(t), c);
    SavesNext(s2, Detaching(t), c);
    StaysGone(s, Detach(s1, t), Step(s2, Resume(Detaching(t), c)), t);
  }

  lemma GivesUp(s: State, t: TabId, seen: Tab, a: Answer)
    requires ReattachLookup(t, seen) in s.tasks && !(a.ok && a.relayOpen)
    ensures Step(s, Resume(ReattachLookup(t, seen), a)) ==
      Detach(s, t).(tasks := s.tasks - multiset{ReattachLookup(t, seen)} + multiset{Detaching(t)})
  {
  }

  lemma DetachIsGone(s: State, r: State, t: TabId)
    requires r.tabs == s.tabs && r.tabBySession == s.tabBySession && r.childSessionToTab == s.childSessionToTab
    ensures IsGone(s, Detach(r, t), t)
  {
    hide Without;
  }

  lemma GraceBegins(s: State, t: TabId)
    requires t != 0 && s.tabs.Has(t)
    ensures Step(s, DebuggerDetached(t, true)) == s.(tasks := s.tasks + multiset{ReattachTimer(t, s.tabs.entries[t])})
  {
  }

  lemma GraceEnds(s: State, t: TabId, seen: Tab, a: Answer)
    requires ReattachTimer(t, seen) in s.tasks && s.tabs.Has(t)
    ensures Step(s, Resume(ReattachTimer(t, seen), a)) ==
      s.(tasks := s.tasks - multiset{ReattachTimer(t, seen)} + multiset{ReattachLookup(t, seen)})
  {
  }

  lemma LooksUp(s: State, t: TabId, seen: Tab, a: Answer)
    requires ReattachLookup(t, seen) in s.tasks && a.ok && a.relayOpen && seen.Connected?
    ensures var r := Step(s, Resume(ReattachLookup(t, seen), a));
      && !r.tabs.Has(t) && seen.sessionId !in r.tabBySession
      && r.childSessionToTab == s.childSessionToTab && r.locks == s.locks && r.nextSession == s.nextSession
      && r.tasks == s.tasks - multiset{ReattachLookup(t, seen)} + multiset{NavigationAttach(t)}
  {
    hide Without;
  }

  // ---- announcing again ----

  /** The reannounce loop tells the relay the session of each connected tab that answers, and drops the record and the
      session of one that does not. */
  lemma ReannounceTells(s: State, t: TabId, a: Answer)
    requires Safe(s) && Live(s, t)
    ensures var seen := s.tabs.entries[t];
      var s1 := Step(s, ReannounceVisit(t));
      var r := Step(s1, Resume(Probe(t, seen), a));
      if a.ok
      then r == s.(tasks := s.tasks + multiset{Announce(t, seen)})
        && forall b: Answer :: b.ok && b.relayOpen ==> Announces(r, Resume(Announce(t, seen), b)) == Some(seen.attachOrder)
      else !r.tabs.Has(t) && seen.sessionId !in r.tabBySession && r.tasks == s.tasks
  {
    hide Safe, Step;
    var seen := s.tabs.entries[t];
    LiveIsTargeted(s, t);
    VisitBegins(s, t);
    ProbeAnswered(Step(s, ReannounceVisit(t)), t, seen, a);
  }

  lemma LiveIsTargeted(s: State, t: TabId)
    requires Safe(s) && Live(s, t)
    ensures s.tabs.entries[t].targetId != ""
  {
  }

  lemma ProbeAnswered(s: State, t: TabId, seen: Tab, a: Answer)
    requires Probe(t, seen) in s.tasks && seen.Connected?
    ensures var r := Step(s, Resume(Probe(t, seen), a));
      if a.ok then r == s.(tasks := s.tasks - multiset{Probe(t, seen)} + multiset{Announce(t, seen)})
      else !r.tabs.Has(t) && seen.sessionId !in r.tabBySession && r.tasks == s.tasks - multiset{Probe(t, seen)}
  {
    hide Without;
  }
}
