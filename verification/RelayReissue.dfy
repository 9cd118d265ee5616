/** Which session ids can be issued again after a restart, and which of them the relay has heard of. */
module RelayReissue {
  import opened JsMaps
  import opened RelaySessions
  import opened RelaySessionSafety
  import opened RelaySessionOrder
  import opened RelayRestart

  // ---- the counter ----

  predicate Attaches(task: Task, a: Answer) {
    (task.ToggleAttach? || task.CreateAttach? || task.NavigationAttach?) && a.ok && a.targetId != ""
  }

  /** The number an event issues, if any. */
  function Issues(s: State, e: Event): Option<nat> {
    if e.Resume? && e.task in s.tasks && Attaches(e.task, e.answer) then Some(s.nextSession) else None
  }

  /** Where the counter starts after a restart that can read storage. */
  function StoredNext(s: State): nat {
    if s.stored.Some? && s.stored.value.nextSession > 1 then s.stored.value.nextSession else 1
  }

  lemma ResumeCounts(s: State, task: Task, a: Answer)
    ensures ResumeStep(s, task, a).nextSession == s.nextSession + if Attaches(task, a) then 1 else 0
  {
    hide SessionName, Save, Detach, ForgetSession, JsMap.Put, JsMap.Remove;
  }

  lemma RestartCounts(s: State, readable: bool, dead: set<TabId>)
    ensures Rehydrate(s, readable, dead).nextSession == if readable then StoredNext(s) else 1
    ensures Rehydrate(s, readable, dead).stored == s.stored && Rehydrate(s, readable, dead).tasks == multiset{}
  {
    if readable && s.stored.Some? {
      var s1 := FirstStart.(stored := s.stored, nextSession := StoredNext(s));
      RestoreFrame(s1, s.stored.value.persistedTabs, dead);
      RestoreFrame(Restore(s1, s.stored.value.persistedTabs), s.stored.value.persistedTabs, dead);
    }
  }

  /** Only issuing a number and restarting move the counter. */
  lemma CounterMoves(s: State, e: Event)
    ensures Step(s, e).nextSession ==
      match e
      case Restart(readable, _) => if readable then StoredNext(s) else 1
      case _ => s.nextSession + if Issues(s, e).Some? then 1 else 0
  {
    hide ResumeStep, Save, Detach, Rehydrate, Replace, JsMap.Put, JsMap.Remove, Attaches, StoredNext;
    if e.Resume? { ResumeCounts(s.(tasks := s.tasks - multiset{e.task}), e.task, e.answer); }
    if e.Restart? { RestartCounts(s, e.readable, e.dead); }
  }

  /** A restart that reads no snapshot, or one behind the counter. */
  predicate FallsBack(s: State, e: Event) {
    e.Restart? && (if e.readable then StoredNext(s) else 1) < s.nextSession
  }

  /** The counter goes back on exactly these restarts. */
  lemma CounterFallsExactly(s: State, e: Event)
    ensures Step(s, e).nextSession < s.nextSession <==> FallsBack(s, e)
  {
    hide Step, Issues, StoredNext;
    CounterMoves(s, e);
  }

  // ---- numbers that were saved ----

  lemma ResumeStored(s: State, task: Task, a: Answer)
    ensures var r := ResumeStep(s, task, a); r.stored == s.stored || r.stored == Save(r, true).stored
  {
    hide SessionName, Detach, ForgetSession, JsMap.Put, JsMap.Remove, Persisted;
  }

  /** What is in storage stays, or is the new state. */
  lemma StepStored(s: State, e: Event)
    ensures Step(s, e).stored == s.stored || Step(s, e).stored == Save(Step(s, e), true).stored
  {
    hide ResumeStep, Detach, Rehydrate, Replace, JsMap.Put, JsMap.Remove, Persisted;
    if e.Resume? { ResumeStored(s.(tasks := s.tasks - multiset{e.task}), e.task, e.answer); }
    if e.Restart? { RestartCounts(s, e.readable, e.dead); }
  }

  /** The counter is at least where a restart would put it. */
  ghost predicate Ahead(s: State) {
    StoredNext(s) <= s.nextSession
  }

  predicate Readable(e: Event) {
    e.Restart? ==> e.readable
  }

  lemma StepStaysAhead(s: State, e: Event)
    requires Ahead(s) && Readable(e)
    ensures Ahead(Step(s, e)) && StoredNext(s) <= StoredNext(Step(s, e))
  {
    hide Step, Persisted;
    CounterMoves(s, e);
    StepStored(s, e);
  }

  ghost predicate AllReadable(events: seq<Event>) {
    forall i :: 0 <= i < |events| ==> Readable(events[i])
  }

  lemma {:induction false} RunStaysAhead(s: State, events: seq<Event>)
    requires Ahead(s) && AllReadable(events)
    ensures Ahead(Run(s, events)) && StoredNext(s) <= StoredNext(Run(s, events))
  {
    hide Step, Ahead, StoredNext;
    if events != [] {
      RunStaysAhead(s, events[..|events| - 1]);
      StepStaysAhead(Run(s, events[..|events| - 1]), events[|events| - 1]);
    }
  }

  ghost predicate IssuesIn(s: State, events: seq<Event>, k: nat) {
    exists i :: 0 <= i < |events| && Issues(Run(s, events[..i]), events[i]) == Some(k)
  }

  /** A number below the stored counter is never issued again, whatever happens, as long as restarts can read storage. */
  lemma SavedIsSpent(s: State, events: seq<Event>, k: nat)
    requires Ahead(s) && AllReadable(events) && k < StoredNext(s)
    ensures !IssuesIn(s, events, k)
  {
    hide Run, StoredNext;
    forall i | 0 <= i < |events| ensures Issues(Run(s, events[..i]), events[i]) != Some(k) {
      RunStaysAhead(s, events[..i]);
    }
  }

  // ---- a number that was not saved can come back ----

  /** Every write succeeds and every restart can read storage. */
  predicate Reliable(e: Event) {
    match e
    case TabRemoved(_, saved) => saved
    case TabReplaced(_, _, saved) => saved
    case ReannounceEnd(saved) => saved
    case Resume(_, answer) => answer.saved
    case Restart(readable, _) => readable
    case _ => true
  }

  ghost predicate AllReliable(events: seq<Event>) {
    forall i :: 0 <= i < |events| ==> Reliable(events[i])
  }

  const Closed := Answer(true, "T", false, true)

  lemma {:induction false} RunConcat(s: State, a: seq<Event>, b: seq<Event>)
    ensures Run(s, a + b) == Run(Run(s, a), b)
  {
    hide Step;
    if b == [] {
      assert a + b == a;
    } else {
      assert (a + b)[..|a + b| - 1] == a + b[..|b| - 1];
      RunConcat(s, a, b[..|b| - 1]);
    }
  }

  lemma IssuesLater(s: State, a: seq<Event>, b: seq<Event>, k: nat)
    requires IssuesIn(Run(s, a), b, k)
    ensures IssuesIn(s, a + b, k)
  {
    hide Run, Issues;
    var i :| 0 <= i < |b| && Issues(Run(Run(s, a), b[..i]), b[i]) == Some(k);
    RunConcat(s, a, b[..i]);
    assert (a + b)[..|a| + i] == a + b[..i] && (a + b)[|a| + i] == b[i];
  }

  const OneMore := [CreateTarget(1), Resume(CreateAttach(1), Closed)]

  /** Attaching a new target while the relay is closed issues the next number, and saves nothing. */
  lemma IssuesNext(s: State)
    ensures IssuesIn(s, OneMore, s.nextSession) && Run(s, OneMore).nextSession == s.nextSession + 1
  {
    var s1 := Step(s, CreateTarget(1));
    RunTwo(s, CreateTarget(1), Resume(CreateAttach(1), Closed));
    CounterMoves(s, CreateTarget(1));
    CounterMoves(s1, Resume(CreateAttach(1), Closed));
    assert CreateAttach(1) in s1.tasks;
    assert OneMore[..1] == [CreateTarget(1)];
    assert Issues(Run(s, OneMore[..1]), OneMore[1]) == Some(s.nextSession);
  }

  lemma RunTwo(s: State, e: Event, f: Event)
    ensures Run(s, [e]) == Step(s, e) && Run(s, [e, f]) == Step(Step(s, e), f)
  {
    hide Step;
    assert [e][..0] == [] && [e, f][..1] == [e];
  }

  lemma {:induction false} CountUpTo(s: State, k: nat) returns (events: seq<Event>)
    requires s.nextSession <= k
    ensures AllReliable(events) && IssuesIn(s, events, k)
    decreases k - s.nextSession
  {
    hide Run, IssuesIn;
    IssuesNext(s);
    if s.nextSession == k {
      events := OneMore;
    } else {
      var more := CountUpTo(Run(s, OneMore), k);
      events := OneMore + more;
      IssuesLater(s, OneMore, more, k);
    }
  }

  /** A number that was issued can be issued again, with every write succeeding and all of storage readable, if and only if
      it is not below the stored counter. */
  lemma ReissuableExactly(s: State, k: nat)
    requires Ahead(s) && 1 <= k < s.nextSession
    ensures (exists events :: AllReliable(events) && IssuesIn(s, events, k)) <==> StoredNext(s) <= k
  {
    hide Run, IssuesIn, StoredNext;
    if StoredNext(s) <= k {
      var restart := [Restart(true, {})];
      RunTwo(s, Restart(true, {}), Restart(true, {}));
      CounterMoves(s, Restart(true, {}));
      var more := CountUpTo(Run(s, restart), k);
      IssuesLater(s, restart, more, k);
      assert AllReliable(restart + more);
    } else {
      forall events | AllReliable(events) ensures !IssuesIn(s, events, k) {
        ReliableIsReadable(events);
        SavedIsSpent(s, events, k);
      }
    }
  }

  lemma ReliableIsReadable(events: seq<Event>)
    requires AllReliable(events)
    ensures AllReadable(events)
  {
  }

  // ---- what the relay is told ----

  /** The number of the session that an event announces to the relay: a tab attached while the relay is open, or a tab
      announced again after a reconnect. */
  function Announces(s: State, e: Event): Option<nat> {
    if !e.Resume? || e.task !in s.tasks || !e.answer.relayOpen then None
    else if Attaches(e.task, e.answer) then Some(s.nextSession)
    else if e.task.Announce? && e.answer.ok && e.task.seen.Connected? then Some(e.task.seen.attachOrder)
    else None
  }

  /** An attach that is announced is saved in the same piece of code. */
  lemma AttachedIsSaved(s: State, e: Event)
    requires s.nextSession >= 1 && Announces(s, e).Some? && Attaches(e.task, e.answer) && e.answer.saved
    ensures Announces(s, e).value < StoredNext(Step(s, e))
  {
    hide SessionName, Persisted, JsMap.Put;
  }

  lemma FirstIsAhead()
    ensures Ahead(FirstStart)
  {
  }

  /** In every run in which all writes succeed and storage stays readable, a session that was announced when its tab was
      attached never has its id issued again, across any number of restarts. */
  lemma AnnouncedAtAttachIsSpent(events: seq<Event>, i: nat, more: seq<Event>, k: nat)
    requires i < |events| && AllReliable(events) && AllReliable(more)
    requires Announces(Run(FirstStart, events[..i]), events[i]) == Some(k) && Attaches(events[i].task, events[i].answer)
    ensures !IssuesIn(Run(FirstStart, events[..i + 1]), events[i + 1..] + more, k)
  {
    hide Step, Run, IssuesIn, StoredNext, Announces, Safe;
    var s, r := Run(FirstStart, events[..i]), Run(FirstStart, events[..i + 1]);
    EveryRunIsSafe(events[..i]);
    SafeCounts(s);
    assert events[..i + 1] == events[..i] + [events[i]];
    RunOneMore(events[..i], events[i]);
    FirstIsAhead();
    ReliableIsReadable(events[..i + 1]);
    RunStaysAhead(FirstStart, events[..i + 1]);
    AnnouncingReads(s, events[i]);
    AttachedIsSaved(s, events[i]);
    assert AllReliable(events[i + 1..] + more);
    ReliableIsReadable(events[i + 1..] + more);
    SavedIsSpent(r, events[i + 1..] + more, k);
  }

  lemma SafeCounts(s: State)
    requires Safe(s)
    ensures s.nextSession >= 1
  {
  }

  /** A suspended announcement names a session that was issued. */
  ghost predicate AnnouncesIssued(s: State) {
    forall task :: task in s.tasks && task.Announce? ==> Issued(task.seen, s.nextSession)
  }

  lemma ResumeAnnounces(s: State, task: Task, a: Answer, t: Task)
    requires t.Announce? && t in ResumeStep(s, task, a).tasks
    ensures t in s.tasks || (task.Probe? && task.seen == t.seen)
  {
    hide SessionName, Save, Detach, ForgetSession, JsMap.Put, JsMap.Remove;
  }

  lemma StepAnnounces(s: State, e: Event, t: Task)
    requires !e.Restart? && t.Announce? && t in Step(s, e).tasks
    ensures t in s.tasks || (e.Resume? && e.task in s.tasks && e.task.Probe? && e.task.seen == t.seen)
  {
    hide ResumeStep, Save, Detach, Replace, JsMap.Put, JsMap.Remove;
    if e.Resume? && e.task in s.tasks { ResumeAnnounces(s.(tasks := s.tasks - multiset{e.task}), e.task, e.answer, t); }
  }

  lemma IssuedLater(tab: Tab, next: nat, later: nat)
    requires Issued(tab, next) && next <= later
    ensures Issued(tab, later)
  {
  }

  lemma ProbeWasIssued(s: State, task: Task)
    requires Safe(s) && task in s.tasks && task.Probe?
    ensures Issued(task.seen, s.nextSession)
  {
    assert Issued(Captured(task), s.nextSession);
  }

  lemma StepKeepsIssued(s: State, e: Event)
    requires Safe(s) && AnnouncesIssued(s)
    ensures AnnouncesIssued(Step(s, e))
  {
    hide Step, Safe, Issued;
    CounterMoves(s, e);
    if e.Restart? {
      RehydrateForgetsTasks(s, e);
    } else {
      forall t | t in Step(s, e).tasks && t.Announce? ensures Issued(t.seen, Step(s, e).nextSession) {
        StepAnnounces(s, e, t);
        if t !in s.tasks { ProbeWasIssued(s, e.task); }
        IssuedLater(t.seen, s.nextSession, Step(s, e).nextSession);
      }
    }
  }

  lemma {:induction false} EveryAnnouncementIsIssued(events: seq<Event>)
    ensures AnnouncesIssued(Run(FirstStart, events))
  {
    hide Step, Safe;
    if events != [] {
      EveryAnnouncementIsIssued(events[..|events| - 1]);
      EveryRunIsSafe(events[..|events| - 1]);
      StepKeepsIssued(Run(FirstStart, events[..|events| - 1]), events[|events| - 1]);
    }
  }

  lemma AnnouncedWasIssued(s: State, e: Event)
    requires Safe(s) && AnnouncesIssued(s) && Announces(s, e).Some?
    ensures 1 <= Announces(s, e).value < Step(s, e).nextSession
  {
    hide Step, Safe;
    SafeCounts(s);
    CounterMoves(s, e);
  }

  /** In every run in which storage stays readable: an id that an event announces to the relay can be issued a second time,
      even with every later write succeeding, if and only if storage does not cover it after that event. */
  lemma AnnouncedAgainExactly(events: seq<Event>, e: Event)
    requires AllReadable(events) && Announces(Run(FirstStart, events), e).Some?
    ensures var k, r := Announces(Run(FirstStart, events), e).value, Step(Run(FirstStart, events), e);
      (exists more :: AllReliable(more) && IssuesIn(r, more, k)) <==> StoredNext(r) <= k
  {
    hide Step, Run, IssuesIn, StoredNext, Safe, Announces;
    var s := Run(FirstStart, events);
    EveryRunIsSafe(events);
    EveryAnnouncementIsIssued(events);
    FirstIsAhead();
    RunStaysAhead(FirstStart, events);
    AnnouncedWasIssued(s, e);
    AnnouncingReads(s, e);
    StepStaysAhead(s, e);
    ReissuableExactly(Step(s, e), Announces(s, e).value);
  }

  lemma AnnouncingReads(s: State, e: Event)
    requires Announces(s, e).Some?
    ensures Readable(e) && e.Resume?
  {
  }

  // ---- two runs in which an announced id comes back ----

  const Lost := Answer(true, "T", true, false)

  /** A write that fails: the tab is announced, the worker restarts, and the next tab gets the same id. */
  lemma AnIdComesBackAfterALostWrite()
    ensures
      var s := Step(FirstStart, Click(1));
      var r := Step(Step(Step(s, Resume(ToggleAttach(1), Lost)), Restart(true, {})), Click(2));
      Announces(s, Resume(ToggleAttach(1), Lost)) == Some(1) && Announces(r, Resume(ToggleAttach(2), Yes)) == Some(1)
  {
    hide SessionName, JsMap.Put;
    var s := Step(FirstStart, Click(1));
    assert ToggleAttach(1) in s.tasks;
    var t := Step(s, Resume(ToggleAttach(1), Lost));
    assert t.stored.None?;
    RestartCounts(t, true, {});
  }

  /** Two targets attached while the relay is closed. */
  function Unsaved(): State {
    var s := Step(Step(FirstStart, CreateTarget(1)), CreateTarget(2));
    Step(Step(s, Resume(CreateAttach(1), Closed)), Resume(CreateAttach(2), Closed))
  }

  lemma UnsavedIs()
    ensures var s := Unsaved();
      && s.tabs.Get(1) == Some(Connected(SessionName(1), "T", 1)) && s.stored.None? && s.nextSession == 3
      && s.tasks == multiset{}
  {
    hide SessionName;
    var s := Step(Step(FirstStart, CreateTarget(1)), CreateTarget(2));
    assert s == FirstStart.(tasks := multiset{CreateAttach(1), CreateAttach(2)});
    hide Step;
    AttachClosed(s, 1);
    var r := Attach(s.(tasks := s.tasks - multiset{CreateAttach(1)}), 1, "T");
    AttachClosed(r, 2);
    hide Attach;
    AttachedAlone(s, r);
  }

  lemma AttachedAlone(s: State, r: State)
    requires s == FirstStart.(tasks := multiset{CreateAttach(1), CreateAttach(2)})
    requires r == Attach(s.(tasks := s.tasks - multiset{CreateAttach(1)}), 1, "T")
    ensures var v := Attach(r.(tasks := r.tasks - multiset{CreateAttach(2)}), 2, "T");
      && CreateAttach(2) in r.tasks && v.tabs.Get(1) == Some(Connected(SessionName(1), "T", 1))
      && v.stored.None? && v.nextSession == 3 && v.tasks == multiset{}
  {
    hide SessionName;
  }

  lemma AttachClosed(s: State, tab: TabId)
    ensures CreateAttach(tab) in s.tasks ==>
      Step(s, Resume(CreateAttach(tab), Closed)) == Attach(s.(tasks := s.tasks - multiset{CreateAttach(tab)}), tab, "T")
  {
    hide Attach;
  }

  /** Every write succeeds, and still: after the relay comes back the loop announces the first tab, the worker is
      stopped while the loop waits for the second, and the next tab attached gets the first tab's id. */
  lemma AnIdComesBackAfterReannouncing()
    ensures
      var seen := Connected(SessionName(1), "T", 1);
      var s := Step(Step(Unsaved(), ReannounceVisit(1)), Resume(Probe(1, seen), Yes));
      var r := Step(Step(Step(s, Resume(Announce(1, seen), Yes)), Restart(true, {})), CreateTarget(3));
      Announces(s, Resume(Announce(1, seen), Yes)) == Some(1) && Announces(r, Resume(CreateAttach(3), Yes)) == Some(1)
  {
    hide SessionName, Unsaved;
    UnsavedIs();
    var seen := Connected(SessionName(1), "T", 1);
    var s1 := Step(Unsaved(), ReannounceVisit(1));
    assert s1.tasks == multiset{Probe(1, seen)};
    var s := Step(s1, Resume(Probe(1, seen), Yes));
    assert s.tasks == multiset{Announce(1, seen)};
    var t := Step(s, Resume(Announce(1, seen), Yes));
    assert t.stored.None?;
    RestartCounts(t, true, {});
  }

  // ---- storage is current after every piece that saves ----

  /** The event runs persistState and the write succeeds. */
  predicate Persists(s: State, e: Event) {
    match e
    case TabRemoved(tab, saved) => saved && s.tabs.Has(tab)
    case TabReplaced(_, removed, saved) => saved && s.tabs.Has(removed)
    case ReannounceEnd(saved) => saved
    case Resume(task, answer) =>
      task in s.tasks && answer.saved
      && (task.ToggleDetach? || task.Detaching? || (Attaches(task, answer) && answer.relayOpen))
    case _ => false
  }

  lemma PersistIsCurrent(s: State, e: Event)
    requires Persists(s, e)
    ensures Save(Step(s, e), true) == Step(s, e)
  {
    hide Persisted, SessionName, Detach, Replace, JsMap.Put, JsMap.Remove;
  }

  /** A restart after any such event gives back exactly the connected tabs that still answer, and no number issued before
      it can be issued again. */
  lemma RestartAfterPersist(s: State, e: Event, dead: set<TabId>)
    requires Safe(s) && Persists(s, e)
    ensures var t := Step(s, e); var r := Step(t, Restart(true, dead));
      && (forall u :: u in r.tabs.entries <==> u in t.tabs.entries && t.tabs.entries[u].Connected? && u !in dead)
      && (forall u :: u in r.tabs.entries ==> r.tabs.entries[u] == t.tabs.entries[u])
      && (forall name, u :: (name in r.tabBySession && r.tabBySession[name] == u) <==> Holds(r, u, name))
      && r.nextSession == t.nextSession
  {
    hide *;
    StepKeeps(s, e);
    PersistIsCurrent(s, e);
    RestartRestores(Step(s, e), dead);
    RestartIs(Step(s, e), dead);
  }

  lemma RestartIs(s: State, dead: set<TabId>)
    ensures Step(s, Restart(true, dead)) == Rehydrate(s, true, dead)
  {
  }
}
