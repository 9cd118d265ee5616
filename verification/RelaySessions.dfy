/** The session tables of the browser relay's service worker, cut at every `await`.

    One `Event` is one uninterrupted piece of the worker's code: either the part of a listener up to its
    first `await`, or the piece that runs when a suspended call resumes. What a suspended call remembers
    in its local variables is a `Task`; a task can resume at any later time, after any other events. So a
    run of events is any interleaving the JavaScript event loop could produce. What Chrome and the relay
    socket answer is part of the event. */
module RelaySessions {
  import opened JsMaps
  import opened Decimals

  type TabId = int

  datatype Tab =
    | Connecting
    | Connected(sessionId: string, targetId: string, attachOrder: nat)

  datatype PersistedTab = PersistedTab(tabId: TabId, sessionId: string, targetId: string, attachOrder: nat)

  /** What `chrome.storage.session` holds. It outlives the worker. */
  datatype Snapshot = Snapshot(persistedTabs: seq<PersistedTab>, nextSession: nat)

  /** A suspended call, with the locals it captured before suspending. */
  datatype Task =
    | ToggleAttach(tab: TabId)                // a click, waiting for the relay and the debugger
    | ToggleDetach(tab: TabId)                // a click, waiting for the debugger to detach
    | Unlock(tab: TabId)                      // a click, waiting for storage before its `finally`
    | CreateAttach(tab: TabId)                // Target.createTarget, waiting for the debugger
    | NavigationAttach(tab: TabId)            // re-attach after navigation, waiting for the debugger
    | Detaching(tab: TabId)                   // detachTab, waiting for the debugger to detach
    | ReattachTimer(tab: TabId, seen: Tab)    // the 500 ms grace period; `seen` is its oldState
    | ReattachLookup(tab: TabId, seen: Tab)   // the same, waiting for chrome.tabs.get
    | Probe(tab: TabId, seen: Tab)            // reannounceAttachedTabs, waiting for Runtime.evaluate
    | Announce(tab: TabId, seen: Tab)         // the same, waiting for Target.getTargetInfo before it tells the relay

  datatype Event =
    | Click(tab: TabId)
    | CreateTarget(tab: TabId)
    | ChildAttached(tab: TabId, child: string)
    | ChildDetached(tab: TabId, child: string)
    | DebuggerDetached(tab: TabId, navigation: bool)
    | TabRemoved(tab: TabId, saved: bool)
    | TabReplaced(added: TabId, removed: TabId, saved: bool)
    | ReannounceVisit(tab: TabId)
    | ReannounceEnd(saved: bool)
    | Resume(task: Task, answer: Answer)
    | Restart(readable: bool, dead: set<TabId>)

  /** How the awaited calls came back: did they succeed, which target does the debugger report (trimmed),
      is the relay socket open when the piece runs, does the storage write go through. */
  datatype Answer = Answer(ok: bool, targetId: string, relayOpen: bool, saved: bool)

  datatype State = State(
    tabs: JsMap<TabId, Tab>,
    tabBySession: map<string, TabId>,
    childSessionToTab: map<string, TabId>,
    nextSession: nat,
    locks: set<TabId>,
    stored: Option<Snapshot>,
    tasks: multiset<Task>)

  const FirstStart := State(JsMap([], map[]), map[], map[], 1, {}, None, multiset{})

  function SessionName(k: nat): (name: string)
    ensures SessionNumber(name) == k
  {
    var name := "cb-tab-" + Decimal(k);
    assert name[7..] == Decimal(k);
    name
  }

  function SessionNumber(name: string): int {
    if |name| < 7 then -1 else Value(name[7..])
  }

  // ---- the synchronous pieces ----

  /** The end of attachTab: issue a session id and enter it in both tables. */
  function Attach(s: State, tab: TabId, targetId: string): State {
    var sid := s.nextSession;
    s.(nextSession := sid + 1,
       tabs := s.tabs.Put(tab, Connected(SessionName(sid), targetId, sid)),
       tabBySession := s.tabBySession[SessionName(sid) := tab])
  }

  function ForgetSession(s: State, seen: Tab): (r: State)
    ensures r == s.(tabBySession := r.tabBySession)
  {
    if seen.Connected? then s.(tabBySession := s.tabBySession - {seen.sessionId}) else s
  }

  function DropTab(s: State, tab: TabId): State {
    s.(tabs := s.tabs.Remove(tab))
  }

  function DropChildren(s: State, tab: TabId): State {
    s.(childSessionToTab := map c | c in s.childSessionToTab && s.childSessionToTab[c] != tab :: s.childSessionToTab[c])
  }

  /** detachTab up to its first `await`, and the synchronous part of the onRemoved listener. */
  function Detach(s: State, tab: TabId): (r: State)
    ensures r == s.(tabs := s.tabs.Remove(tab), tabBySession := r.tabBySession, childSessionToTab := r.childSessionToTab)
  {
    var s1 := DropChildren(s, tab);
    DropTab(if s.tabs.Has(tab) then ForgetSession(s1, s.tabs.entries[tab]) else s1, tab)
  }

  function MoveChildren(s: State, from: TabId, to: TabId): State {
    s.(childSessionToTab :=
      map c | c in s.childSessionToTab :: if s.childSessionToTab[c] == from then to else s.childSessionToTab[c])
  }

  function Replace(s: State, added: TabId, removed: TabId): (r: State)
    requires s.tabs.Has(removed)
    ensures r == s.(tabs := r.tabs, tabBySession := r.tabBySession, childSessionToTab := r.childSessionToTab)
  {
    var tab := s.tabs.entries[removed];
    var s1 := s.(tabs := s.tabs.Remove(removed).Put(added, tab));
    var s2 := if tab.Connected? then s1.(tabBySession := s1.tabBySession[tab.sessionId := added]) else s1;
    MoveChildren(s2, removed, added)
  }

  function Entry(tabs: JsMap<TabId, Tab>, t: TabId): seq<PersistedTab> {
    match tabs.Get(t)
    case Some(Connected(sessionId, targetId, attachOrder)) =>
      if targetId != "" then [PersistedTab(t, sessionId, targetId, attachOrder)] else []
    case _ => []
  }

  /** persistState keeps the connected tabs, in table order. */
  function Persisted(tabs: JsMap<TabId, Tab>, keys: seq<TabId>): seq<PersistedTab>
  {
    if keys == [] then []
    else
      var rest := |keys| - 1;
      Persisted(tabs, keys[..rest]) + Entry(tabs, keys[rest])
  }

  function Save(s: State, saved: bool): (r: State)
    ensures r == s.(stored := r.stored)
  {
    if saved then
      s.(stored := Some(Snapshot(Persisted(s.tabs, s.tabs.keys), s.nextSession)))
    else s
  }

  function Suspend(s: State, task: Task): State {
    s.(tasks := s.tasks + multiset{task})
  }

  // ---- rehydrateState ----

  /** Phase 1: enter every stored tab. */
  function Restore(s: State, persisted: seq<PersistedTab>): State
    decreases |persisted|
  {
    if persisted == [] then s
    else
      var rest := |persisted| - 1;
      var s1 := Restore(s, persisted[..rest]);
      var e := persisted[rest];
      s1.(tabs := s1.tabs.Put(e.tabId, Connected(e.sessionId, e.targetId, e.attachOrder)),
          tabBySession := s1.tabBySession[e.sessionId := e.tabId])
  }

  /** Phase 2: drop the ones whose tab or debugger does not answer. */
  function Validate(s: State, persisted: seq<PersistedTab>, dead: set<TabId>): State
    decreases |persisted|
  {
    if persisted == [] then s
    else
      var rest := |persisted| - 1;
      var s1 := Validate(s, persisted[..rest], dead);
      var e := persisted[rest];
      if e.tabId in dead then
        s1.(tabs := s1.tabs.Remove(e.tabId), tabBySession := s1.tabBySession - {e.sessionId})
      else s1
  }

  /** A worker restart: memory is gone, storage is not; all listeners wait until rehydrateState is done. */
  function Rehydrate(s: State, readable: bool, dead: set<TabId>): State {
    var blank := FirstStart.(stored := s.stored);
    if !readable || s.stored.None? then blank
    else
      var snapshot := s.stored.value;
      var s1 := blank.(nextSession := if snapshot.nextSession > 1 then snapshot.nextSession else 1);
      Validate(Restore(s1, snapshot.persistedTabs), snapshot.persistedTabs, dead)
  }

  // ---- the listeners and the resumed calls ----

  function ClickStep(s: State, tab: TabId): State {
    if tab == 0 || tab in s.locks then s
    else
      var s1 := s.(locks := s.locks + {tab});
      if s.tabs.Has(tab) && s.tabs.entries[tab].Connected? then
        Suspend(Detach(s1, tab), ToggleDetach(tab))
      else
        Suspend(s1.(tabs := s1.tabs.Put(tab, Connecting)), ToggleAttach(tab))
  }

  function DebuggerDetachedStep(s: State, tab: TabId, navigation: bool): State {
    if tab == 0 || !s.tabs.Has(tab) then s
    else if navigation then Suspend(s, ReattachTimer(tab, s.tabs.entries[tab]))
    else Suspend(Detach(s, tab), Detaching(tab))
  }

  function ChildStep(s: State, tab: TabId, child: string, attached: bool): State {
    if tab == 0 || !s.tabs.Has(tab) || !s.tabs.entries[tab].Connected? || child == "" then s
    else s.(childSessionToTab :=
      if attached then s.childSessionToTab[child := tab] else s.childSessionToTab - {child})
  }

  function ResumeStep(s: State, task: Task, a: Answer): State {
    var attached := a.ok && a.targetId != "";
    match task
    case ToggleAttach(tab) =>
      var s1 := if attached then Attach(s, tab, a.targetId) else s;
      if attached && a.relayOpen then Suspend(Save(s1, a.saved), Unlock(tab))
      else DropTab(s1, tab).(locks := s1.locks - {tab})
    case ToggleDetach(tab) => Suspend(Save(s, a.saved), Unlock(tab))
    case Unlock(tab) => s.(locks := s.locks - {tab})
    case CreateAttach(tab) =>
      if !attached then s
      else if a.relayOpen then Save(Attach(s, tab, a.targetId), a.saved)
      else Attach(s, tab, a.targetId)
    case NavigationAttach(tab) =>
      var s1 := if attached then Attach(s, tab, a.targetId) else s;
      if attached && a.relayOpen then Save(s1, a.saved)
      else Suspend(Detach(s1, tab), Detaching(tab))
    case Detaching(tab) => Save(s, a.saved)
    case ReattachTimer(tab, seen) =>
      if s.tabs.Has(tab) then Suspend(s, ReattachLookup(tab, seen)) else s
    case ReattachLookup(tab, seen) =>
      if a.ok && a.relayOpen then Suspend(DropTab(ForgetSession(s, seen), tab), NavigationAttach(tab))
      else Suspend(Detach(s, tab), Detaching(tab))
    case Probe(tab, seen) =>
      if a.ok then Suspend(s, Announce(tab, seen)) else ForgetSession(DropTab(s, tab), seen)
    case Announce(_, _) => s
  }

  function Step(s: State, e: Event): State {
    match e
    case Click(tab) => ClickStep(s, tab)
    case CreateTarget(tab) => if tab == 0 then s else Suspend(s, CreateAttach(tab))
    case ChildAttached(tab, child) => ChildStep(s, tab, child, true)
    case ChildDetached(tab, child) => ChildStep(s, tab, child, false)
    case DebuggerDetached(tab, navigation) => DebuggerDetachedStep(s, tab, navigation)
    case TabRemoved(tab, saved) => if s.tabs.Has(tab) then Save(Detach(s, tab), saved) else s
    case TabReplaced(added, removed, saved) =>
      if s.tabs.Has(removed) then Save(Replace(s, added, removed), saved) else s
    case ReannounceVisit(tab) =>
      if s.tabs.Has(tab) && s.tabs.entries[tab].Connected? && s.tabs.entries[tab].targetId != ""
      then Suspend(s, Probe(tab, s.tabs.entries[tab])) else s
    case ReannounceEnd(saved) => Save(s, saved)
    case Resume(task, answer) =>
      if task in s.tasks then ResumeStep(s.(tasks := s.tasks - multiset{task}), task, answer) else s
    case Restart(readable, dead) => Rehydrate(s, readable, dead)
  }

  function Run(s: State, events: seq<Event>): State
    decreases |events|
  {
    if events == [] then s else Step(Run(s, events[..|events| - 1]), events[|events| - 1])
  }
}
