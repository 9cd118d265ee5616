/** The service worker itself: its tables are fields that every listener updates in place. */
module RelayWorker {
  import opened JsMaps
  import opened RelaySessions
  import opened RelaySessionSafety
  import opened RelayRouting

  class Worker {
    var tabs: JsMap<TabId, Tab>
    var tabBySession: map<string, TabId>
    var childSessionToTab: map<string, TabId>
    var nextSession: nat
    var tabOperationLocks: set<TabId>
    var stored: Option<Snapshot>        // chrome.storage.session
    var tasks: multiset<Task>           // the calls suspended at an `await` or on a timer

    ghost function View(): State
      reads this
    {
      State(tabs, tabBySession, childSessionToTab, nextSession, tabOperationLocks, stored, tasks)
    }

    constructor ()
      ensures View() == FirstStart
    {
      tabs, tabBySession, childSessionToTab, nextSession := JsMap([], map[]), map[], map[], 1;
      tabOperationLocks, stored := {}, None;
      tasks := multiset{};
    }

    method PersistState(saved: bool)
      modifies this`stored
      ensures View() == Save(old(View()), saved) == Step(old(View()), ReannounceEnd(saved))
    {
      var entries: seq<PersistedTab> := [];
      for i := 0 to |tabs.keys|
        invariant entries == Persisted(tabs, tabs.keys[..i])
      {
        assert tabs.keys[..i + 1][..i] == tabs.keys[..i];
        match tabs.Get(tabs.keys[i]) {
          case Some(Connected(sessionId, targetId, attachOrder)) =>
            if targetId != "" {
              entries := entries + [PersistedTab(tabs.keys[i], sessionId, targetId, attachOrder)];
            }
          case _ =>
        }
      }
      assert tabs.keys[..|tabs.keys|] == tabs.keys;
      if saved { stored := Some(Snapshot(entries, nextSession)); }
    }

    method RehydrateState(readable: bool, dead: set<TabId>)
      modifies this
      ensures View() == Step(old(View()), Restart(readable, dead))
    {
      hide Restore, Validate;
      tabs, tabBySession, childSessionToTab, nextSession := JsMap([], map[]), map[], map[], 1;
      tabOperationLocks := {};
      tasks := multiset{};
      if !readable || stored.None? { return; }
      if stored.value.nextSession > 1 { nextSession := stored.value.nextSession; }
      EnterAll(stored.value.persistedTabs);
      ProbeAll(stored.value.persistedTabs, dead);
    }

    /** Phase 1 of rehydrateState. */
    method EnterAll(entries: seq<PersistedTab>)
      modifies this`tabs, this`tabBySession
      ensures View() == Restore(old(View()), entries)
    {
      hide JsMap.Put;
      for i := 0 to |entries|
        invariant View() == Restore(old(View()), entries[..i])
      {
        assert entries[..i + 1][..i] == entries[..i];
        var e := entries[i];
        tabs := tabs.Put(e.tabId, Connected(e.sessionId, e.targetId, e.attachOrder));
        tabBySession := tabBySession[e.sessionId := e.tabId];
      }
      assert entries[..|entries|] == entries;
    }

    /** Phase 2 of rehydrateState. */
    method ProbeAll(entries: seq<PersistedTab>, dead: set<TabId>)
      modifies this`tabs, this`tabBySession
      ensures View() == Validate(old(View()), entries, dead)
    {
      hide JsMap.Remove;
      for i := 0 to |entries|
        invariant View() == Validate(old(View()), entries[..i], dead)
      {
        assert entries[..i + 1][..i] == entries[..i];
        var e := entries[i];
        if e.tabId in dead {
          tabs := tabs.Remove(e.tabId);
          tabBySession := tabBySession - {e.sessionId};
        }
      }
      assert entries[..|entries|] == entries;
    }

    method ReleaseChildren(tab: TabId)
      modifies this`childSessionToTab
      ensures View() == DropChildren(old(View()), tab)
    {
      var todo := childSessionToTab.Keys;
      while todo != {}
        invariant todo <= old(childSessionToTab).Keys
        invariant childSessionToTab == map c | c in old(childSessionToTab) && (c in todo || old(childSessionToTab)[c] != tab)
                                       :: old(childSessionToTab)[c]
      {
        var c :| c in todo;
        if childSessionToTab[c] == tab { childSessionToTab := childSessionToTab - {c}; }
        todo := todo - {c};
      }
    }

    method HandOverChildren(from: TabId, to: TabId)
      modifies this`childSessionToTab
      ensures View() == MoveChildren(old(View()), from, to)
    {
      var todo := childSessionToTab.Keys;
      while todo != {}
        invariant todo <= old(childSessionToTab).Keys
        invariant childSessionToTab == map c | c in old(childSessionToTab) ::
          if old(childSessionToTab)[c] == from && c !in todo then to else old(childSessionToTab)[c]
      {
        var c :| c in todo;
        if childSessionToTab[c] == from { childSessionToTab := childSessionToTab[c := to]; }
        todo := todo - {c};
      }
    }

    method DetachTab(tab: TabId)
      modifies this
      ensures View() == Detach(old(View()), tab)
    {
      ReleaseChildren(tab);
      if tabs.Has(tab) && tabs.entries[tab].Connected? {
        tabBySession := tabBySession - {tabs.entries[tab].sessionId};
      }
      tabs := tabs.Remove(tab);
    }

    method AttachTab(tab: TabId, targetId: string)
      modifies this`tabs, this`tabBySession, this`nextSession
      ensures View() == Attach(old(View()), tab, targetId)
    {
      var sid := nextSession;
      nextSession := nextSession + 1;
      var sessionId := SessionName(sid);
      tabs := tabs.Put(tab, Connected(sessionId, targetId, sid));
      tabBySession := tabBySession[sessionId := tab];
    }

    method OnClicked(tab: TabId)
      modifies this
      ensures View() == Step(old(View()), Click(tab))
    {
      if tab == 0 || tab in tabOperationLocks { return; }
      tabOperationLocks := tabOperationLocks + {tab};
      if tabs.Has(tab) && tabs.entries[tab].Connected? {
        DetachTab(tab);
        tasks := tasks + multiset{ToggleDetach(tab)};
      } else {
        tabs := tabs.Put(tab, Connecting);
        tasks := tasks + multiset{ToggleAttach(tab)};
      }
    }

    method OnCreateTarget(tab: TabId)
      modifies this`tasks
      ensures View() == Step(old(View()), CreateTarget(tab))
    {
      if tab != 0 { tasks := tasks + multiset{CreateAttach(tab)}; }
    }

    method OnDebuggerDetach(tab: TabId, navigation: bool)
      modifies this
      ensures View() == Step(old(View()), DebuggerDetached(tab, navigation))
    {
      if tab == 0 || !tabs.Has(tab) { return; }
      if navigation {
        tasks := tasks + multiset{ReattachTimer(tab, tabs.entries[tab])};
      } else {
        DetachTab(tab);
        tasks := tasks + multiset{Detaching(tab)};
      }
    }

    method OnDebuggerEvent(tab: TabId, child: string, attached: bool)
      modifies this`childSessionToTab
      ensures View() == Step(old(View()), if attached then ChildAttached(tab, child) else ChildDetached(tab, child))
    {
      if tab == 0 || !tabs.Has(tab) || !tabs.entries[tab].Connected? || child == "" { return; }
      if attached {
        childSessionToTab := childSessionToTab[child := tab];
      } else {
        childSessionToTab := childSessionToTab - {child};
      }
    }

    method OnRemoved(tab: TabId, saved: bool)
      modifies this
      ensures View() == Step(old(View()), TabRemoved(tab, saved))
    {
      if !tabs.Has(tab) { return; }
      DetachTab(tab);
      PersistState(saved);
    }

    method OnReplaced(added: TabId, removed: TabId, saved: bool)
      modifies this
      ensures View() == Step(old(View()), TabReplaced(added, removed, saved))
    {
      if !tabs.Has(removed) { return; }
      var tab := tabs.entries[removed];
      tabs := tabs.Remove(removed);
      tabs := tabs.Put(added, tab);
      if tab.Connected? { tabBySession := tabBySession[tab.sessionId := added]; }
      HandOverChildren(removed, added);
      assert View() == Replace(old(View()), added, removed);
      PersistState(saved);
    }

    method ProbeTab(tab: TabId)
      modifies this`tasks
      ensures View() == Step(old(View()), ReannounceVisit(tab))
    {
      if tabs.Has(tab) && tabs.entries[tab].Connected? && tabs.entries[tab].targetId != "" {
        tasks := tasks + multiset{Probe(tab, tabs.entries[tab])};
      }
    }

    /** A click's attach: the record is entered, then announced, then saved; a failure anywhere drops the tab. */
    method FinishToggleAttach(tab: TabId, a: Answer)
      modifies this
      ensures View() == ResumeStep(old(View()), ToggleAttach(tab), a)
    {
      var attached := a.ok && a.targetId != "";
      if attached { AttachTab(tab, a.targetId); }
      if attached && a.relayOpen {
        PersistState(a.saved);
        tasks := tasks + multiset{Unlock(tab)};
      } else {
        tabs := tabs.Remove(tab);
        tabOperationLocks := tabOperationLocks - {tab};
      }
    }

    method FinishNavigationAttach(tab: TabId, a: Answer)
      modifies this
      ensures View() == ResumeStep(old(View()), NavigationAttach(tab), a)
    {
      var attached := a.ok && a.targetId != "";
      if attached { AttachTab(tab, a.targetId); }
      if attached && a.relayOpen {
        PersistState(a.saved);
      } else {
        DetachTab(tab);
        tasks := tasks + multiset{Detaching(tab)};
      }
    }

    method Reattach(tab: TabId, seen: Tab, a: Answer)
      modifies this
      ensures View() == ResumeStep(old(View()), ReattachLookup(tab, seen), a)
    {
      if a.ok && a.relayOpen {
        if seen.Connected? { tabBySession := tabBySession - {seen.sessionId}; }
        tabs := tabs.Remove(tab);
        tasks := tasks + multiset{NavigationAttach(tab)};
      } else {
        DetachTab(tab);
        tasks := tasks + multiset{Detaching(tab)};
      }
    }

    method FinishCreateAttach(tab: TabId, a: Answer)
      modifies this
      ensures View() == ResumeStep(old(View()), CreateAttach(tab), a)
    {
      if a.ok && a.targetId != "" {
        AttachTab(tab, a.targetId);
        if a.relayOpen { PersistState(a.saved); }
      }
    }

    method FinishProbe(tab: TabId, seen: Tab, a: Answer)
      modifies this
      ensures View() == ResumeStep(old(View()), Probe(tab, seen), a)
    {
      if a.ok {
        tasks := tasks + multiset{Announce(tab, seen)};
      } else {
        tabs := tabs.Remove(tab);
        if seen.Connected? { tabBySession := tabBySession - {seen.sessionId}; }
      }
    }

    /** A suspended call continues with what it captured before suspending. */
    method ResumeCall(task: Task, a: Answer)
      modifies this
      ensures View() == Step(old(View()), Resume(task, a))
    {
      hide Detach, Save, Attach, JsMap.Put, JsMap.Remove;
      if task !in tasks { return; }
      tasks := tasks - multiset{task};
      var tab := task.tab;
      match task {
        case ToggleAttach(_) => FinishToggleAttach(tab, a);
        case ToggleDetach(_) =>
          PersistState(a.saved);
          tasks := tasks + multiset{Unlock(tab)};
        case Unlock(_) =>
          tabOperationLocks := tabOperationLocks - {tab};
        case CreateAttach(_) => FinishCreateAttach(tab, a);
        case NavigationAttach(_) => FinishNavigationAttach(tab, a);
        case Detaching(_) =>
          PersistState(a.saved);
        case ReattachTimer(_, seen) =>
          if tabs.Has(tab) { tasks := tasks + multiset{ReattachLookup(tab, seen)}; }
        case ReattachLookup(_, seen) => Reattach(tab, seen, a);
        case Probe(_, seen) => FinishProbe(tab, seen, a);
        case Announce(_, _) =>
      }
    }

    /** The event loop: one listener or one resumed call at a time. */
    method Dispatch(e: Event)
      modifies this
      ensures View() == Step(old(View()), e)
      ensures old(Safe(View())) ==> Safe(View())
    {
      hide Step, Safe;
      if Safe(View()) { StepKeeps(View(), e); }
      match e {
        case Click(tab) => OnClicked(tab);
        case CreateTarget(tab) => OnCreateTarget(tab);
        case ChildAttached(tab, child) => OnDebuggerEvent(tab, child, true);
        case ChildDetached(tab, child) => OnDebuggerEvent(tab, child, false);
        case DebuggerDetached(tab, navigation) => OnDebuggerDetach(tab, navigation);
        case TabRemoved(tab, saved) => OnRemoved(tab, saved);
        case TabReplaced(added, removed, saved) => OnReplaced(added, removed, saved);
        case ReannounceVisit(tab) => ProbeTab(tab);
        case ReannounceEnd(saved) => PersistState(saved);
        case Resume(task, a) => ResumeCall(task, a);
        case Restart(readable, dead) => RehydrateState(readable, dead);
      }
    }

    method FindTab(wanted: Option<string>) returns (r: Option<TabId>)
      ensures r == FirstTab(tabs, tabs.keys, wanted)
    {
      r := None;
      for i := 0 to |tabs.keys|
        invariant FirstTab(tabs, tabs.keys, wanted) == FirstTab(tabs, tabs.keys[i..], wanted)
      {
        var t := tabs.keys[i];
        if tabs.Has(t) && Matches(tabs.entries[t], wanted) { return Some(t); }
      }
    }

    method RouteCommand(sessionId: string, targetId: string) returns (d: Destination)
      ensures d == Route(View(), sessionId, targetId)
    {
      var found: Option<TabId> := None;
      if sessionId != "" { found := Or(Lookup(tabBySession, sessionId), Lookup(childSessionToTab, sessionId)); }
      var byTarget: Option<TabId> := None;
      if targetId != "" { byTarget := FindTab(Some(targetId)); }
      var any := FindTab(None);
      found := Or(found, Or(byTarget, any));
      if found.None? || found.value == 0 { return NoTab; }
      var t := found.value;
      if sessionId != "" && tabs.Has(t) && tabs.entries[t].Connected? && tabs.entries[t].sessionId != sessionId {
        d := ToTab(t, Some(sessionId));
      } else {
        d := ToTab(t, None);
      }
    }
  }
}
