/** Where handleForwardCdpCommand sends a command that the relay forwards. */
module RelayRouting {
  import opened JsMaps
  import opened RelaySessions
  import opened RelaySessionSafety
  import opened RelaySessionOrder

  /** The tab the command is for, and the child session within it, if any. */
  datatype Destination = NoTab | ToTab(tab: TabId, child: Option<string>)

  /** Connected, and showing the wanted target if one is wanted. */
  predicate Matches(tab: Tab, wanted: Option<string>) {
    tab.Connected? && (wanted.None? || tab.targetId == wanted.value)
  }

  /** The first matching tab, in table order. */
  function FirstTab(tabs: JsMap<TabId, Tab>, keys: seq<TabId>, wanted: Option<string>): (r: Option<TabId>)
    ensures r.Some? ==> r.value in keys && tabs.Has(r.value) && Matches(tabs.entries[r.value], wanted)
    ensures r.None? ==> forall t :: t in keys && tabs.Has(t) ==> !Matches(tabs.entries[t], wanted)
  {
    if keys == [] then None
    else if tabs.Has(keys[0]) && Matches(tabs.entries[keys[0]], wanted) then Some(keys[0])
    else FirstTab(tabs, keys[1..], wanted)
  }

  /** JavaScript's `a || b` on tab ids: zero counts as absent. */
  function Or(a: Option<TabId>, b: Option<TabId>): Option<TabId> {
    if a.Some? && a.value != 0 then a else b
  }

  function Lookup(m: map<string, TabId>, key: string): Option<TabId> {
    if key in m then Some(m[key]) else None
  }

  function TabBySession(s: State, sessionId: string): Option<TabId> {
    Or(Lookup(s.tabBySession, sessionId), Lookup(s.childSessionToTab, sessionId))
  }

  /** An absent session or target id is the empty string. */
  function Route(s: State, sessionId: string, targetId: string): Destination {
    var bySession := if sessionId == "" then None else TabBySession(s, sessionId);
    var byTarget := if targetId == "" then None
      else FirstTab(s.tabs, s.tabs.keys, Some(targetId));
    var any := FirstTab(s.tabs, s.tabs.keys, None);
    match Or(bySession, Or(byTarget, any))
    case None => NoTab
    case Some(t) =>
      if t == 0 then NoTab
      else if sessionId != "" && s.tabs.Has(t) && s.tabs.entries[t].Connected? && s.tabs.entries[t].sessionId != sessionId
      then ToTab(t, Some(sessionId))
      else ToTab(t, None)
  }

  lemma NamesAreNotEmpty(k: nat)
    ensures SessionName(k) != ""
  {
    assert SessionName(k)[0] == 'c';
  }

  /** A command for a connected tab's session goes to exactly that tab, whatever target it names. */
  lemma LiveSessionIsReached(s: State, t: TabId, name: string, targetId: string)
    requires Safe(s) && Complete(s) && Holds(s, t, name) && t != 0
    ensures Route(s, name, targetId) == ToTab(t, None)
  {
    NamesAreNotEmpty(s.tabs.entries[t].attachOrder);
  }

  /** A command for a child session goes to that session within its parent tab. */
  lemma ChildSessionIsReached(s: State, child: string, targetId: string)
    requires Safe(s) && Complete(s) && child != "" && child !in s.tabBySession
    requires child in s.childSessionToTab && s.childSessionToTab[child] != 0
    requires s.tabs.Get(s.childSessionToTab[child]).Some? && s.tabs.entries[s.childSessionToTab[child]].Connected?
    ensures Route(s, child, targetId) == ToTab(s.childSessionToTab[child], Some(child))
  {
  }

  /** In every run in which Chrome never moves a tab under a suspended call, a command for any connected tab's session
      goes to exactly that tab. */
  lemma EveryLiveSessionIsReached(events: seq<Event>, t: TabId, name: string, targetId: string)
    requires NeverMovesCaptured(events) && Holds(Run(FirstStart, events), t, name) && t != 0
    ensures Route(Run(FirstStart, events), name, targetId) == ToTab(t, None)
  {
    hide Run, Route, Holds;
    EveryRunIsSafe(events);
    EveryTabIsFound(events);
    LiveSessionIsReached(Run(FirstStart, events), t, name, targetId);
  }

  /** In every such run a command for a child session of a connected tab goes to that tab, under the child's id. */
  lemma EveryChildSessionIsReached(events: seq<Event>, child: string, t: TabId, targetId: string)
    requires NeverMovesCaptured(events) && child != "" && t != 0
    requires var s := Run(FirstStart, events);
      && child in s.childSessionToTab && s.childSessionToTab[child] == t && child !in s.tabBySession
      && s.tabs.Get(t).Some? && s.tabs.entries[t].Connected?
    ensures Route(Run(FirstStart, events), child, targetId) == ToTab(t, Some(child))
  {
    hide Run, Route;
    EveryRunIsSafe(events);
    EveryTabIsFound(events);
    ChildSessionIsReached(Run(FirstStart, events), child, targetId);
  }

  /** `t` is the first tab in table order that matches. */
  ghost predicate IsFirstTab(s: State, t: TabId, wanted: Option<string>) {
    && s.tabs.Has(t) && Matches(s.tabs.entries[t], wanted)
    && exists j: nat :: j < |s.tabs.keys| && s.tabs.keys[j] == t && NoneBefore(s.tabs, s.tabs.keys, j, wanted)
  }

  ghost predicate NoneBefore(tabs: JsMap<TabId, Tab>, keys: seq<TabId>, j: nat, wanted: Option<string>)
    requires j <= |keys|
  {
    forall i :: 0 <= i < j && tabs.Has(keys[i]) ==> !Matches(tabs.entries[keys[i]], wanted)
  }

  lemma {:induction false} FirstTabIsFirst(tabs: JsMap<TabId, Tab>, keys: seq<TabId>, wanted: Option<string>) returns (j: nat)
    requires FirstTab(tabs, keys, wanted).Some?
    ensures j < |keys| && keys[j] == FirstTab(tabs, keys, wanted).value
    ensures NoneBefore(tabs, keys, j, wanted)
  {
    hide Matches;
    if tabs.Has(keys[0]) && Matches(tabs.entries[keys[0]], wanted) {
      j := 0;
    } else {
      var k := FirstTabIsFirst(tabs, keys[1..], wanted);
      j := k + 1;
      forall i | 0 <= i < j && tabs.Has(keys[i]) ensures !Matches(tabs.entries[keys[i]], wanted) {
        assert i > 0 ==> keys[i] == keys[1..][i - 1];
      }
    }
  }

  /** The session is absent, or no table knows it. */
  predicate Unknown(s: State, sessionId: string) {
    sessionId == "" || TabBySession(s, sessionId) in {None, Some(0)}
  }

  /** A command for an unknown session is not refused while any tab is connected. It goes to the first tab in table order
      that shows the named target or, if none does, to the first connected tab; there it is sent under the unknown
      session id, as if that were a child session. */
  lemma UnknownSessionFallsBack(s: State, sessionId: string, targetId: string)
    requires Safe(s) && Complete(s) && 0 !in s.tabs.entries && Unknown(s, sessionId)
    ensures var d, child := Route(s, sessionId, targetId), if sessionId == "" then None else Some(sessionId);
      var shows := exists t :: t in s.tabs.entries && targetId != "" && Matches(s.tabs.entries[t], Some(targetId));
      var any := exists t :: t in s.tabs.entries && s.tabs.entries[t].Connected?;
      && (shows ==> d.ToTab? && IsFirstTab(s, d.tab, Some(targetId)) && d.child == child)
      && (!shows && any ==> d.ToTab? && IsFirstTab(s, d.tab, None) && d.child == child)
      && (!shows && !any ==> d == NoTab)
  {
    hide Safe, Complete;
    TableListsTabs(s);
    var byTarget := if targetId == "" then None else FirstTab(s.tabs, s.tabs.keys, Some(targetId));
    var any := FirstTab(s.tabs, s.tabs.keys, None);
    var found := Or(byTarget, any);
    if byTarget.Some? {
      var j := FirstTabIsFirst(s.tabs, s.tabs.keys, Some(targetId));
      NotItsSession(s, byTarget.value, sessionId);
    } else if any.Some? {
      var j := FirstTabIsFirst(s.tabs, s.tabs.keys, None);
      NotItsSession(s, any.value, sessionId);
    }
  }

  lemma TableListsTabs(s: State)
    requires Safe(s)
    ensures forall t :: t in s.tabs.keys <==> t in s.tabs.entries
  {
  }

  lemma NotItsSession(s: State, t: TabId, sessionId: string)
    requires Safe(s) && Complete(s) && 0 !in s.tabs.entries && Unknown(s, sessionId)
    requires s.tabs.Has(t) && s.tabs.entries[t].Connected?
    ensures sessionId != "" ==> s.tabs.entries[t].sessionId != sessionId
  {
  }

  /** Wherever a command goes, it is addressed to a session within the tab if and only if the tab is connected under another
      session than the one named; for the tab's own session, for none, and for a tab that is not connected, it goes to the tab
      itself. */
  lemma ChildNamedExactly(s: State, sessionId: string, targetId: string)
    ensures var d := Route(s, sessionId, targetId);
      d.ToTab? ==>
        && d.tab != 0 && (d.child.Some? ==> d.child.value == sessionId)
        && (d.child.Some? <==>
          sessionId != "" && exists own :: own != sessionId && Holds(s, d.tab, own))
  {
    hide FirstTab, TabBySession, Or;
    var d := Route(s, sessionId, targetId);
    if d.ToTab? && s.tabs.Has(d.tab) && s.tabs.entries[d.tab].Connected? {
      assert Holds(s, d.tab, s.tabs.entries[d.tab].sessionId);
    }
  }
}
