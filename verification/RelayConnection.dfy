/** The worker's one relay socket, its connect attempts and its reconnect timer, cut at every `await`. */
module RelayConnection {
  import opened JsMaps

  type SocketId = nat
  type TimerId = nat

  /** Who called ensureRelayConnection. */
  datatype Caller = ClickCaller | TimerCaller | KeepaliveCaller | StartupCaller

  datatype Outcome = Connected | Failed(retryable: bool)

  /** The calls of ensureRelayConnection that have not continued in their callers yet: those that wait for a
      connect attempt, and those whose wait is over, by how it ended. */
  datatype Calls = Calls(
    waiting: multiset<Caller>, connected: multiset<Caller>, failed: multiset<Caller>, refused: multiset<Caller>)

  /** A connect attempt under way: before its socket exists, or during the handshake. */
  datatype Attempt = Preflight | Handshake(socket: SocketId)

  datatype Probe = Reachable | Unreachable | NoToken

  /** A delay asked of setTimeout, with the value of reconnectAttempt it was computed from. */
  datatype Scheduled = Scheduled(attempt: nat, delay: real)

  datatype State = State(
    relayWs: Option<SocketId>,
    open: set<SocketId>,             // sockets whose readyState is OPEN
    bound: set<SocketId>,            // sockets with the permanent handlers
    nextSocket: SocketId,
    connecting: bool,                // relayConnectPromise is set
    attempts: multiset<Attempt>,
    calls: Calls,
    reconnectTimer: Option<TimerId>,
    live: set<TimerId>,              // timers the browser will still fire
    nextTimer: TimerId,
    reconnectAttempt: nat,
    log: seq<Scheduled>)

  const NoCalls := Calls(multiset{}, multiset{}, multiset{}, multiset{})
  const FirstStart := State(None, {}, {}, 0, false, multiset{}, NoCalls, None, {}, 0, 0, [])

  datatype Event =
    | SocketOpened(socket: SocketId)
    | SocketGone(socket: SocketId)                       // readyState leaves OPEN; no handler has run yet
    | SocketFailed(socket: SocketId, random: real)       // its close or error handler runs
    | PreflightDone(probe: Probe)
    | HandshakeDone(socket: SocketId, ok: bool)
    | TimerFires(timer: TimerId)
    | Click
    | Keepalive
    | Startup
    | Continue(caller: Caller, outcome: Outcome, random: real)

  // ---- reconnectDelayMs with its default options ----

  function Pow2(n: nat): nat {
    if n == 0 then 1 else 2 * Pow2(n - 1)
  }

  function Backoff(attempt: nat): nat {
    if 1000 * Pow2(attempt) < 30000 then 1000 * Pow2(attempt) else 30000
  }

  function ReconnectDelay(attempt: nat, random: real): real {
    Backoff(attempt) as real + 1000.0 * random
  }

  // ---- the pieces ----

  predicate RelayOpen(s: State) {
    s.relayWs.Some? && s.relayWs.value in s.open
  }

  function ClearTimer(s: State): State {
    if s.reconnectTimer.None? then s else s.(live := s.live - {s.reconnectTimer.value}, reconnectTimer := None)
  }

  function ScheduleReconnect(s: State, random: real): State {
    var s1 := ClearTimer(s);
    s1.(log := s1.log + [Scheduled(s1.reconnectAttempt, ReconnectDelay(s1.reconnectAttempt, random))],
        reconnectAttempt := s1.reconnectAttempt + 1,
        reconnectTimer := Some(s1.nextTimer), live := s1.live + {s1.nextTimer}, nextTimer := s1.nextTimer + 1)
  }

  function OnRelayClosed(s: State, random: real): State {
    ScheduleReconnect(s.(relayWs := None), random)
  }

  function Ensure(s: State, caller: Caller): State {
    if RelayOpen(s) then s.(calls := s.calls.(connected := s.calls.connected + multiset{caller}))
    else
      var s1 := s.(calls := s.calls.(waiting := s.calls.waiting + multiset{caller}));
      if s.connecting then s1 else s1.(connecting := true, attempts := s1.attempts + multiset{Preflight})
  }

  /** Every call that waited for the connect attempt settles with its outcome. */
  function SettleAll(calls: Calls, outcome: Outcome): Calls {
    var none: multiset<Caller> := multiset{};
    match outcome
    case Connected => calls.(waiting := none, connected := calls.connected + calls.waiting)
    case Failed(true) => calls.(waiting := none, failed := calls.failed + calls.waiting)
    case Failed(false) => calls.(waiting := none, refused := calls.refused + calls.waiting)
  }

  /** The settled calls with this outcome. */
  function Done(calls: Calls, outcome: Outcome): multiset<Caller> {
    match outcome
    case Connected => calls.connected
    case Failed(true) => calls.failed
    case Failed(false) => calls.refused
  }

  function TakeUp(calls: Calls, caller: Caller, outcome: Outcome): (r: Calls)
    ensures r.waiting == calls.waiting
  {
    match outcome
    case Connected => calls.(connected := calls.connected - multiset{caller})
    case Failed(true) => calls.(failed := calls.failed - multiset{caller})
    case Failed(false) => calls.(refused := calls.refused - multiset{caller})
  }

  function Settle(s: State, attempt: Attempt, outcome: Outcome): State {
    s.(connecting := false, attempts := s.attempts - multiset{attempt}, calls := SettleAll(s.calls, outcome),
       reconnectAttempt := if outcome == Connected then 0 else s.reconnectAttempt)
  }

  function PreflightStep(s: State, probe: Probe): State {
    match probe
    case Unreachable => Settle(s, Preflight, Failed(true))
    case NoToken => Settle(s, Preflight, Failed(false))
    case Reachable =>
      s.(relayWs := Some(s.nextSocket), nextSocket := s.nextSocket + 1,
         attempts := s.attempts - multiset{Preflight} + multiset{Handshake(s.nextSocket)})
  }

  function ContinueStep(s: State, caller: Caller, outcome: Outcome, random: real): State {
    match (caller, outcome)
    case (TimerCaller, Connected) => s.(reconnectAttempt := 0)
    case (StartupCaller, Connected) => s.(reconnectAttempt := 0)
    case (_, Connected) => s
    case (TimerCaller, Failed(retryable)) => if retryable then ScheduleReconnect(s, random) else s
    case (KeepaliveCaller, Failed(_)) => if s.reconnectTimer.None? then ScheduleReconnect(s, random) else s
    case (StartupCaller, Failed(_)) => ScheduleReconnect(s, random)
    case (ClickCaller, Failed(_)) => s
  }

  function Step(s: State, e: Event): State {
    match e
    case SocketOpened(socket) => if socket < s.nextSocket then s.(open := s.open + {socket}) else s
    case SocketGone(socket) => s.(open := s.open - {socket})
    case SocketFailed(socket, random) =>
      if socket in s.bound && s.relayWs == Some(socket) then OnRelayClosed(s, random) else s
    case PreflightDone(probe) => if Preflight in s.attempts then PreflightStep(s, probe) else s
    case HandshakeDone(socket, ok) =>
      if Handshake(socket) !in s.attempts then s
      else if ok then Settle(s.(bound := s.bound + {socket}), Handshake(socket), Connected)
      else Settle(s, Handshake(socket), Failed(true))
    case TimerFires(timer) =>
      if timer in s.live then Ensure(s.(live := s.live - {timer}, reconnectTimer := None), TimerCaller) else s
    case Click => Ensure(ClearTimer(s).(reconnectAttempt := 0), ClickCaller)
    case Keepalive =>
      if !RelayOpen(s) && !s.connecting && s.reconnectTimer.None? then Ensure(s, KeepaliveCaller) else s
    case Startup => Ensure(s, StartupCaller)
    case Continue(caller, outcome, random) =>
      if caller in Done(s.calls, outcome)
      then ContinueStep(s.(calls := TakeUp(s.calls, caller, outcome)), caller, outcome, random)
      else s
  }

  function Run(s: State, events: seq<Event>): State
    decreases |events|
  {
    if events == [] then s else Step(Run(s, events[..|events| - 1]), events[|events| - 1])
  }

  /** Math.random() stays below one. */
  ghost predicate RandomOk(e: Event) {
    match e
    case SocketFailed(_, random) => 0.0 <= random < 1.0
    case Continue(_, _, random) => 0.0 <= random < 1.0
    case _ => true
  }

  // ---- what every run keeps ----

  ghost predicate OneTimer(s: State) {
    && s.live == (if s.reconnectTimer.Some? then {s.reconnectTimer.value} else {})
    && (forall t :: t in s.live ==> t < s.nextTimer)
  }

  /** At most one connect attempt, exactly while relayConnectPromise is set; a handshake is always for the
      current socket, and a call waits only while there is an attempt to wait for. */
  ghost predicate OneAttempt(s: State) {
    && |s.attempts| == (if s.connecting then 1 else 0)
    && (forall socket: SocketId :: Handshake(socket) in s.attempts ==> s.relayWs == Some(socket) && socket !in s.bound)
    && (s.calls.waiting != multiset{} ==> s.connecting)
    && (s.relayWs.Some? ==> s.relayWs.value < s.nextSocket)
    && (forall socket: SocketId :: socket in s.bound || socket in s.open ==> socket < s.nextSocket)
  }

  /** Each delay lies in the jitter band of its attempt number, and attempt numbers only step by one or
      start over at zero. */
  ghost predicate BackoffLog(s: State) {
    && (forall i :: 0 <= i < |s.log| ==>
      Backoff(s.log[i].attempt) as real <= s.log[i].delay < Backoff(s.log[i].attempt) as real + 1000.0)
    && (forall i :: 0 < i < |s.log| ==> s.log[i].attempt == 0 || s.log[i].attempt == s.log[i - 1].attempt + 1)
    && (s.reconnectAttempt == 0 || (s.log != [] && s.reconnectAttempt == s.log[|s.log| - 1].attempt + 1))
  }

  lemma StepKeepsOneTimer(s: State, e: Event)
    requires OneTimer(s)
    ensures OneTimer(Step(s, e))
  {
    hide TakeUp, Done, SettleAll, ScheduleReconnect;
    match e
    case SocketFailed(socket, random) => ScheduleKeepsOneTimer(s.(relayWs := None), random);
    case Continue(caller, outcome, random) => ScheduleKeepsOneTimer(s.(calls := TakeUp(s.calls, caller, outcome)), random);
    case _ =>
  }

  lemma ScheduleKeepsOneTimer(s: State, random: real)
    requires OneTimer(s)
    ensures OneTimer(ScheduleReconnect(s, random))
  {
    hide ReconnectDelay;
  }

  lemma AttemptTaken(attempts: multiset<Attempt>, a: Attempt)
    requires |attempts| <= 1 && a in attempts
    ensures attempts == multiset{a}
  {
    assert attempts == multiset{a} + (attempts - multiset{a});
  }

  lemma SettleKeepsOneAttempt(s: State, a: Attempt, outcome: Outcome)
    requires OneAttempt(s) && a in s.attempts
    ensures OneAttempt(Settle(s, a, outcome))
  {
    AttemptTaken(s.attempts, a);
  }

  /** The handshake's socket was not bound before; binding it ends the attempt. */
  lemma BindKeepsOneAttempt(s: State, socket: SocketId)
    requires OneAttempt(s) && Handshake(socket) in s.attempts
    ensures OneAttempt(Settle(s.(bound := s.bound + {socket}), Handshake(socket), Connected))
  {
    SettleKeepsOneAttempt(s, Handshake(socket), Connected);
    AttemptTaken(s.attempts, Handshake(socket));
  }

  lemma ScheduleKeepsOneAttempt(s: State, random: real)
    requires OneAttempt(s)
    ensures OneAttempt(ScheduleReconnect(s, random))
  {
  }

  lemma EnsureKeepsOneAttempt(s: State, caller: Caller)
    requires OneAttempt(s)
    ensures OneAttempt(Ensure(s, caller))
  {
    if !s.connecting { assert s.attempts == multiset{}; }
  }

  /** Timers, the log and the open sockets do not matter, and a call that has settled may be taken up. */
  lemma FrameKeepsOneAttempt(s: State, r: State)
    requires OneAttempt(s)
    requires r.attempts == s.attempts && r.connecting == s.connecting && r.bound == s.bound && r.nextSocket == s.nextSocket
    requires r.relayWs == s.relayWs
    requires r.calls.waiting == s.calls.waiting && forall socket: SocketId :: socket in r.open ==> socket < s.nextSocket
    ensures OneAttempt(r)
  {
  }

  lemma CloseKeepsOneAttempt(s: State, socket: SocketId, random: real)
    requires OneAttempt(s) && socket in s.bound && s.relayWs == Some(socket)
    ensures OneAttempt(OnRelayClosed(s, random))
  {
  }

  lemma NewSocketKeepsOneAttempt(s: State)
    requires OneAttempt(s) && Preflight in s.attempts
    ensures OneAttempt(PreflightStep(s, Reachable))
  {
    AttemptTaken(s.attempts, Preflight);
  }

  lemma OpenStepKeeps(s: State, e: Event)
    requires OneAttempt(s) && (e.SocketOpened? || e.SocketGone?)
    ensures OneAttempt(Step(s, e))
  {
  }

  lemma FailStepKeeps(s: State, e: Event)
    requires OneAttempt(s) && e.SocketFailed?
    ensures OneAttempt(Step(s, e))
  {
    hide OneAttempt, OnRelayClosed;
    if e.socket in s.bound && s.relayWs == Some(e.socket) { CloseKeepsOneAttempt(s, e.socket, e.random); }
  }

  lemma PreflightStepKeeps(s: State, e: Event)
    requires OneAttempt(s) && e.PreflightDone?
    ensures OneAttempt(Step(s, e))
  {
    hide OneAttempt, Settle;
    if Preflight in s.attempts {
      SettleKeepsOneAttempt(s, Preflight, Failed(true));
      SettleKeepsOneAttempt(s, Preflight, Failed(false));
      NewSocketKeepsOneAttempt(s);
    }
  }

  lemma HandshakeStepKeeps(s: State, e: Event)
    requires OneAttempt(s) && e.HandshakeDone?
    ensures OneAttempt(Step(s, e))
  {
    hide OneAttempt, Settle;
    if Handshake(e.socket) in s.attempts {
      BindKeepsOneAttempt(s, e.socket);
      SettleKeepsOneAttempt(s, Handshake(e.socket), Failed(true));
    }
  }

  lemma TimerFieldsKeep(s: State, timer: Option<TimerId>, live: set<TimerId>, attempt: nat)
    requires OneAttempt(s)
    ensures OneAttempt(s.(reconnectTimer := timer, live := live, reconnectAttempt := attempt))
  {
    FrameKeepsOneAttempt(s, s.(reconnectTimer := timer, live := live, reconnectAttempt := attempt));
  }

  lemma EnsureStepKeeps(s: State, e: Event)
    requires OneAttempt(s) && (e.TimerFires? || e.Click? || e.Keepalive? || e.Startup?)
    ensures OneAttempt(Step(s, e))
  {
    hide OneAttempt, Ensure, RelayOpen;
    match e
    case TimerFires(timer) =>
      TimerFieldsKeep(s, None, s.live - {timer}, s.reconnectAttempt);
      EnsureKeepsOneAttempt(s.(live := s.live - {timer}, reconnectTimer := None), TimerCaller);
    case Click =>
      var s1 := ClearTimer(s);
      TimerFieldsKeep(s, s1.reconnectTimer, s1.live, 0);
      EnsureKeepsOneAttempt(s1.(reconnectAttempt := 0), ClickCaller);
    case Keepalive => EnsureKeepsOneAttempt(s, KeepaliveCaller);
    case Startup => EnsureKeepsOneAttempt(s, StartupCaller);
  }

  lemma ContinueStepKeeps(s: State, e: Event)
    requires OneAttempt(s) && e.Continue?
    ensures OneAttempt(Step(s, e))
  {
    hide TakeUp, Done;
    var s1 := s.(calls := TakeUp(s.calls, e.caller, e.outcome));
    FrameKeepsOneAttempt(s, s1);
    FrameKeepsOneAttempt(s, s1.(reconnectAttempt := 0));
    hide OneAttempt, ScheduleReconnect;
    ScheduleKeepsOneAttempt(s1, e.random);
  }

  lemma StepKeepsOneAttempt(s: State, e: Event)
    requires OneAttempt(s)
    ensures OneAttempt(Step(s, e))
  {
    hide *;
    match e
    case SocketOpened(_) => OpenStepKeeps(s, e);
    case SocketGone(_) => OpenStepKeeps(s, e);
    case SocketFailed(_, _) => FailStepKeeps(s, e);
    case PreflightDone(_) => PreflightStepKeeps(s, e);
    case HandshakeDone(_, _) => HandshakeStepKeeps(s, e);
    case Continue(_, _, _) => ContinueStepKeeps(s, e);
    case _ => EnsureStepKeeps(s, e);
  }

  lemma ScheduleKeepsLog(s: State, random: real)
    requires BackoffLog(s) && 0.0 <= random < 1.0
    ensures BackoffLog(ScheduleReconnect(s, random))
  {
    hide Backoff;
    var r := ScheduleReconnect(s, random);
    assert forall i :: 0 <= i < |s.log| ==> r.log[i] == s.log[i];
  }

  lemma ResetKeepsLog(s: State, r: State)
    requires BackoffLog(s) && r.log == s.log && (r.reconnectAttempt == s.reconnectAttempt || r.reconnectAttempt == 0)
    ensures BackoffLog(r)
  {
    hide Backoff;
  }

  lemma StepKeepsLog(s: State, e: Event)
    requires BackoffLog(s) && RandomOk(e)
    ensures BackoffLog(Step(s, e))
  {
    hide BackoffLog, ReconnectDelay, TakeUp, Done, SettleAll;
    match e
    case SocketFailed(socket, random) =>
      ResetKeepsLog(s, s.(relayWs := None));
      ScheduleKeepsLog(s.(relayWs := None), random);
    case Continue(caller, outcome, random) =>
      var s1 := s.(calls := TakeUp(s.calls, caller, outcome));
      ResetKeepsLog(s, s1);
      ScheduleKeepsLog(s1, random);
      if Step(s, e).log == s.log { ResetKeepsLog(s, Step(s, e)); }
    case _ => ResetKeepsLog(s, Step(s, e));
  }

  // ---- the back-off follows the failures ----

  /** A connecting click, an attempt that connected, or a timer or startup caller that goes on after it. */
  predicate Resets(s: State, e: Event) {
    match e
    case Click => true
    case HandshakeDone(socket, ok) => ok && Handshake(socket) in s.attempts
    case Continue(caller, Connected, _) => caller in s.calls.connected && (caller == TimerCaller || caller == StartupCaller)
    case _ => false
  }

  predicate Retries(s: State, caller: Caller, retryable: bool) {
    match caller
    case ClickCaller => false
    case TimerCaller => retryable
    case KeepaliveCaller => s.reconnectTimer.None?
    case StartupCaller => true
  }

  /** The current socket fails, or a caller learns that its attempt failed and does not let it rest. */
  predicate Schedules(s: State, e: Event) {
    match e
    case SocketFailed(socket, _) => socket in s.bound && s.relayWs == Some(socket)
    case Continue(caller, outcome, _) =>
      outcome.Failed? && caller in Done(s.calls, outcome) && Retries(s, caller, outcome.retryable)
    case _ => false
  }

  /** The reconnects scheduled since the last reset. */
  function Failures(events: seq<Event>): nat {
    if events == [] then 0
    else
      var before, e := events[..|events| - 1], events[|events| - 1];
      var s := Run(FirstStart, before);
      if Resets(s, e) then 0 else if Schedules(s, e) then Failures(before) + 1 else Failures(before)
  }

  ghost predicate InBand(delay: real, n: nat) {
    Backoff(n) as real <= delay < Backoff(n) as real + 1000.0
  }

  /** The next delay is computed from the count and logged, and the count goes up. */
  ghost predicate OneMoreDelay(s: State, r: State) {
    && r.reconnectAttempt == s.reconnectAttempt + 1 && |r.log| == |s.log| + 1 && s.log == r.log[..|s.log|]
    && r.log[|s.log|].attempt == s.reconnectAttempt && InBand(r.log[|s.log|].delay, s.reconnectAttempt)
  }

  lemma ScheduleCounts(s: State, random: real)
    requires 0.0 <= random < 1.0
    ensures OneMoreDelay(s, ScheduleReconnect(s, random))
  {
    hide Backoff;
  }

  ghost predicate Counts(s: State, r: State, resets: bool, schedules: bool) {
    if resets then r.reconnectAttempt == 0 && r.log == s.log
    else if schedules then OneMoreDelay(s, r)
    else r.reconnectAttempt == s.reconnectAttempt && r.log == s.log
  }

  lemma ContinueCounts(s: State, caller: Caller, outcome: Outcome, random: real)
    requires 0.0 <= random < 1.0
    ensures Counts(s, ContinueStep(s, caller, outcome, random),
                   outcome == Connected && (caller == TimerCaller || caller == StartupCaller),
                   outcome.Failed? && Retries(s, caller, outcome.retryable))
  {
    hide ScheduleReconnect, OneMoreDelay;
    ScheduleCounts(s, random);
  }

  lemma SameCount(s: State, s1: State, r: State, resets: bool, schedules: bool)
    requires Counts(s1, r, resets, schedules) && s1.log == s.log && s1.reconnectAttempt == s.reconnectAttempt
    ensures Counts(s, r, resets, schedules)
  {
  }

  /** What one step does to the count and to the log of delays. */
  lemma StepCounts(s: State, e: Event)
    requires RandomOk(e)
    ensures Counts(s, Step(s, e), Resets(s, e), Schedules(s, e))
  {
    hide ScheduleReconnect, InBand, SettleAll, ReconnectDelay, ContinueStep, OneMoreDelay;
    match e
    case SocketFailed(socket, random) =>
      var s1 := s.(relayWs := None);
      ScheduleCounts(s1, random);
      if Schedules(s, e) { SameCount(s, s1, Step(s, e), false, true); }
    case Continue(caller, outcome, random) =>
      hide Done, TakeUp, Counts;
      DoneConnected(s.calls);
      var s1 := s.(calls := TakeUp(s.calls, caller, outcome));
      ContinueCounts(s1, caller, outcome, random);
      if caller in Done(s.calls, outcome) {
        SameCount(s, s1, Step(s, e), Resets(s, e), Schedules(s, e));
      } else {
        CountsNothing(s);
      }
    case _ =>
  }

  lemma CountsNothing(s: State)
    ensures Counts(s, s, false, false)
  {
  }

  lemma DoneConnected(calls: Calls)
    ensures Done(calls, Connected) == calls.connected
  {
  }

  /** In every run the attempt number is the number of reconnects scheduled since the last reset. */
  lemma {:induction false} AttemptIsFailures(events: seq<Event>)
    requires forall i :: 0 <= i < |events| ==> RandomOk(events[i])
    ensures Run(FirstStart, events).reconnectAttempt == Failures(events)
  {
    if events != [] {
      hide Step, Resets, Schedules, InBand;
      assert events[..|events| - 1] + [events[|events| - 1]] == events;
      AttemptIsFailures(events[..|events| - 1]);
      StepCounts(Run(FirstStart, events[..|events| - 1]), events[|events| - 1]);
    }
  }

  ghost predicate NoReset(before: seq<Event>, more: seq<Event>) {
    forall i :: 0 <= i < |more| ==> !Resets(Run(FirstStart, before + more[..i]), more[i])
  }

  /** From `a` on, the log `b` holds one delay in the band of each number from `n`. */
  ghost predicate BacksOff(a: seq<Scheduled>, b: seq<Scheduled>, n: nat) {
    && |a| <= |b| && a == b[..|a|]
    && forall j :: |a| <= j < |b| ==> b[j].attempt == n + j - |a| && InBand(b[j].delay, n + j - |a|)
  }

  lemma OneMoreBacksOff(a: seq<Scheduled>, s: State, r: State, n: nat)
    requires BacksOff(a, s.log, n) && s.reconnectAttempt == n + |s.log| - |a| && OneMoreDelay(s, r)
    ensures BacksOff(a, r.log, n)
  {
    hide InBand;
    assert a == s.log[..|a|] == r.log[..|s.log|][..|a|] == r.log[..|a|];
    forall j | |a| <= j < |r.log| ensures r.log[j].attempt == n + j - |a| && InBand(r.log[j].delay, n + j - |a|) {
      if j < |s.log| { assert r.log[j] == s.log[j]; }
    }
  }

  /** Consecutive failures: while nothing resets the count, the delays asked for lie in the bands of one failure after
      the other, starting from the count so far (zero after a reset) and leaving none out. */
  lemma {:induction false} FailuresBackOff(before: seq<Event>, more: seq<Event>)
    requires (forall i :: 0 <= i < |before| ==> RandomOk(before[i])) && (forall i :: 0 <= i < |more| ==> RandomOk(more[i]))
    requires NoReset(before, more)
    ensures var n, a, b := Failures(before), Run(FirstStart, before).log, Run(FirstStart, before + more).log;
      BacksOff(a, b, n) && Failures(before + more) == n + |b| - |a|
    decreases |more|
  {
    hide Step, Resets, Schedules, InBand, Run, Failures, BacksOff, OneMoreDelay;
    if more == [] {
      assert before + more == before;
      NothingBacksOff(Run(FirstStart, before).log, Failures(before));
    } else {
      var front, e := more[..|more| - 1], more[|more| - 1];
      assert NoReset(before, front) by {
        assert forall i :: 0 <= i < |front| ==> front[..i] == more[..i];
      }
      FailuresBackOff(before, front);
      assert before + more == before + front + [e];
      RunOneMore(before + front, e);
      AttemptIsFailures(before + front);
      AttemptIsFailures(before + more);
      var s := Run(FirstStart, before + front);
      StepCounts(s, e);
      assert !Resets(Run(FirstStart, before + more[..|front|]), more[|front|]);
      if Schedules(s, e) {
        OneMoreBacksOff(Run(FirstStart, before).log, s, Step(s, e), Failures(before));
        DelayCounted(s, Step(s, e));
      }
    }
  }

  lemma DelayCounted(s: State, r: State)
    requires OneMoreDelay(s, r)
    ensures |r.log| == |s.log| + 1 && r.reconnectAttempt == s.reconnectAttempt + 1
  {
  }

  lemma NothingBacksOff(a: seq<Scheduled>, n: nat)
    ensures BacksOff(a, a, n)
  {
  }

  lemma RunOneMore(events: seq<Event>, e: Event)
    ensures Run(FirstStart, events + [e]) == Step(Run(FirstStart, events), e)
  {
    assert (events + [e])[..|events|] == events;
  }

  /** A reset starts the back-off over: right after it the attempt number is zero, and from then on, until the next reset,
      the delays asked for lie in the bands of zero, one, two and so on. */
  lemma ResetStartsOver(before: seq<Event>, e: Event, more: seq<Event>)
    requires Resets(Run(FirstStart, before), e) && NoReset(before + [e], more)
    requires forall i :: 0 <= i < |before + [e]| ==> RandomOk((before + [e])[i])
    requires forall i :: 0 <= i < |more| ==> RandomOk(more[i])
    ensures Run(FirstStart, before + [e]).reconnectAttempt == 0
    ensures BacksOff(Run(FirstStart, before + [e]).log, Run(FirstStart, before + [e] + more).log, 0)
  {
    hide Run, Resets, Schedules, RandomOk, NoReset, BacksOff;
    assert (before + [e])[..|before|] == before;
    AttemptIsFailures(before + [e]);
    FailuresBackOff(before + [e], more);
  }

  lemma {:induction false} EveryRun(events: seq<Event>)
    requires forall i :: 0 <= i < |events| ==> RandomOk(events[i])
    ensures OneTimer(Run(FirstStart, events)) && OneAttempt(Run(FirstStart, events)) && BackoffLog(Run(FirstStart, events))
    ensures Run(FirstStart, events).reconnectAttempt == Failures(events)
  {
    hide Step, Failures, OneTimer, OneAttempt, BackoffLog;
    AttemptIsFailures(events);
    if events != [] {
      var before, e := events[..|events| - 1], events[|events| - 1];
      EveryRun(before);
      StepKeepsOneTimer(Run(FirstStart, before), e);
      StepKeepsOneAttempt(Run(FirstStart, before), e);
      StepKeepsLog(Run(FirstStart, before), e);
    } else {
      assert OneTimer(FirstStart) && OneAttempt(FirstStart) && BackoffLog(FirstStart) by { FirstIsSound(); }
    }
  }

  lemma FirstIsSound()
    ensures OneTimer(FirstStart) && OneAttempt(FirstStart) && BackoffLog(FirstStart)
  {
  }

  /** The back-off doubles from one second and stands at half a minute from the fifth retry on. */
  lemma {:induction false} BackoffShape(m: nat, n: nat)
    requires m <= n
    ensures Backoff(0) == 1000 && Backoff(m) <= Backoff(n)
    ensures Backoff(n) == 30000 <==> n >= 5
    ensures n < 5 ==> Backoff(n + 1) == 2 * Backoff(n) || n == 4
    decreases n
  {
    if n > 5 { BackoffShape(5, n - 1); }
    if m < n { BackoffShape(m, n - 1); }
  }

  // ---- a socket that failed or was replaced ----

  ghost predicate Retired(s: State, socket: SocketId) {
    socket < s.nextSocket && s.relayWs != Some(socket)
  }

  lemma RetiredStays(s: State, socket: SocketId, e: Event)
    requires Retired(s, socket)
    ensures Retired(Step(s, e), socket)
  {
    hide TakeUp, Done, SettleAll, ReconnectDelay;
  }

  /** Once a socket has brought the relay down, or another took its place, no later event of it changes
      anything: an error and the close that follows schedule one reconnect, whatever happens in between. */
  lemma {:induction false} FailsOnce(s: State, socket: SocketId, events: seq<Event>, random: real)
    requires Retired(s, socket)
    ensures Retired(Run(s, events), socket)
    ensures Step(Run(s, events), SocketFailed(socket, random)) == Run(s, events)
  {
    if events != [] {
      FailsOnce(s, socket, events[..|events| - 1], random);
      RetiredStays(Run(s, events[..|events| - 1]), socket, events[|events| - 1]);
    }
  }

  lemma FailingRetires(s: State, socket: SocketId, random: real)
    requires OneAttempt(s) && socket in s.bound
    ensures Retired(Step(s, SocketFailed(socket, random)), socket)
    ensures s.relayWs == Some(socket) ==>
      |Step(s, SocketFailed(socket, random)).log| == |s.log| + 1 && Step(s, SocketFailed(socket, random)).reconnectTimer.Some?
    ensures s.relayWs != Some(socket) ==> Step(s, SocketFailed(socket, random)) == s
  {
    hide TakeUp, Done, SettleAll, ReconnectDelay;
  }
}
