/** How the relay comes back: who tries again after a failed connect attempt, and when nobody does. */
module RelayRecovery {
  import opened JsMaps
  import opened RelayConnection

  // ---- when nothing is left that could bring the relay back ----

  /** Some of these calls schedule a reconnect when they learn that the attempt failed: a startup or keepalive call always
      does, a timer's call unless the failure is final, a click never. */
  predicate Retrying(calls: multiset<Caller>, retryable: bool) {
    StartupCaller in calls || KeepaliveCaller in calls || (retryable && TimerCaller in calls)
  }

  /** A call whose attempt failed is yet to go on, and will try again. */
  predicate Due(s: State) {
    Retrying(s.calls.failed, true) || Retrying(s.calls.refused, false)
  }

  /** Something will bring the relay back: it is open, being connected, a timer is running, or a failed call is due. */
  predicate Recovering(s: State) {
    RelayOpen(s) || s.connecting || s.reconnectTimer.Some? || Due(s)
  }

  /** With no timer running and no call due: the open socket silently dies, or the connect attempt ends without an open
      socket and no call that waits for it will try again. */
  predicate LosesRelay(s: State, e: Event) {
    && s.reconnectTimer.None? && !Due(s)
    && match e
      case SocketGone(socket) => s.relayWs == Some(socket) && !s.connecting
      case PreflightDone(probe) =>
        && Preflight in s.attempts && probe != Reachable && !RelayOpen(s)
        && !Retrying(s.calls.waiting, probe == Unreachable)
      case HandshakeDone(socket, ok) =>
        Handshake(socket) in s.attempts && socket !in s.open && (ok || !Retrying(s.calls.waiting, true))
      case _ => false
  }

  lemma SettledCalls(calls: Calls, outcome: Outcome)
    ensures var r := SettleAll(calls, outcome);
      && r.failed == (if outcome == Failed(true) then calls.failed + calls.waiting else calls.failed)
      && r.refused == (if outcome == Failed(false) then calls.refused + calls.waiting else calls.refused)
      && r.waiting == multiset{}
  {
  }

  lemma EnsureRecovers(s: State, caller: Caller)
    ensures Recovering(Ensure(s, caller))
  {
  }

  lemma ScheduleRecovers(s: State, random: real)
    ensures ScheduleReconnect(s, random).reconnectTimer == Some(s.nextTimer)
  {
    hide ReconnectDelay;
  }

  lemma PreflightLoses(s: State, e: Event)
    requires OneTimer(s) && OneAttempt(s) && Recovering(s) && e.PreflightDone?
    ensures Recovering(Step(s, e)) <==> !LosesRelay(s, e)
  {
    hide SettleAll, OneTimer;
    if Preflight in s.attempts {
      AttemptTaken(s.attempts, Preflight);
      SettledCalls(s.calls, Failed(e.probe == Unreachable));
    }
  }

  lemma HandshakeLoses(s: State, e: Event)
    requires OneTimer(s) && OneAttempt(s) && Recovering(s) && e.HandshakeDone?
    ensures Recovering(Step(s, e)) <==> !LosesRelay(s, e)
  {
    hide SettleAll, OneTimer;
    if Handshake(e.socket) in s.attempts {
      AttemptTaken(s.attempts, Handshake(e.socket));
      SettledCalls(s.calls, if e.ok then Connected else Failed(true));
    }
  }

  /** Going on after a failure schedules a reconnect, or a timer is running, or there was nothing due about the call. */
  lemma ContinueKeepsDue(s: State, e: Event)
    requires e.Continue? && Due(s)
    ensures Due(Step(s, e)) || Step(s, e).reconnectTimer.Some?
  {
    hide ScheduleReconnect, TakeUp, Done, Retrying;
    var s1 := s.(calls := TakeUp(s.calls, e.caller, e.outcome));
    ScheduleRecovers(s1, e.random);
    TakenUp(s.calls, e.caller, e.outcome);
    StillRetrying(s.calls.failed, e.caller, true);
    StillRetrying(s.calls.refused, e.caller, false);
  }

  lemma TakenUp(calls: Calls, caller: Caller, outcome: Outcome)
    ensures var r := TakeUp(calls, caller, outcome);
      && r.failed == (if outcome == Failed(true) then calls.failed - multiset{caller} else calls.failed)
      && r.refused == (if outcome == Failed(false) then calls.refused - multiset{caller} else calls.refused)
  {
  }

  lemma StillRetrying(calls: multiset<Caller>, caller: Caller, retryable: bool)
    ensures Retrying(calls, retryable) && (caller == ClickCaller || (caller == TimerCaller && !retryable)) ==>
      Retrying(calls - multiset{caller}, retryable)
  {
  }

  lemma ContinueFrame(s: State, e: Event)
    requires e.Continue?
    ensures var r := Step(s, e);
      && r.relayWs == s.relayWs && r.open == s.open && r.connecting == s.connecting && r.attempts == s.attempts
      && r.calls.waiting == s.calls.waiting && (s.reconnectTimer.Some? ==> r.reconnectTimer.Some?)
  {
    hide TakeUp, Done, ReconnectDelay;
  }

  lemma ContinueRecovers(s: State, e: Event)
    requires Recovering(s) && e.Continue?
    ensures Recovering(Step(s, e))
  {
    hide Step, Due;
    ContinueFrame(s, e);
    if Due(s) { ContinueKeepsDue(s, e); }
  }

  lemma EnsuringRecovers(s: State, e: Event)
    requires Recovering(s) && (e.TimerFires? || e.Click? || e.Keepalive? || e.Startup?)
    ensures Recovering(Step(s, e))
  {
    hide Ensure, Recovering;
    match e
    case TimerFires(timer) => EnsureRecovers(s.(live := s.live - {timer}, reconnectTimer := None), TimerCaller);
    case Click => EnsureRecovers(ClearTimer(s).(reconnectAttempt := 0), ClickCaller);
    case Keepalive => EnsureRecovers(s, KeepaliveCaller);
    case Startup => EnsureRecovers(s, StartupCaller);
  }

  lemma SocketLoses(s: State, e: Event)
    requires OneAttempt(s) && Recovering(s) && (e.SocketOpened? || e.SocketGone? || e.SocketFailed?)
    ensures Recovering(Step(s, e)) <==> !LosesRelay(s, e)
  {
    hide ScheduleReconnect;
    if e.SocketFailed? { ScheduleRecovers(s.(relayWs := None), e.random); }
  }

  /** Nothing else ever stops the recovery. */
  lemma RecoveryLostExactly(s: State, e: Event)
    requires OneTimer(s) && OneAttempt(s) && Recovering(s)
    ensures Recovering(Step(s, e)) <==> !LosesRelay(s, e)
  {
    hide Step, OneTimer, OneAttempt, Recovering, RelayOpen, Due, Retrying;
    match e
    case SocketOpened(_) => SocketLoses(s, e);
    case SocketGone(_) => SocketLoses(s, e);
    case SocketFailed(_, _) => SocketLoses(s, e);
    case PreflightDone(_) => PreflightLoses(s, e);
    case HandshakeDone(_, _) => HandshakeLoses(s, e);
    case Continue(_, _, _) => ContinueRecovers(s, e);
    case _ => EnsuringRecovers(s, e);
  }

  // ---- when nobody will try again ----

  /** The relay is open, or somebody will try again if the attempt under way fails. */
  predicate Pursued(s: State) {
    RelayOpen(s) || s.reconnectTimer.Some? || Due(s) || Retrying(s.calls.waiting, true)
  }

  /** The retrying ends: the gateway token is missing and only timers' calls and clicks wait; an attempt comes through on a
      socket that is dead by then; the open socket dies, or is replaced by one that is not open yet, while nobody but clicks
      waits; or a click cancels the timer. */
  predicate GivesUp(s: State, e: Event) {
    && !Due(s)
    && match e
      case PreflightDone(NoToken) =>
        Preflight in s.attempts && !RelayOpen(s) && s.reconnectTimer.None? && !Retrying(s.calls.waiting, false)
      case PreflightDone(Reachable) =>
        Preflight in s.attempts && s.reconnectTimer.None? && !Retrying(s.calls.waiting, true)
      case HandshakeDone(socket, true) => Handshake(socket) in s.attempts && socket !in s.open && s.reconnectTimer.None?
      case SocketGone(socket) => s.relayWs == Some(socket) && s.reconnectTimer.None? && !Retrying(s.calls.waiting, true)
      case Click => !RelayOpen(s) && !Retrying(s.calls.waiting, true)
      case _ => false
  }

  lemma PreflightGivesUp(s: State, e: Event)
    requires OneTimer(s) && OneAttempt(s) && Pursued(s) && e.PreflightDone?
    ensures Pursued(Step(s, e)) <==> !GivesUp(s, e)
  {
    hide SettleAll, OneTimer;
    if Preflight in s.attempts {
      AttemptTaken(s.attempts, Preflight);
      SettledCalls(s.calls, Failed(e.probe == Unreachable));
    }
  }

  lemma HandshakeGivesUp(s: State, e: Event)
    requires OneTimer(s) && OneAttempt(s) && Pursued(s) && e.HandshakeDone?
    ensures Pursued(Step(s, e)) <==> !GivesUp(s, e)
  {
    hide SettleAll, OneTimer;
    if Handshake(e.socket) in s.attempts {
      AttemptTaken(s.attempts, Handshake(e.socket));
      SettledCalls(s.calls, if e.ok then Connected else Failed(true));
    }
  }

  lemma ContinuePursues(s: State, e: Event)
    requires Pursued(s) && e.Continue?
    ensures Pursued(Step(s, e))
  {
    hide Step, Due;
    ContinueFrame(s, e);
    if Due(s) { ContinueKeepsDue(s, e); }
  }

  lemma EnsuringPursues(s: State, e: Event)
    requires Pursued(s) && (e.TimerFires? || e.Click? || e.Keepalive? || e.Startup?)
    ensures Pursued(Step(s, e)) <==> !GivesUp(s, e)
  {
    hide Retrying, Ensure;
    match e
    case TimerFires(timer) => EnsurePursues(s.(live := s.live - {timer}, reconnectTimer := None), TimerCaller);
    case Click => EnsurePursues(ClearTimer(s).(reconnectAttempt := 0), ClickCaller);
    case Keepalive => EnsurePursues(s, KeepaliveCaller);
    case Startup => EnsurePursues(s, StartupCaller);
  }

  lemma EnsurePursues(s: State, caller: Caller)
    ensures var r := Ensure(s, caller);
      && Due(r) == Due(s) && r.reconnectTimer == s.reconnectTimer && RelayOpen(r) == RelayOpen(s)
      && (Retrying(r.calls.waiting, true) <==>
        Retrying(s.calls.waiting, true) || (!RelayOpen(s) && caller != ClickCaller))
  {
  }

  lemma SocketGivesUp(s: State, e: Event)
    requires OneAttempt(s) && Pursued(s) && (e.SocketOpened? || e.SocketGone? || e.SocketFailed?)
    ensures Pursued(Step(s, e)) <==> !GivesUp(s, e)
  {
    hide ScheduleReconnect;
    if e.SocketFailed? { ScheduleRecovers(s.(relayWs := None), e.random); }
  }

  /** On no other step does the worker stop trying. */
  lemma GivesUpExactly(s: State, e: Event)
    requires OneTimer(s) && OneAttempt(s) && Pursued(s)
    ensures Pursued(Step(s, e)) <==> !GivesUp(s, e)
  {
    hide Step, OneTimer, OneAttempt, Pursued, RelayOpen, Due, Retrying;
    match e
    case SocketOpened(_) => SocketGivesUp(s, e);
    case SocketGone(_) => SocketGivesUp(s, e);
    case SocketFailed(_, _) => SocketGivesUp(s, e);
    case PreflightDone(_) => PreflightGivesUp(s, e);
    case HandshakeDone(_, _) => HandshakeGivesUp(s, e);
    case Continue(_, _, _) => ContinuePursues(s, e);
    case _ => EnsuringPursues(s, e);
  }

  // ---- a call that fails and tries again ----

  predicate Idle(s: State) {
    !RelayOpen(s) && !s.connecting
  }

  /** The caller that starts a connect attempt with this event, from an idle state. */
  predicate Calls(s: State, e: Event, caller: Caller) {
    match caller
    case TimerCaller => e.TimerFires? && s.reconnectTimer == Some(e.timer)
    case KeepaliveCaller => e == Keepalive && s.reconnectTimer.None?
    case StartupCaller => e == Startup
    case ClickCaller => e == Click
  }

  /** The attempt fails: the relay does not answer, the token is missing, or the handshake fails. */
  predicate Fails(s: State, fail: seq<Event>, retryable: bool) {
    || (retryable && fail == [PreflightDone(Unreachable)])
    || (retryable && fail == [PreflightDone(Reachable), HandshakeDone(s.nextSocket, false)])
    || (!retryable && fail == [PreflightDone(NoToken)])
  }

  /** The attempt is over, the caller knows, and nothing else has changed. */
  ghost predicate HasFailed(s: State, r: State, caller: Caller, retryable: bool) {
    && Idle(r) && caller in Done(r.calls, Failed(retryable))
    && r.log == s.log && r.reconnectTimer == s.reconnectTimer && r.nextTimer == s.nextTimer
    && r.reconnectAttempt == s.reconnectAttempt
  }

  lemma CallBegins(s: State, e: Event, caller: Caller)
    requires OneTimer(s) && OneAttempt(s) && Idle(s) && Calls(s, e, caller)
    ensures var r := Step(s, e);
      && r.attempts == multiset{Preflight} && r.calls.waiting == multiset{caller} && r.connecting
      && r.relayWs == s.relayWs && r.open == s.open && r.nextSocket == s.nextSocket
      && r.log == s.log && r.nextTimer == s.nextTimer
      && r.reconnectTimer == (if caller == TimerCaller || caller == ClickCaller then None else s.reconnectTimer)
      && r.reconnectAttempt == if caller == ClickCaller then 0 else s.reconnectAttempt
  {
    assert s.attempts == multiset{};
    assert s.calls.waiting == multiset{};
  }

  lemma SettlesAsFailed(s: State, attempt: Attempt, caller: Caller, retryable: bool)
    requires s.calls.waiting == multiset{caller} && !RelayOpen(s)
    ensures HasFailed(s, Settle(s, attempt, Failed(retryable)), caller, retryable)
  {
  }

  lemma AttemptFails(s: State, fail: seq<Event>, caller: Caller, retryable: bool)
    requires s.attempts == multiset{Preflight} && s.calls.waiting == multiset{caller} && !RelayOpen(s)
    requires s.nextSocket !in s.open && Fails(s, fail, retryable)
    ensures HasFailed(s, Run(s, fail), caller, retryable)
  {
    hide Settle, HasFailed, SettleAll, Done;
    RunOneOrTwo(s, fail);
    if |fail| == 1 {
      SettlesAsFailed(s, Preflight, caller, retryable);
    } else {
      var r := Step(s, fail[0]);
      SettlesAsFailed(r, Handshake(s.nextSocket), caller, retryable);
      SameFailed(s, r, Step(r, fail[1]), caller, retryable);
    }
  }

  lemma SameFailed(s: State, s1: State, r: State, caller: Caller, retryable: bool)
    requires HasFailed(s1, r, caller, retryable) && s1.log == s.log && s1.reconnectTimer == s.reconnectTimer
    requires s1.nextTimer == s.nextTimer && s1.reconnectAttempt == s.reconnectAttempt
    ensures HasFailed(s, r, caller, retryable)
  {
  }

  lemma RunOneOrTwo(s: State, events: seq<Event>)
    ensures |events| == 1 ==> Run(s, events) == Step(s, events[0])
    ensures |events| == 2 ==> Run(s, events) == Step(Step(s, events[0]), events[1])
  {
    hide Step;
    if |events| == 2 { assert events[..1] == [events[0]] && events[..1][..0] == []; }
    if |events| == 1 { assert events[..0] == []; }
  }

  /** One more delay in the band of the count, one more timer, and nothing under way. */
  ghost predicate TriesAgain(s: State, r: State) {
    OneMoreDelay(s, r) && r.reconnectTimer.Some? && Idle(r)
  }

  lemma GoesOn(s: State, caller: Caller, retryable: bool, random: real)
    requires caller in Done(s.calls, Failed(retryable)) && Idle(s) && 0.0 <= random < 1.0
    requires caller != ClickCaller && (caller == TimerCaller ==> retryable)
    requires caller == KeepaliveCaller ==> s.reconnectTimer.None?
    ensures TriesAgain(s, Step(s, Continue(caller, Failed(retryable), random)))
  {
    hide TakeUp, ScheduleReconnect, OneMoreDelay;
    var s1 := s.(calls := TakeUp(s.calls, caller, Failed(retryable)));
    ScheduleCounts(s1, random);
    ScheduleRecovers(s1, random);
    ScheduleFrame(s1, random);
    SameDelay(s, s1, ScheduleReconnect(s1, random));
  }

  lemma SameDelay(s: State, s1: State, r: State)
    requires OneMoreDelay(s1, r) && s1.log == s.log && s1.reconnectAttempt == s.reconnectAttempt
    ensures OneMoreDelay(s, r)
  {
  }

  lemma ScheduleFrame(s: State, random: real)
    ensures var r := ScheduleReconnect(s, random); r.relayWs == s.relayWs && r.open == s.open && r.connecting == s.connecting
  {
    hide ReconnectDelay;
  }

  /** A reconnect that the timer, the keepalive alarm or the startup begins, and whose attempt fails, is tried again: the
      failure schedules one more timer, with one more delay in the band of the count. For a timer's call the failure must be
      one that a retry can mend; a missing token is final. */
  lemma FailedCallIsRetried(s: State, e: Event, caller: Caller, fail: seq<Event>, retryable: bool, random: real)
    requires OneTimer(s) && OneAttempt(s) && Idle(s) && Calls(s, e, caller) && 0.0 <= random < 1.0
    requires Fails(s, fail, retryable) && caller != ClickCaller && (caller == TimerCaller ==> retryable)
    ensures TriesAgain(s, Step(Run(Step(s, e), fail), Continue(caller, Failed(retryable), random)))
  {
    hide Step, Run, OneMoreDelay;
    var s1 := Step(s, e);
    CallBegins(s, e, caller);
    AttemptFails(s1, fail, caller, retryable);
    var s2 := Run(s1, fail);
    GoesOn(s2, caller, retryable, random);
    SameDelay(s, s2, Step(s2, Continue(caller, Failed(retryable), random)));
  }

  /** A click whose attempt fails, and a timer's call that finds no token, end with nothing scheduled. */
  lemma FailedCallIsFinal(s: State, e: Event, caller: Caller, fail: seq<Event>, retryable: bool, random: real)
    requires OneTimer(s) && OneAttempt(s) && Idle(s) && Calls(s, e, caller) && Fails(s, fail, retryable)
    requires caller == ClickCaller || (caller == TimerCaller && !retryable)
    ensures var r := Step(Run(Step(s, e), fail), Continue(caller, Failed(retryable), random));
      r.reconnectTimer.None? && r.log == s.log && Idle(r)
  {
    hide Step, Run;
    var s1 := Step(s, e);
    CallBegins(s, e, caller);
    AttemptFails(s1, fail, caller, retryable);
    Rests(Run(s1, fail), caller, retryable, random);
  }

  lemma Rests(s: State, caller: Caller, retryable: bool, random: real)
    requires caller == ClickCaller || (caller == TimerCaller && !retryable)
    ensures var r := Step(s, Continue(caller, Failed(retryable), random));
      r.reconnectTimer == s.reconnectTimer && r.log == s.log && (Idle(s) ==> Idle(r))
  {
    hide TakeUp, Done, ScheduleReconnect;
  }

  // ---- the loop ----

  /** The pending timer fires, the relay does not answer, and the timer's call goes on. */
  function Round(s: State, random: real): State
    requires s.reconnectTimer.Some?
  {
    var s1 := Step(s, TimerFires(s.reconnectTimer.value));
    Step(Run(s1, [PreflightDone(Unreachable)]), Continue(TimerCaller, Failed(true), random))
  }

  ghost predicate Waiting(s: State) {
    OneTimer(s) && OneAttempt(s) && Idle(s) && s.reconnectTimer.Some?
  }

  lemma RoundTriesAgain(s: State, random: real)
    requires Waiting(s) && 0.0 <= random < 1.0
    ensures TriesAgain(s, Round(s, random)) && Waiting(Round(s, random))
  {
    hide Step, Run, OneTimer, OneAttempt, OneMoreDelay, Idle;
    var e, fail := TimerFires(s.reconnectTimer.value), [PreflightDone(Unreachable)];
    FailedCallIsRetried(s, e, TimerCaller, fail, true, random);
    var s1 := Step(s, e);
    StepKeepsOneTimer(s, e);
    StepKeepsOneAttempt(s, e);
    RunOneOrTwo(s1, fail);
    StepKeepsOneTimer(s1, fail[0]);
    StepKeepsOneAttempt(s1, fail[0]);
    var c := Continue(TimerCaller, Failed(true), random);
    StepKeepsOneTimer(Run(s1, fail), c);
    StepKeepsOneAttempt(Run(s1, fail), c);
  }

  ghost function Rounds(s: State, randoms: seq<real>): State
    requires Waiting(s) && forall i :: 0 <= i < |randoms| ==> 0.0 <= randoms[i] < 1.0
    ensures Waiting(Rounds(s, randoms))
    decreases |randoms|
  {
    if randoms == [] then s
    else
      RoundTriesAgain(s, randoms[0]);
      Rounds(Round(s, randoms[0]), randoms[1..])
  }

  /** However often the relay stays down, the loop goes on: `n` failed rounds ask for `n` delays, one in the band of each
      number from the count on, and leave a timer running. */
  lemma {:induction false} TheLoopGoesOn(s: State, randoms: seq<real>)
    requires Waiting(s) && forall i :: 0 <= i < |randoms| ==> 0.0 <= randoms[i] < 1.0
    ensures var r := Rounds(s, randoms);
      && BacksOff(s.log, r.log, s.reconnectAttempt) && |r.log| == |s.log| + |randoms|
      && r.reconnectAttempt == s.reconnectAttempt + |randoms| && r.reconnectTimer.Some?
    decreases |randoms|
  {
    if randoms == [] {
      NothingBacksOff(s.log, s.reconnectAttempt);
    } else {
      hide Waiting, Round, OneMoreDelay, BacksOff;
      RoundTriesAgain(s, randoms[0]);
      var s1 := Round(s, randoms[0]);
      TheLoopGoesOn(s1, randoms[1..]);
      DelayCounted(s, s1);
      OneMoreFirst(s, s1, Rounds(s1, randoms[1..]).log);
    }
  }

  lemma OneMoreFirst(s: State, r: State, b: seq<Scheduled>)
    requires OneMoreDelay(s, r) && BacksOff(r.log, b, r.reconnectAttempt)
    ensures BacksOff(s.log, b, s.reconnectAttempt)
  {
    hide InBand;
    assert b[..|s.log|] == r.log[..|s.log|];
    assert b[|s.log|] == r.log[|s.log|];
  }

  // ---- a connection that is lost again ----

  /** Once the handshake is through, the socket's failure is noticed: the relay is closed and the back-off starts at zero. */
  lemma ConnectedThenLost(s: State, socket: SocketId, random: real)
    requires OneAttempt(s) && Handshake(socket) in s.attempts && 0.0 <= random < 1.0
    ensures var s1 := Step(s, HandshakeDone(socket, true)); var r := Step(s1, SocketFailed(socket, random));
      && s1.reconnectAttempt == 0 && !s1.connecting && s1.relayWs == Some(socket)
      && r.relayWs.None? && r.reconnectTimer.Some? && OneMoreDelay(s1, r) && r.reconnectAttempt == 1
  {
    hide SettleAll, ScheduleReconnect, OneMoreDelay;
    var s1 := Step(s, HandshakeDone(socket, true));
    var s2 := s1.(relayWs := None);
    ScheduleCounts(s2, random);
    ScheduleRecovers(s2, random);
    ScheduleFrame(s2, random);
    SameDelay(s1, s2, ScheduleReconnect(s2, random));
    DelayCounted(s1, ScheduleReconnect(s2, random));
  }

  // ---- the attempt and the timer, after any event ----

  /** An attempt begins: with the relay closed and none under way, a timer fires, a click connects, the worker starts, or the
      keepalive alarm finds no timer either. */
  predicate Begins(s: State, e: Event) {
    Idle(s) && (e == Click || e == Startup || (e.TimerFires? && e.timer in s.live) || (e == Keepalive && s.reconnectTimer.None?))
  }

  predicate Ends(s: State, e: Event) {
    || (e.PreflightDone? && Preflight in s.attempts && e.probe != Reachable)
    || (e.HandshakeDone? && Handshake(e.socket) in s.attempts)
  }

  lemma ConnectingExactly(s: State, e: Event)
    ensures Step(s, e).connecting <==> Begins(s, e) || (s.connecting && !Ends(s, e))
  {
    hide TakeUp, Done, SettleAll, ReconnectDelay;
  }

  /** The timer after an event: a new one when a reconnect is scheduled, none when it fired or a click cancelled it. */
  lemma TimerExactly(s: State, e: Event)
    ensures Step(s, e).reconnectTimer ==
      if Schedules(s, e) then Some(s.nextTimer)
      else if e == Click || (e.TimerFires? && e.timer in s.live) then None
      else s.reconnectTimer
  {
    hide TakeUp, Done, SettleAll, ReconnectDelay;
  }

  // ---- who learns of the end of an attempt ----

  /** When an attempt ends, every call that waited for it is among those that go on with its outcome, and none waits. */
  lemma CallersLearn(s: State, e: Event)
    requires OneAttempt(s) && Ends(s, e)
    ensures var r := Step(s, e);
      var outcome := if e.HandshakeDone? && e.ok then Connected else Failed(e.HandshakeDone? || e.probe == Unreachable);
      r.calls.waiting == multiset{} && Done(r.calls, outcome) == Done(s.calls, outcome) + s.calls.waiting
  {
    hide OneAttempt;
  }
}
