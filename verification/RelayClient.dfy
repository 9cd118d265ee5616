/** The connection half of the service worker: fields that its handlers update in place. */
module RelayClient {
  import opened JsMaps
  import opened RelayConnection

  class Client {
    var relayWs: Option<SocketId>
    var relayConnectPromise: bool
    var reconnectTimer: Option<TimerId>
    var reconnectAttempt: nat
    // the browser's side: sockets, timers, and the calls suspended at an `await`
    var open: set<SocketId>
    var bound: set<SocketId>
    var nextSocket: SocketId
    var attempts: multiset<Attempt>
    var calls: Calls
    var live: set<TimerId>
    var nextTimer: TimerId
    var log: seq<Scheduled>

    ghost function View(): State
      reads this
    {
      State(relayWs, open, bound, nextSocket, relayConnectPromise, attempts, calls,
            reconnectTimer, live, nextTimer, reconnectAttempt, log)
    }

    constructor ()
      ensures View() == FirstStart
    {
      relayWs, relayConnectPromise, reconnectTimer, reconnectAttempt := None, false, None, 0;
      open, bound, nextSocket, attempts, calls := {}, {}, 0, multiset{}, NoCalls;
      live, nextTimer, log := {}, 0, [];
    }

    method StopTimer()
      modifies this`reconnectTimer, this`live
      ensures View() == ClearTimer(old(View()))
    {
      if reconnectTimer.Some? {
        live := live - {reconnectTimer.value};
        reconnectTimer := None;
      }
    }

    method Schedule(random: real)
      modifies this`reconnectTimer, this`live, this`nextTimer, this`reconnectAttempt, this`log
      ensures View() == ScheduleReconnect(old(View()), random)
    {
      hide ReconnectDelay;
      StopTimer();
      var delay := ReconnectDelay(reconnectAttempt, random);
      log, reconnectAttempt := log + [Scheduled(reconnectAttempt, delay)], reconnectAttempt + 1;
      reconnectTimer, live, nextTimer := Some(nextTimer), live + {nextTimer}, nextTimer + 1;
    }

    method EnsureRelayConnection(caller: Caller)
      modifies this`calls, this`relayConnectPromise, this`attempts
      ensures View() == Ensure(old(View()), caller)
    {
      if relayWs.Some? && relayWs.value in open {
        calls := calls.(connected := calls.connected + multiset{caller});
        return;
      }
      calls := calls.(waiting := calls.waiting + multiset{caller});
      if !relayConnectPromise {
        relayConnectPromise := true;
        attempts := attempts + multiset{Preflight};
      }
    }

    /** relayConnectPromise resolves or rejects: everybody who awaited it goes on. */
    method EndAttempt(attempt: Attempt, outcome: Outcome)
      modifies this`relayConnectPromise, this`attempts, this`calls, this`reconnectAttempt
      ensures View() == Settle(old(View()), attempt, outcome)
    {
      hide SettleAll, Settle;
      SettleIs(View(), attempt, outcome);
      if outcome == Connected { reconnectAttempt := 0; }
      relayConnectPromise, attempts, calls := false, attempts - multiset{attempt}, SettleAll(calls, outcome);
    }

    method OnPreflight(probe: Probe)
      modifies this
      ensures View() == Step(old(View()), PreflightDone(probe))
    {
      hide Settle, Step;
      PreflightIs(View(), probe);
      if Preflight !in attempts { return; }
      match probe {
        case Unreachable => EndAttempt(Preflight, Failed(true));
        case NoToken => EndAttempt(Preflight, Failed(false));
        case Reachable =>
          relayWs := Some(nextSocket);
          attempts := attempts - multiset{Preflight} + multiset{Handshake(nextSocket)};
          nextSocket := nextSocket + 1;
      }
    }

    method OnHandshake(socket: SocketId, ok: bool)
      modifies this
      ensures View() == Step(old(View()), HandshakeDone(socket, ok))
    {
      hide Settle;
      if Handshake(socket) !in attempts { return; }
      if ok { bound := bound + {socket}; }
      EndAttempt(Handshake(socket), if ok then Connected else Failed(true));
    }

    method OnSocketFailed(socket: SocketId, random: real)
      modifies this
      ensures View() == Step(old(View()), SocketFailed(socket, random))
    {
      if socket !in bound || relayWs != Some(socket) { return; }
      relayWs := None;
      Schedule(random);
    }

    method OnTimer(timer: TimerId)
      modifies this
      ensures View() == Step(old(View()), TimerFires(timer))
    {
      if timer !in live { return; }
      live := live - {timer};
      reconnectTimer := None;
      EnsureRelayConnection(TimerCaller);
    }

    method OnClick()
      modifies this
      ensures View() == Step(old(View()), Click)
    {
      StopTimer();
      reconnectAttempt := 0;
      EnsureRelayConnection(ClickCaller);
    }

    method OnKeepalive()
      modifies this
      ensures View() == Step(old(View()), Keepalive)
    {
      if relayWs.None? || relayWs.value !in open {
        if !relayConnectPromise && reconnectTimer.None? { EnsureRelayConnection(KeepaliveCaller); }
      }
    }

    method ContinueCall(caller: Caller, outcome: Outcome, random: real)
      modifies this
      ensures View() == Step(old(View()), Continue(caller, outcome, random))
    {
      hide TakeUp, Done;
      if caller !in Done(calls, outcome) { return; }
      calls := TakeUp(calls, caller, outcome);
      match caller {
        case ClickCaller =>
        case TimerCaller =>
          if outcome == Connected { reconnectAttempt := 0; }
          else if outcome.retryable { Schedule(random); }
        case KeepaliveCaller =>
          if outcome.Failed? && reconnectTimer.None? { Schedule(random); }
        case StartupCaller =>
          if outcome == Connected { reconnectAttempt := 0; } else { Schedule(random); }
      }
    }

    /** The event loop. Whatever comes, one timer, one connect attempt and an honest back-off remain. */
    method Dispatch(e: Event)
      requires RandomOk(e)
      modifies this
      ensures View() == Step(old(View()), e)
      ensures old(OneTimer(View()) && OneAttempt(View()) && BackoffLog(View())) ==>
        OneTimer(View()) && OneAttempt(View()) && BackoffLog(View())
    {
      hide Step, OneTimer, OneAttempt, BackoffLog;
      ghost var before := View();
      match e {
        case SocketOpened(socket) => NoteOpen(socket, true);
        case SocketGone(socket) => NoteOpen(socket, false);
        case SocketFailed(socket, random) => OnSocketFailed(socket, random);
        case PreflightDone(probe) => OnPreflight(probe);
        case HandshakeDone(socket, ok) => OnHandshake(socket, ok);
        case TimerFires(timer) => OnTimer(timer);
        case Click => OnClick();
        case Keepalive => OnKeepalive();
        case Startup => OnStartup();
        case Continue(caller, outcome, random) => ContinueCall(caller, outcome, random);
      }
      if OneTimer(before) && OneAttempt(before) && BackoffLog(before) {
        StepKeepsOneTimer(before, e);
        StepKeepsOneAttempt(before, e);
        StepKeepsLog(before, e);
      }
    }

    method OnStartup()
      modifies this
      ensures View() == Step(old(View()), Startup)
    {
      EnsureRelayConnection(StartupCaller);
    }

    method NoteOpen(socket: SocketId, isOpen: bool)
      modifies this`open
      ensures View() == Step(old(View()), if isOpen then SocketOpened(socket) else SocketGone(socket))
    {
      if !isOpen { open := open - {socket}; }
      else if socket < nextSocket { open := open + {socket}; }
    }
  }

  lemma PreflightIs(s: State, probe: Probe)
    ensures Step(s, PreflightDone(probe)) == if Preflight in s.attempts then PreflightStep(s, probe) else s
  {
    hide PreflightStep;
  }

  lemma SettleIs(s: State, attempt: Attempt, outcome: Outcome)
    ensures Settle(s, attempt, outcome) ==
      State(s.relayWs, s.open, s.bound, s.nextSocket, false, s.attempts - multiset{attempt}, SettleAll(s.calls, outcome),
            s.reconnectTimer, s.live, s.nextTimer, if outcome == Connected then 0 else s.reconnectAttempt, s.log)
  {
    hide SettleAll;
  }
}
