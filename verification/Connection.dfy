/**
 The connection as an object whose fields are the source's closure variables. Each event is a method that
 takes the step ConnectionModel.Step gives it and keeps the invariant of every run, so what is proved
 there about all runs holds of the object; the other methods are the pieces these are made of.
 */
module Connections {
  import opened ConnectionModel

  class Connection {
    const cfg: Config
    var state: Status
    var transport: Transport
    var transportsCreated: nat
    var closePromise: ClosePromise
    var closeRequested: bool
    var authRejected: bool
    var sessionConfirmed: bool
    var hasEstablishedSession: bool
    var reconnectExhausted: bool
    var reconnectRestoreActive: bool
    var receiveLoop: ReceiveLoop
    var receiveLoopAbort: bool
    /** What the multiplexer holds of a HELLO. */
    var protocolVersion: nat
    var authOutcome: Who
    var connecting: Attempt
    var reconnectLoop: Loop

    constructor (cfg: Config)
      ensures Valid() && this.cfg == cfg && Model() == INITIAL
    {
      this.cfg := cfg;
      state, transport, transportsCreated := Disconnected, NoTransport, 0;
      closePromise, closeRequested, authRejected, sessionConfirmed := NotCalled, false, false, false;
      hasEstablishedSession, reconnectExhausted, reconnectRestoreActive := false, false, false;
      receiveLoop, receiveLoopAbort, protocolVersion := Idle, false, 0;
      authOutcome, connecting, reconnectLoop := Nobody, NoAttempt, NoLoop;
    }

    ghost function Model(): Conn
      reads this
    {
      Conn(state, transport, transportsCreated, closePromise, closeRequested, authRejected, sessionConfirmed,
           hasEstablishedSession, reconnectExhausted, reconnectRestoreActive,
           Reception(receiveLoop, receiveLoopAbort, protocolVersion), authOutcome, connecting, reconnectLoop)
    }

    /** What every run keeps: a requested close means closed for good and without transport. */
    ghost predicate Valid()
      reads this
    {
      Reasonable(Model())
    }

    method Suspend(who: Who, stage: Stage)
      requires AttemptOf(Model(), who).Attempt?
      modifies `connecting, `reconnectLoop
      ensures Model() == SetStage(old(Model()), who, stage)
    {
      if who == ByConnect {
        connecting := connecting.(stage := stage);
      } else {
        reconnectLoop := reconnectLoop.(stage := stage);
      }
    }

    method Open(who: Who)
      requires who.ByConnect? || (who.ByReconnect? && reconnectLoop.Sleeping?)
      modifies this
      ensures Model() == BeginOpen(old(Model()), who)
    {
      UseTransport();
      if who == ByConnect {
        hasEstablishedSession := false;
        state := Connecting;
        connecting := Attempt(transport, Dialing);
      } else {
        state := Reconnecting;
        reconnectLoop := Opening(reconnectLoop.tries, transport, Dialing);
      }
    }

    /** A new transport, from which nothing is received yet. */
    method UseTransport()
      modifies `receiveLoopAbort, `sessionConfirmed, `transport, `transportsCreated, `receiveLoop
      ensures !receiveLoopAbort && !sessionConfirmed && receiveLoop == Idle
      ensures transport == Transport(old(transportsCreated)) && transportsCreated == old(transportsCreated) + 1
    {
      receiveLoopAbort := false;
      sessionConfirmed := false;
      transport := Transport(transportsCreated);
      receiveLoop := Idle;
      transportsCreated := transportsCreated + 1;
    }

    method Fail(who: Who, failure: Failure)
      requires AttemptOf(Model(), who).Attempt?
      modifies `authOutcome, `reconnectRestoreActive, `receiveLoopAbort, `connecting, `reconnectLoop
      ensures Model() == EnterCatch(old(Model()), who, failure)
    {
      var unconfirmedAtCatch := !sessionConfirmed && state == Authenticating;
      var wasReconnectRestoreActive := reconnectRestoreActive;
      authOutcome := Nobody;
      reconnectRestoreActive := false;
      receiveLoopAbort := true;
      Suspend(who, Closing(failure, unconfirmedAtCatch, wasReconnectRestoreActive));
    }

    method Connect()
      requires Valid()
      modifies this
      ensures Valid() && Model() == Step(cfg, old(Model()), ConnectionModel.Connect)
    {
      StepReasonable(cfg, Model(), ConnectionModel.Connect);
      if closeRequested || state == Authenticated || connecting.Attempt? {
        return;
      }
      var waitsForReconnect := cfg.reconnectEnabled && hasEstablishedSession && !reconnectExhausted && !authRejected;
      if reconnectLoop != NoLoop || state == Connecting || state == Authenticating || state == Reconnecting
         || (state == Disconnected && waitsForReconnect) {
        return;
      }
      authRejected := false;
      reconnectExhausted := false;
      Open(ByConnect);
    }

    method Close()
      requires Valid()
      modifies this
      ensures Valid() && Model() == Step(cfg, old(Model()), ConnectionModel.Close)
    {
      StepReasonable(cfg, Model(), ConnectionModel.Close);
      if closePromise.Called? {
        return;
      }
      if state == Closed && transport == NoTransport {
        closePromise := Called;
        return;
      }
      EffectiveClose(cfg, Model());
      RunClose();
    }

    method Detach()
      modifies `closePromise, `closeRequested, `state, `authOutcome, `transport
      modifies `receiveLoop, `receiveLoopAbort, `protocolVersion
      ensures Model() == Detached(old(Model()))
    {
      closePromise := Called;
      closeRequested := true;
      state := Closed;
      receiveLoopAbort := true;
      authOutcome := Nobody;
      protocolVersion := 0;
      receiveLoop := Idle;
      transport := NoTransport;
    }

    method RunClose()
      modifies this
      ensures Model() == RejectWaiting(Detached(old(Model())), Waiting(old(Model())), Other)
    {
      var waiting := WaitingForHello();
      Detach();
      RejectOutcome(waiting, Other);
    }

    method WaitingForHello() returns (waiting: Who)
      ensures waiting == Waiting(Model())
    {
      waiting := Nobody;
      if authOutcome == ByConnect && connecting.Attempt? && connecting.stage == AwaitingHello(false) {
        waiting := ByConnect;
      }
      if authOutcome == ByReconnect && reconnectLoop.Opening? && reconnectLoop.stage == AwaitingHello(false) {
        waiting := ByReconnect;
      }
    }

    method TransportConnected(who: Who)
      requires Valid() && Enabled(Model(), Dialed(who))
      modifies this
      ensures Valid() && Model() == Step(cfg, old(Model()), Dialed(who))
    {
      StepReasonable(cfg, Model(), Dialed(who));
      if closeRequested {
        Fail(who, Other);
        return;
      }
      Listen(who);
      if who == ByConnect && authRejected {
        Fail(who, Auth);
        return;
      }
      Suspend(who, AwaitingHello(false));
    }

    method Listen(who: Who)
      requires AttemptOf(Model(), who).Attempt?
      modifies `state, `receiveLoop, `authOutcome
      ensures Model() == Connected(old(Model()), who)
    {
      StartReceiveLoop(if who == ByConnect then connecting.transport else reconnectLoop.transport);
      state := Authenticating;
      authOutcome := who;
    }

    method StartReceiveLoop(activeTransport: Transport)
      modifies `receiveLoop
      ensures receiveLoop == StartReceiving(old(Model()), activeTransport)
    {
      if transport == activeTransport {
        receiveLoop := if receiveLoopAbort then Idle else Receiving;
      }
    }

    /** The negotiation failed: the attempt is torn down. */
    method AttemptFails(who: Who, failure: Failure)
      requires Valid() && Enabled(Model(), HelloFailed(who, failure))
      modifies this
      ensures Valid() && Model() == Step(cfg, old(Model()), HelloFailed(who, failure))
    {
      StepReasonable(cfg, Model(), HelloFailed(who, failure));
      Fail(who, failure);
    }

    method DialFails(who: Who, failure: Failure)
      requires Valid() && Enabled(Model(), DialFailed(who, failure))
      modifies this
      ensures Valid() && Model() == Step(cfg, old(Model()), DialFailed(who, failure))
    {
      StepReasonable(cfg, Model(), DialFailed(who, failure));
      Fail(who, failure);
    }

    method SessionNegotiated(who: Who)
      requires Valid() && Enabled(Model(), Negotiated(who))
      modifies this
      ensures Valid() && Model() == Step(cfg, old(Model()), Negotiated(who))
    {
      StepReasonable(cfg, Model(), Negotiated(who));
      if closeRequested {
        Fail(who, Other);
      } else if who == ByConnect && authRejected {
        Fail(who, Auth);
      } else {
        Proceed(who);
      }
    }

    method Proceed(who: Who)
      requires AttemptOf(Model(), who).Attempt? && !closeRequested && !(who.ByConnect? && authRejected)
      modifies this
      ensures Model() == Negotiate(old(Model()), who)
    {
      AnswerOutcome();
      authOutcome := Nobody;
      if who == ByReconnect {
        reconnectRestoreActive := true;
        Suspend(who, Restoring);
        return;
      }
      reconnectExhausted := false;
      state := Authenticated;
      connecting := NoAttempt;
    }

    method SubscriptionsRestored()
      requires Valid() && Enabled(Model(), Restored)
      modifies this
      ensures Valid() && Model() == Step(cfg, old(Model()), Restored)
    {
      StepReasonable(cfg, Model(), Restored);
      reconnectRestoreActive := false;
      if closeRequested {
        Fail(ByReconnect, Other);
        return;
      }
      reconnectExhausted := false;
      state := Authenticated;
      reconnectLoop := NoLoop;
    }

    method FrameReceived()
      requires Valid() && receiveLoop == Receiving
      modifies this
      ensures Valid() && Model() == Step(cfg, old(Model()), FrameArrived)
    {
      StepReasonable(cfg, Model(), FrameArrived);
      ConfirmSession();
    }

    method ConfirmSession()
      modifies `sessionConfirmed, `hasEstablishedSession
      ensures Model() == Confirm(old(Model()))
    {
      if sessionConfirmed {
        return;
      }
      sessionConfirmed := true;
      hasEstablishedSession := true;
    }

    method AnswerOutcome()
      modifies `connecting, `reconnectLoop
      ensures Model() == AnswerWaiting(old(Model()))
    {
      var waiting := WaitingForHello();
      if waiting != Nobody {
        Suspend(waiting, AwaitingHello(true));
      }
    }

    method HelloReceived()
      requires Valid() && receiveLoop == Receiving
      modifies this
      ensures Valid() && Model() == Step(cfg, old(Model()), HelloArrived)
    {
      StepReasonable(cfg, Model(), HelloArrived);
      ConfirmSession();
      if protocolVersion != 0 {
        LeaveReceiveLoop();
        return;
      }
      AnswerOutcome();
      protocolVersion := WIRE_VERSION;
    }

    /** Receiving fails, a frame is refused, or the head of the loop finds its flag set. */
    method ReceiveLoopEnds()
      requires Valid() && receiveLoop == Receiving
      modifies this
      ensures Valid() && Model() == Step(cfg, old(Model()), ReceiveEnds)
    {
      StepReasonable(cfg, Model(), ReceiveEnds);
      LeaveReceiveLoop();
    }

    method LeaveReceiveLoop()
      modifies this
      ensures Model() == EndReceive(cfg, old(Model()))
    {
      receiveLoop := Idle;
      if receiveLoopAbort || closeRequested {
        return;
      }
      LoseSession();
    }

    method RejectReceived(failure: Failure)
      requires Valid() && receiveLoop == Receiving
      modifies this
      ensures Valid() && Model() == Step(cfg, old(Model()), RejectArrived(failure))
    {
      StepReasonable(cfg, Model(), RejectArrived(failure));
      var waiting := WaitingForHello();
      ConfirmSession();
      if failure == Auth {
        authRejected := true;
      }
      RejectOutcome(waiting, failure);
    }

    method NextRound(attempts: nat)
      modifies `state, `reconnectExhausted, `reconnectLoop
      ensures Model() == LoopHead(cfg, old(Model()), attempts)
    {
      if !closeRequested && (!cfg.bounded || attempts < cfg.maxAttempts) {
        state := Reconnecting;
        reconnectLoop := Sleeping(attempts + 1);
        return;
      }
      reconnectLoop := NoLoop;
      if closeRequested {
        state := Closed;
        return;
      }
      state := Disconnected;
      reconnectExhausted := true;
    }

    method ReconnectFailed(attempts: nat, failure: Failure)
      modifies `state, `reconnectExhausted, `reconnectLoop
      ensures Model() == AttemptFailed(cfg, old(Model()), attempts, failure)
      ensures reconnectLoop == Sleeping(attempts + 1) <==>
              !closeRequested && failure == Other && (cfg.bounded ==> attempts < cfg.maxAttempts)
      ensures reconnectLoop.Sleeping? ==> state == Reconnecting
      ensures !reconnectLoop.Sleeping? ==> reconnectLoop == NoLoop
    {
      if closeRequested || failure == Abort {
        reconnectLoop := NoLoop;
      } else if failure == Auth {
        state := Closed;
        reconnectLoop := NoLoop;
      } else if failure == Version {
        state := Disconnected;
        reconnectExhausted := true;
        reconnectLoop := NoLoop;
      } else {
        NextRound(attempts);
      }
    }

    method StateAfterTeardown(failure: Failure) returns (next: Status)
      ensures next == DownStatus(Model(), failure)
    {
      if state == Closed || closeRequested {
        return Closed;
      }
      next := if failure == Auth then Closed else Disconnected;
    }

    method MarkDown(gone: Transport, failure: Failure)
      modifies `transport, `receiveLoop, `protocolVersion, `authRejected, `state
      ensures Model() == TakeDown(old(Model()), gone, failure)
    {
      var next := StateAfterTeardown(failure);
      if transport == gone {
        transport := NoTransport;
        receiveLoop := Idle;
      }
      if failure == Auth {
        authRejected := true;
      }
      if state != Closed && !closeRequested {
        protocolVersion := 0;
      }
      state := next;
    }

    method TransportTornDown(who: Who)
      requires Valid() && Enabled(Model(), TransportClosed(who))
      modifies this
      ensures Valid() && Model() == Step(cfg, old(Model()), TransportClosed(who))
    {
      StepReasonable(cfg, Model(), TransportClosed(who));
      var attempt := if who == ByConnect then connecting else Attempt(reconnectLoop.transport, reconnectLoop.stage);
      var cause := attempt.stage;
      var inferredAuthFailure := !closeRequested && cause.failure != Abort && !cause.restoring && cause.unconfirmed;
      var failure := if inferredAuthFailure then Auth else cause.failure;
      MarkDown(attempt.transport, failure);
      if who == ByConnect {
        connecting := NoAttempt;
      } else {
        ReconnectFailed(reconnectLoop.tries, failure);
      }
    }

    method BackoffElapsed()
      requires Valid() && reconnectLoop.Sleeping?
      modifies this
      ensures Valid() && Model() == Step(cfg, old(Model()), SleepOver)
    {
      StepReasonable(cfg, Model(), SleepOver);
      if closeRequested {
        reconnectLoop := NoLoop;
        return;
      }
      Open(ByReconnect);
    }

    method RejectOutcome(waiting: Who, failure: Failure)
      requires waiting.Nobody? || AttemptOf(Model(), waiting).Attempt?
      modifies `authOutcome, `reconnectRestoreActive, `receiveLoopAbort, `connecting, `reconnectLoop
      ensures Model() == RejectWaiting(old(Model()), waiting, failure)
    {
      if waiting != Nobody {
        Fail(waiting, failure);
      }
    }

    method EndSession()
      modifies `state, `reconnectExhausted, `reconnectLoop
      ensures Model() == LeaveSession(cfg, old(Model()))
    {
      if closeRequested || authRejected {
        state := Closed;
        return;
      }
      reconnectExhausted := false;
      state := Disconnected;
      if cfg.reconnectEnabled && reconnectLoop == NoLoop {
        NextRound(0);
      }
    }

    method HandleConnectionLoss(failedTransport: Transport)
      requires Valid()
      modifies this
      ensures Valid() && Model() == Step(cfg, old(Model()), Lost(failedTransport))
    {
      StepReasonable(cfg, Model(), Lost(failedTransport));
      LoseTransport(failedTransport);
    }

    method LoseTransport(failedTransport: Transport)
      modifies this
      ensures Model() == HandleLoss(cfg, old(Model()), failedTransport)
    {
      if failedTransport != NoTransport && transport != failedTransport {
        return;
      }
      LoseSession();
    }

    method LoseSession()
      modifies this
      ensures Model() == ConnectionModel.LoseSession(cfg, old(Model()))
    {
      var waiting := WaitingForHello();
      if state != Authenticating {
        waiting := Nobody;
      }
      var inferredAuthFailure := !sessionConfirmed && state == Authenticating;
      if inferredAuthFailure {
        authRejected := true;
      }
      protocolVersion := 0;
      EndSession();
      RejectOutcome(waiting, if inferredAuthFailure then Auth else Other);
    }
  }
}
