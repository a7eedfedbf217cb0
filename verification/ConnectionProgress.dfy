/**
 What a connection does next, in every run: when a call of connect opens a session, when the reconnect loop
 dials, retries or gives up, what a rejection leaves, and that an undisturbed attempt succeeds.
 */
module ConnectionProgress {
  import opened ConnectionModel

  // ---------- The reconnect loop ----------

  /** A failed attempt counts as rejected credentials: it was told so, or the broker never said anything. */
  predicate MeansRejection(c: Conn, cause: Stage)
    requires cause.Closing?
  {
    cause.failure == Auth || (cause.failure != Abort && cause.unconfirmed && !cause.restoring && !c.closeRequested)
  }

  predicate TriesLeft(cfg: Config, tries: nat) {
    cfg.bounded ==> tries < cfg.maxAttempts
  }

  /** A loop at work is not exhausted. */
  predicate NotYetExhausted(c: Conn) {
    !c.loop.NoLoop? ==> !c.exhausted
  }

  lemma LosingNotYetExhausted(cfg: Config, c: Conn)
    requires NotYetExhausted(c)
    ensures NotYetExhausted(LoseSession(cfg, c))
  {
    var c1 := c.(authRejected := c.authRejected || Unconfirmed(c), reception := c.reception.(version := 0));
    assert NotYetExhausted(LeaveSession(cfg, c1));
  }

  lemma EndingNotYetExhausted(cfg: Config, c: Conn)
    requires NotYetExhausted(c)
    ensures NotYetExhausted(EndReceive(cfg, c))
  {
    LosingNotYetExhausted(cfg, c.(reception := c.reception.(receiveLoop := Idle)));
  }

  lemma LossNotYetExhausted(cfg: Config, c: Conn, e: Event)
    requires NotYetExhausted(c) && (e.Lost? || e.ReceiveEnds? || e.HelloArrived?)
    ensures NotYetExhausted(Step(cfg, c, e))
  {
    match e
    case Lost(_) => LosingNotYetExhausted(cfg, c);
    case ReceiveEnds => EndingNotYetExhausted(cfg, c);
    case HelloArrived => EndingNotYetExhausted(cfg, Confirm(c));
  }

  lemma TeardownNotYetExhausted(cfg: Config, c: Conn, e: Event)
    requires NotYetExhausted(c) && e.TransportClosed?
    ensures NotYetExhausted(Step(cfg, c, e))
  {
  }

  lemma StepNotYetExhausted(cfg: Config, c: Conn, e: Event)
    requires NotYetExhausted(c)
    ensures NotYetExhausted(Step(cfg, c, e))
  {
    if e.Lost? || e.ReceiveEnds? || e.HelloArrived? {
      LossNotYetExhausted(cfg, c, e);
    } else if e.TransportClosed? {
      TeardownNotYetExhausted(cfg, c, e);
    }
  }

  lemma {:induction false} RunNotYetExhausted(cfg: Config, events: seq<Event>)
    ensures NotYetExhausted(RunFrom(cfg, INITIAL, events))
  {
    if events != [] {
      RunNotYetExhausted(cfg, events[..|events| - 1]);
      StepNotYetExhausted(cfg, RunFrom(cfg, INITIAL, events[..|events| - 1]), events[|events| - 1]);
    }
  }

  /**
   In every run, when the teardown of a reconnect attempt ends: the loop backs off for one more try if and only if
   close was not requested, the failure is neither an abort nor a rejection nor a version mismatch, and the tries
   made are below the maximum. Otherwise it ends, exhausted if and only if exactly the maximum was made or the
   versions do not match.
   */
  lemma {:induction false} RetriesIff(cfg: Config, events: seq<Event>)
    requires RunFrom(cfg, INITIAL, events).loop.Opening? && RunFrom(cfg, INITIAL, events).loop.stage.Closing?
    ensures var c := RunFrom(cfg, INITIAL, events);
            var n := Step(cfg, c, TransportClosed(ByReconnect));
            var ordinary := !c.closeRequested && !MeansRejection(c, c.loop.stage) && c.loop.stage.failure != Abort;
            var retried := ordinary && c.loop.stage.failure == Other && TriesLeft(cfg, c.loop.tries);
            && (retried <==> n.loop == Sleeping(c.loop.tries + 1))
            && (retried ==> n.status == Reconnecting && !n.exhausted)
            && (!retried ==> n.loop == NoLoop && n.status != Reconnecting)
            && (n.exhausted <==> ordinary && (c.loop.stage.failure == Version
                                              || (c.loop.stage.failure == Other && cfg.bounded && c.loop.tries == cfg.maxAttempts)))
            && (n.exhausted ==> n.status == Disconnected)
            && (c.closeRequested || MeansRejection(c, c.loop.stage) ==> n.status == Closed)
  {
    RunReasonable(cfg, events);
    RunTriesBounded(cfg, events);
    RunNotYetExhausted(cfg, events);
    Retried(cfg, RunFrom(cfg, INITIAL, events));
  }

  lemma Retried(cfg: Config, c: Conn)
    requires Reasonable(c) && TriesBounded(cfg, c) && NotYetExhausted(c) && c.loop.Opening? && c.loop.stage.Closing?
    ensures var n := Step(cfg, c, TransportClosed(ByReconnect));
            var failure := FailureOf(c, c.loop.stage);
            && (failure == Auth <==> MeansRejection(c, c.loop.stage)) && (failure != Auth ==> failure == c.loop.stage.failure)
            && (n.loop == Sleeping(c.loop.tries + 1) <==> !c.closeRequested && failure == Other && TriesLeft(cfg, c.loop.tries))
            && (n.loop.Sleeping? ==> n.loop == Sleeping(c.loop.tries + 1) && n.status == Reconnecting && !n.exhausted)
            && (!n.loop.Sleeping? ==> n.loop == NoLoop && n.status != Reconnecting)
            && (n.exhausted <==> !c.closeRequested && (failure == Version || (failure == Other && !TriesLeft(cfg, c.loop.tries))))
            && (n.exhausted ==> n.status == Disconnected) && (c.closeRequested || failure == Auth ==> n.status == Closed)
  {
  }

  /** The end of the backoff dials on a transport of its own, unless close was requested, which ends the loop. */
  lemma WakingDials(cfg: Config, c: Conn)
    requires c.loop.Sleeping?
    ensures var n := Step(cfg, c, SleepOver);
            if c.closeRequested then n == c.(loop := NoLoop)
            else && n.loop == Opening(c.loop.tries, Transport(c.dials), Dialing) && n.transport == Transport(c.dials)
                 && n.dials == c.dials + 1 && n.status == Reconnecting && !n.sessionConfirmed
  {
  }

  /** What makes the loop give up for good: a version mismatch, or a failure or a loss with no try left. */
  predicate GivesUp(cfg: Config, c: Conn, e: Event) {
    match e
    case TransportClosed(who) =>
      && who.ByReconnect? && c.loop.Opening? && c.loop.stage.Closing? && !c.closeRequested && !MeansRejection(c, c.loop.stage)
      && (c.loop.stage.failure == Version
          || (c.loop.stage.failure == Other && cfg.bounded && c.loop.tries == cfg.maxAttempts))
    case _ =>
      && (e.Lost? || e.ReceiveEnds? || e.HelloArrived?) && c.loop.NoLoop?
      && cfg.reconnectEnabled && cfg.bounded && cfg.maxAttempts == 0
  }

  lemma LosingGivesUp(cfg: Config, c: Conn)
    requires !c.exhausted && LoseSession(cfg, c).exhausted
    ensures c.loop.NoLoop? && cfg.reconnectEnabled && cfg.bounded && cfg.maxAttempts == 0
  {
    var c1 := c.(authRejected := c.authRejected || Unconfirmed(c), reception := c.reception.(version := 0));
    assert LeaveSession(cfg, c1).exhausted;
  }

  lemma EndingGivesUp(cfg: Config, c: Conn)
    requires !c.exhausted && EndReceive(cfg, c).exhausted
    ensures c.loop.NoLoop? && cfg.reconnectEnabled && cfg.bounded && cfg.maxAttempts == 0
  {
    LosingGivesUp(cfg, c.(reception := c.reception.(receiveLoop := Idle)));
  }

  lemma TeardownGivesUp(cfg: Config, c: Conn, who: Who)
    requires TriesBounded(cfg, c) && !c.exhausted && Step(cfg, c, TransportClosed(who)).exhausted
    ensures GivesUp(cfg, c, TransportClosed(who))
  {
  }

  lemma OnlyTheseGiveUp(cfg: Config, c: Conn, e: Event)
    requires TriesBounded(cfg, c) && !c.exhausted && Step(cfg, c, e).exhausted
    ensures GivesUp(cfg, c, e)
  {
    match e
    case TransportClosed(who) => TeardownGivesUp(cfg, c, who);
    case Lost(_) => LosingGivesUp(cfg, c);
    case ReceiveEnds => EndingGivesUp(cfg, c);
    case HelloArrived => EndingGivesUp(cfg, Confirm(c));
    case _ =>
  }

  ghost predicate GaveUpAt(cfg: Config, events: seq<Event>, k: nat) {
    k < |events| && GivesUp(cfg, RunFrom(cfg, INITIAL, events[..k]), events[k])
  }

  /** In every run, reconnecting is exhausted only after the loop made exactly the maximum of tries or met a version mismatch. */
  lemma {:induction false} ExhaustedOnlyByMaximum(cfg: Config, events: seq<Event>)
    requires RunFrom(cfg, INITIAL, events).exhausted
    ensures exists k: nat :: GaveUpAt(cfg, events, k)
  {
    var n := |events| - 1;
    if RunFrom(cfg, INITIAL, events[..n]).exhausted {
      ExhaustedOnlyByMaximum(cfg, events[..n]);
      var k: nat :| GaveUpAt(cfg, events[..n], k);
      assert events[..n][..k] == events[..k];
      assert GaveUpAt(cfg, events, k);
    } else {
      RunTriesBounded(cfg, events[..n]);
      OnlyTheseGiveUp(cfg, RunFrom(cfg, INITIAL, events[..n]), events[n]);
      assert GaveUpAt(cfg, events, n);
    }
  }

  // ---------- Calls of connect ----------

  /** Nothing is under way that a call of connect could wait for. */
  predicate MustOpen(cfg: Config, c: Conn) {
    && !c.closeRequested && !c.connecting.Attempt? && c.loop.NoLoop?
    && (c.status == Closed
        || (c.status == Disconnected && !(cfg.reconnectEnabled && c.hasEstablished && !c.exhausted && !c.authRejected)))
  }

  /** A call of connect dials on a new transport exactly when nothing is under way to wait for, and else changes nothing. */
  lemma ConnectDialsIff(cfg: Config, c: Conn)
    ensures var n := Step(cfg, c, Connect);
            if MustOpen(cfg, c)
            then && n.connecting == Attempt(Transport(c.dials), Dialing) && n.transport == Transport(c.dials)
                 && n.dials == c.dials + 1 && n.status == Connecting && !n.authRejected && !n.exhausted && !n.sessionConfirmed
                 && !n.hasEstablished
            else n == c
  {
  }

  // ---------- An undisturbed attempt ----------

  const CONNECTS: seq<Event> := [Connect] + [Dialed(ByConnect)] + [HelloArrived] + [Negotiated(ByConnect)]
  const RECONNECTS: seq<Event> :=
    [SleepOver] + [Dialed(ByReconnect)] + [HelloArrived] + [Negotiated(ByReconnect)] + [Restored]

  /** Authenticated over this transport, with nothing under way, the receive loop at work and the session confirmed. */
  predicate Established(c: Conn, over: Transport) {
    && c.status == Authenticated && c.transport == over && c.sessionConfirmed && c.hasEstablished && !c.exhausted
    && c.connecting == NoAttempt && c.loop == NoLoop && c.reception == Reception(Receiving, false, WIRE_VERSION)
  }

  /** An attempt that waits on the transport in use, which nothing disturbs. */
  predicate WaitsAlone(c: Conn, who: Who) {
    && At(c, who, AwaitingHello(false)) && c.helloOwner == who && c.status == Authenticating && !c.closeRequested
    && c.reception.receiveLoop == Receiving && !c.reception.abort && !c.sessionConfirmed && AttemptOf(c, who).transport == c.transport
    && (who.ByConnect? ==> c.loop == NoLoop && !c.authRejected) && (who.ByReconnect? ==> c.connecting == NoAttempt)
  }

  /** The first HELLO of a session answers the attempt that waits. */
  function AnsweredWith(c: Conn, who: Who): Conn
    requires AttemptOf(c, who).Attempt?
  {
    SetStage(c, who, AwaitingHello(true)).(sessionConfirmed := true, hasEstablished := true,
                                           reception := Reception(Receiving, false, WIRE_VERSION))
  }

  lemma HelloAnswersAlone(cfg: Config, c: Conn, who: Who)
    requires WaitsAlone(c, who) && c.reception.version == 0
    ensures Step(cfg, c, HelloArrived) == AnsweredWith(c, who)
  {
    assert Waiting(Confirm(c)) == who;
  }

  /** A HELLO that finds a version held fails it. */
  lemma HelloRefused(cfg: Config, c: Conn, who: Who)
    requires WaitsAlone(c, who) && c.reception.version != 0
    ensures var n := Step(cfg, c, HelloArrived);
            AttemptOf(n, who).Attempt? && AttemptOf(n, who).stage.Closing? && n.status != Authenticated
  {
    var silent := Confirm(c).(reception := c.reception.(receiveLoop := Idle));
    assert Step(cfg, c, HelloArrived) == LoseSession(cfg, silent);
    assert Waiting(silent) == who;
    LosingFails(cfg, silent, who);
  }

  lemma LosingFails(cfg: Config, c: Conn, who: Who)
    requires Waiting(c) == who && AttemptOf(c, who).Attempt? && c.status == Authenticating
    ensures var n := LoseSession(cfg, c);
            AttemptOf(n, who).Attempt? && AttemptOf(n, who).stage.Closing? && n.status != Authenticated
  {
  }

  lemma OneMore(cfg: Config, c: Conn, events: seq<Event>, e: Event, s: Conn, n: Conn)
    requires RunFrom(cfg, c, events) == s && Step(cfg, s, e) == n
    ensures RunFrom(cfg, c, events + [e]) == n
  {
    RunSnoc(cfg, c, events, e);
  }

  lemma First(cfg: Config, c: Conn, e: Event)
    ensures RunFrom(cfg, c, [e]) == Step(cfg, c, e)
  {
    RunSnoc(cfg, c, [], e);
    assert [] + [e] == [e];
  }

  lemma ConnectWaits(cfg: Config, c: Conn)
    requires MustOpen(cfg, c)
    ensures var n := RunFrom(cfg, c, [Connect] + [Dialed(ByConnect)]);
            WaitsAlone(n, ByConnect) && n.transport == Transport(c.dials) && n.reception.version == c.reception.version
  {
    var dialing := Step(cfg, c, Connect);
    First(cfg, c, Connect);
    ConnectDialsIff(cfg, c);
    OneMore(cfg, c, [Connect], Dialed(ByConnect), dialing, Step(cfg, dialing, Dialed(ByConnect)));
  }

  lemma ReconnectWaits(cfg: Config, c: Conn)
    requires c.loop.Sleeping? && !c.closeRequested && c.connecting == NoAttempt
    ensures var n := RunFrom(cfg, c, [SleepOver] + [Dialed(ByReconnect)]);
            WaitsAlone(n, ByReconnect) && n.transport == Transport(c.dials) && n.reception.version == c.reception.version
            && n.exhausted == c.exhausted
  {
    var dialing := Step(cfg, c, SleepOver);
    First(cfg, c, SleepOver);
    WakingDials(cfg, c);
    OneMore(cfg, c, [SleepOver], Dialed(ByReconnect), dialing, Step(cfg, dialing, Dialed(ByReconnect)));
  }

  lemma ConnectEstablishes(cfg: Config, c: Conn)
    requires WaitsAlone(c, ByConnect) && c.reception.version == 0
    ensures Established(Step(cfg, AnsweredWith(c, ByConnect), Negotiated(ByConnect)), c.transport)
  {
  }

  lemma ReconnectEstablishes(cfg: Config, c: Conn)
    requires WaitsAlone(c, ByReconnect) && c.reception.version == 0
    ensures Established(Step(cfg, Step(cfg, AnsweredWith(c, ByReconnect), Negotiated(ByReconnect)), Restored), c.transport)
  {
    var restoring := SetStage(AnsweredWith(c, ByReconnect), ByReconnect, Restoring).(helloOwner := Nobody, restoreActive := true);
    assert Step(cfg, AnsweredWith(c, ByReconnect), Negotiated(ByReconnect)) == restoring;
  }

  /**
   A call of connect that dials, and is disturbed by nothing, establishes a session on its transport if and only if
   the multiplexer holds no version from before.
   */
  lemma UndisturbedConnect(cfg: Config, c: Conn)
    requires MustOpen(cfg, c)
    ensures Established(RunFrom(cfg, c, CONNECTS), Transport(c.dials)) <==> c.reception.version == 0
  {
    var waits := RunFrom(cfg, c, [Connect] + [Dialed(ByConnect)]);
    var heard := Step(cfg, waits, HelloArrived);
    ConnectWaits(cfg, c);
    OneMore(cfg, c, [Connect] + [Dialed(ByConnect)], HelloArrived, waits, heard);
    OneMore(cfg, c, [Connect] + [Dialed(ByConnect)] + [HelloArrived], Negotiated(ByConnect), heard,
            Step(cfg, heard, Negotiated(ByConnect)));
    if c.reception.version == 0 {
      HelloAnswersAlone(cfg, waits, ByConnect);
      ConnectEstablishes(cfg, waits);
    } else {
      HelloRefused(cfg, waits, ByConnect);
      assert Step(cfg, heard, Negotiated(ByConnect)) == heard;
    }
  }

  /** The same of a round of the reconnect loop. */
  lemma UndisturbedReconnect(cfg: Config, c: Conn)
    requires c.loop.Sleeping? && !c.closeRequested && c.connecting == NoAttempt
    ensures Established(RunFrom(cfg, c, RECONNECTS), Transport(c.dials)) <==> c.reception.version == 0
  {
    var waits := RunFrom(cfg, c, [SleepOver] + [Dialed(ByReconnect)]);
    var heard := Step(cfg, waits, HelloArrived);
    var negotiated := Step(cfg, heard, Negotiated(ByReconnect));
    ReconnectWaits(cfg, c);
    OneMore(cfg, c, [SleepOver] + [Dialed(ByReconnect)], HelloArrived, waits, heard);
    OneMore(cfg, c, [SleepOver] + [Dialed(ByReconnect)] + [HelloArrived], Negotiated(ByReconnect), heard, negotiated);
    OneMore(cfg, c, [SleepOver] + [Dialed(ByReconnect)] + [HelloArrived] + [Negotiated(ByReconnect)], Restored, negotiated,
            Step(cfg, negotiated, Restored));
    if c.reception.version == 0 {
      HelloAnswersAlone(cfg, waits, ByReconnect);
      ReconnectEstablishes(cfg, waits);
    } else {
      HelloRefused(cfg, waits, ByReconnect);
      assert negotiated == heard;
      assert Step(cfg, negotiated, Restored) == heard;
    }
  }

  // ---------- A rejection, and the end of a connect ----------

  /** A rejection confirms the session, is remembered if it is of the credentials, and fails the negotiation that waits. */
  lemma RejectionFails(cfg: Config, c: Conn, failure: Failure)
    requires c.reception.receiveLoop == Receiving
    ensures var n := Step(cfg, c, RejectArrived(failure));
            && n.sessionConfirmed && (n.authRejected <==> c.authRejected || failure == Auth)
            && (At(c, c.helloOwner, AwaitingHello(false)) ==>
                  && AttemptOf(n, c.helloOwner).Attempt? && AttemptOf(n, c.helloOwner).stage.Closing?
                  && AttemptOf(n, c.helloOwner).stage.failure == failure && n.helloOwner == Nobody && n.reception.abort)
            && (!At(c, c.helloOwner, AwaitingHello(false)) ==> n.connecting == c.connecting && n.loop == c.loop)
  {
  }

  /** The end of a failed connect: closed after a close or a rejection, else disconnected, without its own transport. */
  lemma ConnectEnds(cfg: Config, c: Conn)
    requires c.connecting.Attempt? && c.connecting.stage.Closing?
    ensures var n := Step(cfg, c, TransportClosed(ByConnect));
            && n.connecting == NoAttempt && n.loop == c.loop
            && (c.transport == c.connecting.transport ==> n.transport == NoTransport)
            && (c.transport != c.connecting.transport ==> n.transport == c.transport)
            && (n.status == if c.closeRequested || c.status == Closed || MeansRejection(c, c.connecting.stage)
                            then Closed else Disconnected)
            && (n.authRejected <==> c.authRejected || MeansRejection(c, c.connecting.stage))
  {
  }

  /** An attempt with its answer goes on unless close was requested or, for a connect, the credentials were rejected. */
  lemma NegotiatedProceedsIff(cfg: Config, c: Conn, who: Who)
    requires At(c, who, AwaitingHello(true))
    ensures var n := Step(cfg, c, Negotiated(who));
            if c.closeRequested || (who.ByConnect? && c.authRejected)
            then && AttemptOf(n, who).Attempt? && AttemptOf(n, who).stage.Closing?
                 && AttemptOf(n, who).stage.failure == (if c.closeRequested then Other else Auth) && n.status == c.status
            else if who.ByConnect? then n.status == Authenticated && n.connecting == NoAttempt && !n.exhausted
            else At(n, ByReconnect, Restoring) && n.restoreActive && n.status == c.status
  {
  }

  /**
   A failure of the dial or of the negotiation begins the teardown, which remembers the failure, whether the broker
   had said nothing, and whether a restore was under way.
   */
  lemma FailureTearsDown(cfg: Config, c: Conn, e: Event)
    requires Enabled(c, e) && (e.DialFailed? || e.HelloFailed?)
    ensures var n := Step(cfg, c, e);
            && AttemptOf(n, e.who).Attempt? && AttemptOf(n, e.who).transport == AttemptOf(c, e.who).transport
            && AttemptOf(n, e.who).stage == Closing(e.failure, !c.sessionConfirmed && c.status == Authenticating, c.restoreActive)
            && n.helloOwner == Nobody && n.reception.abort && !n.restoreActive && n.status == c.status
  {
  }

  /**
   A transport that connected: the attempt waits for HELLO and receives, if its transport is still the one in use and
   nothing told the receive loop to end, unless close was requested or, for a connect, the credentials were rejected.
   */
  lemma DialedProceedsIff(cfg: Config, c: Conn, who: Who)
    requires At(c, who, Dialing)
    ensures var n := Step(cfg, c, Dialed(who));
            && AttemptOf(n, who).Attempt? && AttemptOf(n, who).transport == AttemptOf(c, who).transport
            && n.transport == c.transport && n.dials == c.dials
            && if c.closeRequested
               then AttemptOf(n, who).stage.Closing? && AttemptOf(n, who).stage.failure == Other && n.status == c.status
               else && n.status == Authenticating
                    && (n.reception.receiveLoop == Receiving <==>
                          if c.transport == AttemptOf(c, who).transport then !c.reception.abort
                          else c.reception.receiveLoop == Receiving)
                    && if who.ByConnect? && c.authRejected
                       then AttemptOf(n, who).stage.Closing? && AttemptOf(n, who).stage.failure == Auth
                       else At(n, who, AwaitingHello(false)) && n.helloOwner == who
  {
  }
}
