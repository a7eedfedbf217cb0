/**
 Which attempts can still get their answer to HELLO. The outcome an attempt waits on, the receive loop and its
 flag, and the version the multiplexer holds are shared by a call of connect and the reconnect loop, so each
 may spoil the wait of the other.
 */
module HelloAnswers {
  import opened ConnectionModel
  import opened AttemptOverlap

  predicate Waits(c: Conn, who: Who) {
    At(c, who, AwaitingHello(false))
  }

  function TheOther(who: Who): Who {
    if who.ByConnect? then ByReconnect else ByConnect
  }

  /** A version held from before is gone, or can go without failing the attempt that waits; until then a HELLO is refused. */
  predicate VersionCanGo(c: Conn, who: Who) {
    var other := AttemptOf(c, TheOther(who));
    || c.reception.version == 0
    || c.status != Authenticating
    || (other.Attempt? && other.stage.Closing? && other.transport != c.transport)
    || (other.Attempt? && other.stage.Restoring?)
  }

  /** The other attempt has its answer, and its success would resolve the outcome in use. */
  predicate OtherCanAnswer(c: Conn, who: Who) {
    At(c, TheOther(who), AwaitingHello(true)) && !c.closeRequested && !(TheOther(who).ByConnect? && c.authRejected)
  }

  /** The outcome is that of this attempt, and something is left that can resolve it. */
  predicate CanBeAnswered(c: Conn, who: Who) {
    c.helloOwner == who && ((c.reception.receiveLoop == Receiving && VersionCanGo(c, who)) || OtherCanAnswer(c, who))
  }

  ghost predicate AnsweredAfter(cfg: Config, c: Conn, who: Who, more: seq<Event>)
    requires AttemptOf(c, who).Attempt?
  {
    AttemptOf(RunFrom(cfg, c, more), who) == Attempt(AttemptOf(c, who).transport, AwaitingHello(true))
  }

  /** Some continuation gives the attempt its answer. */
  ghost predicate Answerable(cfg: Config, c: Conn, who: Who)
    requires AttemptOf(c, who).Attempt?
  {
    exists more :: AnsweredAfter(cfg, c, who, more)
  }

  // ---------- What is left to answer does answer ----------

  lemma AnsweredBy(cfg: Config, c: Conn, who: Who, e: Event)
    requires AttemptOf(c, who).Attempt?
    requires AttemptOf(Step(cfg, c, e), who) == Attempt(AttemptOf(c, who).transport, AwaitingHello(true))
    ensures Answerable(cfg, c, who)
  {
    RunSnoc(cfg, c, [], e);
    assert [] + [e] == [e];
    assert AnsweredAfter(cfg, c, who, [e]);
  }

  lemma AnswerableAfter(cfg: Config, c: Conn, who: Who, e: Event)
    requires AttemptOf(c, who).Attempt? && AttemptOf(Step(cfg, c, e), who) == AttemptOf(c, who)
    requires Answerable(cfg, Step(cfg, c, e), who)
    ensures Answerable(cfg, c, who)
  {
    var more :| AnsweredAfter(cfg, Step(cfg, c, e), who, more);
    RunAfterStep(cfg, c, e, more);
    assert AnsweredAfter(cfg, c, who, [e] + more);
  }

  lemma HelloAnswers(cfg: Config, c: Conn, who: Who)
    requires Waits(c, who) && c.helloOwner == who && c.reception.receiveLoop == Receiving && c.reception.version == 0
    ensures Answerable(cfg, c, who)
  {
    AnsweredBy(cfg, c, who, HelloArrived);
  }

  /** A loss outside the negotiation forgets the version and fails nobody. */
  lemma LossForgets(cfg: Config, c: Conn, who: Who)
    requires Waits(c, who) && c.helloOwner == who && c.reception.receiveLoop == Receiving && c.status != Authenticating
    ensures Answerable(cfg, c, who)
  {
    HelloAnswers(cfg, Step(cfg, c, Lost(c.transport)), who);
    AnswerableAfter(cfg, c, who, Lost(c.transport));
  }

  lemma TeardownForgets(cfg: Config, c: Conn, who: Who)
    requires Waits(c, who) && c.helloOwner == who && c.reception.receiveLoop == Receiving && c.status == Authenticating
    requires !c.closeRequested && AttemptOf(c, TheOther(who)).Attempt? && AttemptOf(c, TheOther(who)).stage.Closing?
    requires AttemptOf(c, TheOther(who)).transport != c.transport
    ensures Answerable(cfg, c, who)
  {
    HelloAnswers(cfg, Step(cfg, c, TransportClosed(TheOther(who))), who);
    AnswerableAfter(cfg, c, who, TransportClosed(TheOther(who)));
  }

  lemma RestoreForgets(cfg: Config, c: Conn, who: Who)
    requires Waits(c, who) && c.helloOwner == who && c.reception.receiveLoop == Receiving
    requires !c.closeRequested && who.ByConnect? && At(c, ByReconnect, Restoring)
    ensures Answerable(cfg, c, who)
  {
    LossForgets(cfg, Step(cfg, c, Restored), who);
    AnswerableAfter(cfg, c, who, Restored);
  }

  lemma OtherAnswers(cfg: Config, c: Conn, who: Who)
    requires Waits(c, who) && c.helloOwner == who && OtherCanAnswer(c, who)
    ensures Answerable(cfg, c, who)
  {
    AnsweredBy(cfg, c, who, Negotiated(TheOther(who)));
  }

  lemma CanBeAnsweredIsAnswerable(cfg: Config, c: Conn, who: Who)
    requires Reasonable(c) && Waits(c, who) && CanBeAnswered(c, who)
    ensures Answerable(cfg, c, who)
  {
    var other := AttemptOf(c, TheOther(who));
    if OtherCanAnswer(c, who) {
      OtherAnswers(cfg, c, who);
    } else if c.reception.version == 0 {
      HelloAnswers(cfg, c, who);
    } else if c.status != Authenticating {
      LossForgets(cfg, c, who);
    } else if other.stage.Closing? {
      TeardownForgets(cfg, c, who);
    } else {
      RestoreForgets(cfg, c, who);
    }
  }

  // ---------- Nothing else ever does ----------

  /** The attempt on this transport is over, is being torn down, or waits for what cannot come. */
  predicate Stranded(c: Conn, who: Who, own: Transport) {
    var attempt := AttemptOf(c, who);
    && own.Transport? && own.number < c.dials
    && (attempt.Attempt? && attempt.transport == own ==>
          attempt.stage.Closing? || (Waits(c, who) && !CanBeAnswered(c, who)))
  }

  lemma LeavingStrands(cfg: Config, c: Conn, who: Who, own: Transport)
    requires Stranded(c, who, own) && !Waits(c, who)
    ensures Stranded(LoseSession(cfg, c), who, own)
  {
  }

  lemma OwnLossStrands(cfg: Config, c: Conn, who: Who, own: Transport)
    requires Stranded(c, who, own) && Waits(c, who) && c.helloOwner == who && c.status == Authenticating
    ensures Stranded(LoseSession(cfg, c), who, own)
  {
    assert Waiting(c) == who && AttemptOf(LoseSession(cfg, c), who).stage.Closing?;
  }

  lemma IdleLossStrands(cfg: Config, c: Conn, who: Who, own: Transport)
    requires Stranded(c, who, own) && Waits(c, who) && c.helloOwner == who && c.status != Authenticating
    ensures Stranded(LoseSession(cfg, c), who, own)
  {
    assert AttemptOf(LoseSession(cfg, c), who) == AttemptOf(c, who);
  }

  lemma LosingStrands(cfg: Config, c: Conn, who: Who, own: Transport)
    requires Stranded(c, who, own) && Waits(c, who)
    ensures Stranded(LoseSession(cfg, c), who, own)
  {
    if c.helloOwner != who {
      assert LoseSession(cfg, c).helloOwner != who;
    } else if c.status == Authenticating {
      OwnLossStrands(cfg, c, who, own);
    } else {
      IdleLossStrands(cfg, c, who, own);
    }
  }

  lemma EndingStrands(cfg: Config, c: Conn, who: Who, own: Transport)
    requires Stranded(c, who, own)
    ensures Stranded(EndReceive(cfg, c), who, own)
  {
    var silent := c.(reception := c.reception.(receiveLoop := Idle));
    assert Stranded(silent, who, own);
    if !c.reception.abort && !c.closeRequested {
      if Waits(silent, who) {
        LosingStrands(cfg, silent, who, own);
      } else {
        LeavingStrands(cfg, silent, who, own);
      }
    }
  }

  lemma AnsweringStrands(c: Conn, who: Who, own: Transport)
    requires Stranded(c, who, own) && c.reception.receiveLoop == Receiving && c.reception.version == 0
    ensures Stranded(AnswerWaiting(c).(reception := c.reception.(version := WIRE_VERSION)), who, own)
  {
    if Waits(c, who) && AttemptOf(c, who).transport == own {
      assert c.helloOwner != who;
    }
  }

  lemma HearingStrands(cfg: Config, c: Conn, who: Who, own: Transport)
    requires Stranded(c, who, own) && c.reception.receiveLoop == Receiving
    ensures Stranded(HearHello(cfg, c), who, own)
  {
    var heard := Confirm(c);
    assert Stranded(heard, who, own);
    if c.reception.version != 0 {
      EndingStrands(cfg, heard, who, own);
    } else {
      AnsweringStrands(heard, who, own);
    }
  }

  lemma RejectingStrands(c: Conn, who: Who, own: Transport, waiting: Who, failure: Failure)
    requires Stranded(c, who, own) && (waiting.Nobody? || AttemptOf(c, waiting).Attempt?)
    ensures Stranded(RejectWaiting(c, waiting, failure), who, own)
  {
  }

  lemma RejectionStrands(c: Conn, who: Who, own: Transport, failure: Failure)
    requires Stranded(c, who, own)
    ensures var heard := Confirm(c).(authRejected := c.authRejected || failure == Auth);
            Stranded(RejectWaiting(heard, Waiting(c), failure), who, own)
  {
    var heard := Confirm(c).(authRejected := c.authRejected || failure == Auth);
    assert Stranded(heard, who, own);
    RejectingStrands(heard, who, own, Waiting(c), failure);
  }

  lemma FrameKeepsStranded(cfg: Config, c: Conn, who: Who, own: Transport, e: Event)
    requires Stranded(c, who, own) && Enabled(c, e) && (e.HelloArrived? || e.RejectArrived? || e.FrameArrived?)
    ensures Stranded(Step(cfg, c, e), who, own)
  {
    match e
    case HelloArrived => HearingStrands(cfg, c, who, own);
    case RejectArrived(failure) => RejectionStrands(c, who, own, failure);
    case _ =>
  }

  lemma LossKeepsStranded(cfg: Config, c: Conn, who: Who, own: Transport, e: Event)
    requires Stranded(c, who, own) && (e.Lost? || e.ReceiveEnds?)
    ensures Stranded(Step(cfg, c, e), who, own)
  {
    if e.ReceiveEnds? {
      EndingStrands(cfg, c, who, own);
    } else if Waits(c, who) {
      LosingStrands(cfg, c, who, own);
    } else {
      LeavingStrands(cfg, c, who, own);
    }
  }

  lemma ConnectKeepsStranded(cfg: Config, c: Conn, who: Who, own: Transport)
    requires Stranded(c, who, own)
    ensures Stranded(CallConnect(cfg, c), who, own)
  {
  }

  lemma CloseKeepsStranded(c: Conn, who: Who, own: Transport)
    requires Stranded(c, who, own)
    ensures Stranded(CallClose(c), who, own)
  {
    if !c.closePromise.Called? && !ReturnsEarly(c) {
      assert Stranded(Detached(c), who, own);
      RejectingStrands(Detached(c), who, own, Waiting(c), Other);
    }
  }

  lemma WakeKeepsStranded(cfg: Config, c: Conn, who: Who, own: Transport, e: Event)
    requires Stranded(c, who, own) && (e.SleepOver?)
    ensures Stranded(Step(cfg, c, e), who, own)
  {
  }

  lemma ConnectedStrands(c: Conn, who: Who, own: Transport, dialing: Who)
    requires Stranded(c, who, own) && At(c, dialing, Dialing)
    ensures Stranded(Connected(c, dialing), who, own)
  {
  }

  lemma DialedKeepsStranded(cfg: Config, c: Conn, who: Who, own: Transport, e: Event)
    requires Stranded(c, who, own) && Enabled(c, e) && e.Dialed?
    ensures Stranded(Step(cfg, c, e), who, own)
  {
    if c.closeRequested {
      RejectingStrands(c, who, own, e.who, Other);
    } else {
      ConnectedStrands(c, who, own, e.who);
      RejectingStrands(Connected(c, e.who), who, own, e.who, Auth);
    }
  }

  lemma FailureKeepsStranded(cfg: Config, c: Conn, who: Who, own: Transport, e: Event)
    requires Stranded(c, who, own) && Enabled(c, e) && (e.DialFailed? || e.HelloFailed?)
    ensures Stranded(Step(cfg, c, e), who, own)
  {
    RejectingStrands(c, who, own, e.who, e.failure);
  }

  lemma SuccessKeepsStranded(cfg: Config, c: Conn, who: Who, own: Transport, e: Event)
    requires Stranded(c, who, own) && Enabled(c, e) && e.Negotiated?
    ensures Stranded(Step(cfg, c, e), who, own)
  {
    if c.closeRequested || (e.who.ByConnect? && c.authRejected) {
      RejectingStrands(c, who, own, e.who, if c.closeRequested then Other else Auth);
    } else if e.who != who {
      assert Step(cfg, c, e).helloOwner != who || who.Nobody?;
    }
  }

  lemma RestoreKeepsStranded(cfg: Config, c: Conn, who: Who, own: Transport, e: Event)
    requires Stranded(c, who, own) && (e.Restored?)
    ensures Stranded(Step(cfg, c, e), who, own)
  {
  }

  lemma TakingDownStrands(c: Conn, who: Who, own: Transport, failure: Failure)
    requires Stranded(c, who, own)
    requires AttemptOf(c, TheOther(who)).Attempt? && AttemptOf(c, TheOther(who)).stage.Closing?
    ensures Stranded(TakeDown(c, AttemptOf(c, TheOther(who)).transport, failure), who, own)
  {
  }

  lemma OtherEndsStranded(c: Conn, n: Conn, who: Who, own: Transport)
    requires Stranded(c, who, own) && c.status != Authenticating && AttemptOf(n, who) == AttemptOf(c, who)
    requires n.dials == c.dials && n.helloOwner == c.helloOwner && n.reception == c.reception
    requires !AttemptOf(n, TheOther(who)).Attempt?
    ensures Stranded(n, who, own)
  {
  }

  lemma OtherTeardownKeepsStranded(cfg: Config, c: Conn, who: Who, own: Transport)
    requires Stranded(c, who, own) && !who.Nobody?
    requires AttemptOf(c, TheOther(who)).Attempt? && AttemptOf(c, TheOther(who)).stage.Closing?
    ensures Stranded(FinishCatch(cfg, c, TheOther(who)), who, own)
  {
    var other := AttemptOf(c, TheOther(who));
    var failure := FailureOf(c, other.stage);
    var down := TakeDown(c, other.transport, failure);
    TakingDownStrands(c, who, own, failure);
    if who.ByConnect? {
      OtherEndsStranded(down, AttemptFailed(cfg, down, c.loop.tries, failure), who, own);
    } else {
      OtherEndsStranded(down, down.(connecting := NoAttempt), who, own);
    }
  }

  lemma TeardownKeepsStranded(cfg: Config, c: Conn, who: Who, own: Transport, e: Event)
    requires Stranded(c, who, own) && Enabled(c, e) && e.TransportClosed?
    ensures Stranded(Step(cfg, c, e), who, own)
  {
    if !who.Nobody? && e.who != who {
      OtherTeardownKeepsStranded(cfg, c, who, own);
    } else {
      assert !AttemptOf(Step(cfg, c, e), who).Attempt?;
    }
  }

  lemma StepKeepsStranded(cfg: Config, c: Conn, who: Who, own: Transport, e: Event)
    requires Stranded(c, who, own)
    ensures Stranded(Step(cfg, c, e), who, own)
  {
    if Enabled(c, e) {
      match e
      case Connect => ConnectKeepsStranded(cfg, c, who, own);
      case Close => CloseKeepsStranded(c, who, own);
      case SleepOver => WakeKeepsStranded(cfg, c, who, own, e);
      case Dialed(_) => DialedKeepsStranded(cfg, c, who, own, e);
      case DialFailed(_, _) => FailureKeepsStranded(cfg, c, who, own, e);
      case HelloFailed(_, _) => FailureKeepsStranded(cfg, c, who, own, e);
      case Negotiated(_) => SuccessKeepsStranded(cfg, c, who, own, e);
      case Restored => RestoreKeepsStranded(cfg, c, who, own, e);
      case TransportClosed(_) => TeardownKeepsStranded(cfg, c, who, own, e);
      case Lost(_) => LossKeepsStranded(cfg, c, who, own, e);
      case ReceiveEnds => LossKeepsStranded(cfg, c, who, own, e);
      case _ => FrameKeepsStranded(cfg, c, who, own, e);
    }
  }

  lemma {:induction false} RunKeepsStranded(cfg: Config, c: Conn, who: Who, own: Transport, events: seq<Event>)
    requires Stranded(c, who, own)
    ensures Stranded(RunFrom(cfg, c, events), who, own)
  {
    if events != [] {
      RunKeepsStranded(cfg, c, who, own, events[..|events| - 1]);
      StepKeepsStranded(cfg, RunFrom(cfg, c, events[..|events| - 1]), who, own, events[|events| - 1]);
    }
  }

  lemma StrandedIsUnanswerable(cfg: Config, c: Conn, who: Who)
    requires Waits(c, who) && !CanBeAnswered(c, who)
    requires AttemptOf(c, who).transport.Transport? && AttemptOf(c, who).transport.number < c.dials
    ensures !Answerable(cfg, c, who)
  {
    forall more ensures !AnsweredAfter(cfg, c, who, more) {
      RunKeepsStranded(cfg, c, who, AttemptOf(c, who).transport, more);
    }
  }

  // ---------- In every run ----------

  /** Attempts run on transports that were created. */
  predicate Numbered(c: Conn) {
    && (c.connecting.Attempt? ==> c.connecting.transport.Transport? && c.connecting.transport.number < c.dials)
    && (c.loop.Opening? ==> c.loop.transport.Transport? && c.loop.transport.number < c.dials)
  }

  lemma StepNumbered(cfg: Config, c: Conn, e: Event)
    requires Numbered(c)
    ensures Numbered(Step(cfg, c, e))
  {
    if !Opens(cfg, c, e) {
      QuietBeginsNone(cfg, c, e);
    } else {
      OnlyTheseOpen(cfg, c, e);
    }
  }

  lemma QuietBeginsNone(cfg: Config, c: Conn, e: Event)
    requires !Opens(cfg, c, e)
    ensures NoneBegun(c, Step(cfg, c, e))
  {
  }

  lemma {:induction false} RunNumbered(cfg: Config, events: seq<Event>)
    ensures Numbered(RunFrom(cfg, INITIAL, events))
  {
    if events != [] {
      RunNumbered(cfg, events[..|events| - 1]);
      StepNumbered(cfg, RunFrom(cfg, INITIAL, events[..|events| - 1]), events[|events| - 1]);
    }
  }

  /**
   In every run, an attempt that waits for HELLO can still be answered if and only if the outcome in use is its
   own and either the transport in use is received from, with no earlier version in the way for good, or the
   other attempt has its answer and may yet succeed.
   */
  lemma {:induction false} AnswerableIff(cfg: Config, events: seq<Event>, who: Who)
    requires Waits(RunFrom(cfg, INITIAL, events), who)
    ensures Answerable(cfg, RunFrom(cfg, INITIAL, events), who) <==> CanBeAnswered(RunFrom(cfg, INITIAL, events), who)
  {
    var c := RunFrom(cfg, INITIAL, events);
    if CanBeAnswered(c, who) {
      RunReasonable(cfg, events);
      CanBeAnsweredIsAnswerable(cfg, c, who);
    } else {
      RunNumbered(cfg, events);
      StrandedIsUnanswerable(cfg, c, who);
    }
  }

  // ---------- The run that strands an attempt ----------

  /** The stale attempt of connect fails while the reconnect attempt waits. */
  const STRANDED: seq<Event> := ANSWERED_REDIALED + [HelloFailed(ByConnect, Other)]
  const UNHEARD: Conn :=
    BESIDE.(helloOwner := Nobody, reception := Reception(Receiving, true, 0),
            connecting := Attempt(Transport(0), Closing(Other, true, false)))

  /**
   Its catch drops the outcome and ends the receive loop of the newer attempt: a HELLO that still arrives is not
   seen, the loop then returns without reporting a loss, and the attempt is left to its timeout.
   */
  lemma StaleCatchStrands(cfg: Config)
    requires cfg.reconnectEnabled && !cfg.bounded
    ensures RunFrom(cfg, INITIAL, STRANDED) == UNHEARD
    ensures Waits(UNHEARD, ByReconnect) && !Answerable(cfg, UNHEARD, ByReconnect)
    ensures var c := RunFrom(cfg, INITIAL, STRANDED + [HelloArrived] + [ReceiveEnds]);
            Waits(c, ByReconnect) && c.status == Authenticating && c.reception == Reception(Idle, true, WIRE_VERSION)
  {
    var heard := UNHEARD.(sessionConfirmed := true, reception := Reception(Receiving, true, WIRE_VERSION));
    RedialedWaits(cfg);
    RunOn(cfg, ANSWERED_REDIALED, HelloFailed(ByConnect, Other), UNHEARD);
    StrandedIsUnanswerable(cfg, UNHEARD, ByReconnect);
    RunOn(cfg, STRANDED, HelloArrived, heard);
    RunOn(cfg, STRANDED + [HelloArrived], ReceiveEnds, heard.(reception := Reception(Idle, true, WIRE_VERSION)));
  }
}
