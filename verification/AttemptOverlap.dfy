/**
 What overlapping attempts can do to each other. A call of connect and the reconnect loop may each have an
 attempt under way, on transports of their own, but they share the state, the transport slot and the
 outcome that HELLO settles.
 */
module AttemptOverlap {
  import opened ConnectionModel

  // ---------- A teardown and the session of another attempt ----------

  /** An authenticated connection survives the end of a teardown if and only if no such teardown is under way. */
  lemma AuthenticatedSurvivesTeardownIff(cfg: Config, c: Conn, who: Who)
    requires c.status == Authenticated
    ensures Step(cfg, c, TransportClosed(who)).status == Authenticated <==>
            !(AttemptOf(c, who).Attempt? && AttemptOf(c, who).stage.Closing?)
  {
  }

  predicate Up(status: Status) {
    status != Closed && status != Disconnected
  }

  /** The state is marked down while the transport of another attempt stays in place. */
  predicate EndsAnother(c: Conn, down: Conn) {
    Up(c.status) && !Up(down.status) && c.transport.Transport? && down.transport == c.transport
  }

  /** A teardown ends a session that is not its own exactly when the connection is up on another transport. */
  lemma TeardownEndsAnotherIff(c: Conn, gone: Transport, failure: Failure)
    ensures EndsAnother(c, TakeDown(c, gone, failure)) <==> Up(c.status) && c.transport.Transport? && c.transport != gone
  {
  }

  /** A step that authenticates the connection. */
  predicate Authenticates(cfg: Config, c: Conn, e: Event) {
    c.status != Authenticated && Step(cfg, c, e).status == Authenticated
  }

  /** Only the end of a negotiation or of a restore authenticates. */
  lemma AuthenticatingStep(cfg: Config, c: Conn, e: Event)
    requires Authenticates(cfg, c, e)
    ensures e == Negotiated(ByConnect) || e == Restored
  {
    match e
    case TransportClosed(_) => TeardownIsDown(cfg, c, e);
    case Lost(_) => TeardownIsDown(cfg, c, e);
    case _ =>
  }

  lemma TeardownIsDown(cfg: Config, c: Conn, e: Event)
    requires Step(cfg, c, e) != c && (e.TransportClosed? || e.Lost?)
    ensures Step(cfg, c, e).status != Authenticated || c.status == Authenticated
  {
  }

  /** Only a call of connect and the end of a backoff begin an attempt, and then the connection is not authenticated. */
  lemma AuthenticatedStep(cfg: Config, c: Conn, e: Event)
    requires Step(cfg, c, e).status == Authenticated
    ensures NoneBegun(c, Step(cfg, c, e))
  {
  }

  /** At step k the connection was authenticated while this attempt was under way on the given transport. */
  ghost predicate AuthenticatedBeside(cfg: Config, events: seq<Event>, k: nat, who: Who, transport: Transport) {
    && k < |events|
    && var c := RunFrom(cfg, INITIAL, events[..k]);
      && (events[k] == Negotiated(ByConnect) || events[k] == Restored) && Authenticates(cfg, c, events[k])
      && AttemptOf(c, who).Attempt? && AttemptOf(c, who).transport == transport
  }

  /**
   Which step admits it: an attempt still under way in an authenticated connection was under way already
   when the negotiation or the restore of the other one authenticated it.
   */
  lemma {:induction false} StaleAttemptPredatesSession(cfg: Config, events: seq<Event>, who: Who)
    requires RunFrom(cfg, INITIAL, events).status == Authenticated && AttemptOf(RunFrom(cfg, INITIAL, events), who).Attempt?
    ensures exists k: nat :: AuthenticatedBeside(cfg, events, k, who, AttemptOf(RunFrom(cfg, INITIAL, events), who).transport)
  {
    var n := |events| - 1;
    var c := RunFrom(cfg, INITIAL, events[..n]);
    var transport := AttemptOf(RunFrom(cfg, INITIAL, events), who).transport;
    AuthenticatedStep(cfg, c, events[n]);
    if c.status == Authenticated {
      StaleAttemptPredatesSession(cfg, events[..n], who);
      var k: nat :| AuthenticatedBeside(cfg, events[..n], k, who, transport);
      assert events[..n][..k] == events[..k];
      assert AuthenticatedBeside(cfg, events, k, who, transport);
    } else {
      AuthenticatingStep(cfg, c, events[n]);
      assert AuthenticatedBeside(cfg, events, n, who, transport);
    }
  }

  /** What attempts and backoff do by themselves: no call of the client, no loss, no frame of the broker. */
  predicate OwnEvent(e: Event) {
    e.SleepOver? || e.Dialed? || e.DialFailed? || e.Negotiated? || e.HelloFailed? || e.Restored? || e.TransportClosed?
  }

  /** Nothing but a restore is under way. */
  predicate OnlyRestores(c: Conn) {
    !c.connecting.Attempt? && (c.loop.Opening? ==> c.loop.stage.Restoring?) && !c.loop.Sleeping?
  }

  lemma OwnStepKeeps(cfg: Config, c: Conn, e: Event)
    requires c.status == Authenticated && OnlyRestores(c) && !c.closeRequested && OwnEvent(e)
    ensures var n := Step(cfg, c, e); n.status == Authenticated && OnlyRestores(n) && !n.closeRequested
  {
  }

  lemma {:induction false} OwnRunKeeps(cfg: Config, c: Conn, events: seq<Event>)
    requires c.status == Authenticated && OnlyRestores(c) && !c.closeRequested
    requires forall k :: 0 <= k < |events| ==> OwnEvent(events[k])
    ensures var n := RunFrom(cfg, c, events); n.status == Authenticated && OnlyRestores(n) && !n.closeRequested
  {
    if events != [] {
      OwnRunKeeps(cfg, c, events[..|events| - 1]);
      OwnStepKeeps(cfg, RunFrom(cfg, c, events[..|events| - 1]), events[|events| - 1]);
    }
  }

  /** What is under way can end the session by itself. */
  ghost predicate Exposed(cfg: Config, c: Conn) {
    exists events :: (forall k :: 0 <= k < |events| ==> OwnEvent(events[k])) && RunFrom(cfg, c, events).status != Authenticated
  }

  /** A stale attempt ends the session: by dialing on, or through its teardown. */
  lemma AttemptExposes(cfg: Config, c: Conn, who: Who)
    requires c.status == Authenticated && !c.closeRequested && AttemptOf(c, who).Attempt? && !AttemptOf(c, who).stage.Restoring?
    ensures Exposed(cfg, c)
  {
    match AttemptOf(c, who).stage
    case Dialing => EndsInOne(cfg, c, Dialed(who));
    case Closing(_, _, _) =>
      AuthenticatedSurvivesTeardownIff(cfg, c, who);
      EndsInOne(cfg, c, TransportClosed(who));
    case AwaitingHello(_) => WaitingExposes(cfg, c, who);
  }

  lemma WaitingExposes(cfg: Config, c: Conn, who: Who)
    requires c.status == Authenticated && AttemptOf(c, who).Attempt? && AttemptOf(c, who).stage.AwaitingHello?
    ensures Exposed(cfg, c)
  {
    var failed := EnterCatch(c, who, Other);
    assert Step(cfg, c, HelloFailed(who, Other)) == failed;
    AuthenticatedSurvivesTeardownIff(cfg, failed, who);
    EndsInTwo(cfg, c, HelloFailed(who, Other), TransportClosed(who));
  }

  lemma EndsInOne(cfg: Config, c: Conn, e: Event)
    requires OwnEvent(e) && Step(cfg, c, e).status != Authenticated
    ensures Exposed(cfg, c)
  {
    RunSnoc(cfg, c, [], e);
    assert [] + [e] == [e];
  }

  lemma EndsInTwo(cfg: Config, c: Conn, e: Event, f: Event)
    requires OwnEvent(e) && OwnEvent(f) && Step(cfg, Step(cfg, c, e), f).status != Authenticated
    ensures Exposed(cfg, c)
  {
    RunSnoc(cfg, c, [], e);
    RunSnoc(cfg, c, [e], f);
    assert [] + [e] == [e] && [e] + [f] == [e, f];
  }

  /**
   In every run, what is under way can end an authenticated session by itself if and only if a call of
   connect, a sleeping reconnect loop or an attempt that does not restore is still under way.
   */
  lemma {:induction false} SessionExposedIff(cfg: Config, events: seq<Event>)
    requires RunFrom(cfg, INITIAL, events).status == Authenticated
    ensures Exposed(cfg, RunFrom(cfg, INITIAL, events)) <==> !OnlyRestores(RunFrom(cfg, INITIAL, events))
  {
    var c := RunFrom(cfg, INITIAL, events);
    RunReasonable(cfg, events);
    if c.connecting.Attempt? {
      AttemptExposes(cfg, c, ByConnect);
    } else if c.loop.Sleeping? {
      EndsInOne(cfg, c, SleepOver);
    } else if c.loop.Opening? && !c.loop.stage.Restoring? {
      AttemptExposes(cfg, c, ByReconnect);
    } else {
      forall more | forall k :: 0 <= k < |more| ==> OwnEvent(more[k]) ensures RunFrom(cfg, c, more).status == Authenticated {
        OwnRunKeeps(cfg, c, more);
      }
    }
  }

  // ---------- The frame that confirms a session ----------

  /** An attempt past HELLO, like an authenticated session, has heard from the broker on the current transport. */
  predicate Confirmed(c: Conn) {
    c.status == Authenticated || Answered(c) ==> c.sessionConfirmed
  }

  /** The sleeping reconnect loop dials although another attempt has its answer already. */
  predicate DialsOverAnswered(c: Conn, e: Event) {
    e.SleepOver? && c.loop.Sleeping? && !c.closeRequested && Answered(c)
  }

  /** A frame comes from the transport in use. */
  predicate Hears(c: Conn, e: Event) {
    Enabled(c, e) && (e.HelloArrived? || e.FrameArrived? || e.RejectArrived?)
  }

  predicate Opens(cfg: Config, c: Conn, e: Event) {
    Step(cfg, c, e).dials != c.dials
  }

  lemma LossConfirmed(cfg: Config, c: Conn, e: Event)
    requires Confirmed(c) && (e.TransportClosed? || e.Lost? || e.ReceiveEnds? || e.Close?)
    ensures Confirmed(Step(cfg, c, e))
  {
  }

  lemma FailureConfirmed(cfg: Config, c: Conn, e: Event)
    requires Confirmed(c) && (e.DialFailed? || e.HelloFailed?)
    ensures Confirmed(Step(cfg, c, e))
  {
  }

  lemma SuccessConfirmed(cfg: Config, c: Conn, e: Event)
    requires Confirmed(c) && (e.Dialed? || e.Negotiated? || e.Restored?)
    ensures Confirmed(Step(cfg, c, e))
  {
  }

  lemma FrameConfirms(cfg: Config, c: Conn, e: Event)
    requires Hears(c, e)
    ensures Step(cfg, c, e).sessionConfirmed && !Opens(cfg, c, e)
  {
  }

  /** Whatever went before, a new transport is dialed unconfirmed only over an attempt that has its answer. */
  lemma OpeningConfirmedIff(cfg: Config, c: Conn, e: Event)
    requires Opens(cfg, c, e)
    ensures !Step(cfg, c, e).sessionConfirmed
    ensures Confirmed(Step(cfg, c, e)) <==> !DialsOverAnswered(c, e)
  {
    OnlyTheseOpen(cfg, c, e);
  }

  lemma OnlyTheseOpen(cfg: Config, c: Conn, e: Event)
    requires Opens(cfg, c, e)
    ensures e.Connect? || (e.SleepOver? && c.loop.Sleeping? && !c.closeRequested)
  {
  }

  lemma QuietStepKeeps(cfg: Config, c: Conn, e: Event)
    requires !Opens(cfg, c, e) && !Hears(c, e)
    ensures Step(cfg, c, e).sessionConfirmed == c.sessionConfirmed
  {
    if e.TransportClosed? || e.Lost? || e.ReceiveEnds? || e.Close? {
      LossConfirmsNone(cfg, c, e);
    }
  }

  lemma LossConfirmsNone(cfg: Config, c: Conn, e: Event)
    requires e.TransportClosed? || e.Lost? || e.ReceiveEnds? || e.Close?
    ensures Step(cfg, c, e).sessionConfirmed == c.sessionConfirmed
  {
  }

  /** One step leaves a confirmed state unconfirmed exactly when it dials over an answered attempt. */
  lemma StepConfirmedIff(cfg: Config, c: Conn, e: Event)
    requires Confirmed(c)
    ensures Confirmed(Step(cfg, c, e)) <==> !DialsOverAnswered(c, e)
  {
    match e
    case TransportClosed(_) => LossConfirmed(cfg, c, e);
    case Lost(_) => LossConfirmed(cfg, c, e);
    case ReceiveEnds => LossConfirmed(cfg, c, e);
    case Close => LossConfirmed(cfg, c, e);
    case DialFailed(_, _) => FailureConfirmed(cfg, c, e);
    case HelloFailed(_, _) => FailureConfirmed(cfg, c, e);
    case Dialed(_) => SuccessConfirmed(cfg, c, e);
    case Negotiated(_) => SuccessConfirmed(cfg, c, e);
    case Restored => SuccessConfirmed(cfg, c, e);
    case _ =>
      if Hears(c, e) {
        FrameConfirms(cfg, c, e);
      }
  }

  ghost predicate AlwaysConfirmed(cfg: Config, events: seq<Event>) {
    forall k :: 0 <= k <= |events| ==> Confirmed(RunFrom(cfg, INITIAL, events[..k]))
  }

  ghost predicate NeverDialsOverAnswered(cfg: Config, events: seq<Event>) {
    forall k :: 0 <= k < |events| ==> !DialsOverAnswered(RunFrom(cfg, INITIAL, events[..k]), events[k])
  }

  lemma {:induction false} StepAt(cfg: Config, events: seq<Event>, k: nat)
    requires k < |events|
    ensures RunFrom(cfg, INITIAL, events[..k + 1]) == Step(cfg, RunFrom(cfg, INITIAL, events[..k]), events[k])
  {
    RunSnoc(cfg, INITIAL, events[..k], events[k]);
    assert events[..k + 1] == events[..k] + [events[k]];
  }

  lemma {:induction false} StaysConfirmed(cfg: Config, events: seq<Event>, k: nat)
    requires NeverDialsOverAnswered(cfg, events) && k <= |events|
    ensures Confirmed(RunFrom(cfg, INITIAL, events[..k]))
  {
    if k > 0 {
      StaysConfirmed(cfg, events, k - 1);
      assert !DialsOverAnswered(RunFrom(cfg, INITIAL, events[..k - 1]), events[k - 1]);
      StepAt(cfg, events, k - 1);
      StepConfirmedIff(cfg, RunFrom(cfg, INITIAL, events[..k - 1]), events[k - 1]);
    }
  }

  lemma {:induction false} DoesNotDialOver(cfg: Config, events: seq<Event>, k: nat)
    requires AlwaysConfirmed(cfg, events) && k < |events|
    ensures !DialsOverAnswered(RunFrom(cfg, INITIAL, events[..k]), events[k])
  {
    StepAt(cfg, events, k);
    StepConfirmedIff(cfg, RunFrom(cfg, INITIAL, events[..k]), events[k]);
  }

  /** A run is confirmed throughout if and only if the reconnect loop never dials over an answered attempt. */
  lemma {:induction false} AlwaysConfirmedIff(cfg: Config, events: seq<Event>)
    ensures AlwaysConfirmed(cfg, events) <==> NeverDialsOverAnswered(cfg, events)
  {
    if AlwaysConfirmed(cfg, events) {
      forall k | 0 <= k < |events| ensures !DialsOverAnswered(RunFrom(cfg, INITIAL, events[..k]), events[k]) {
        DoesNotDialOver(cfg, events, k);
      }
    }
    if NeverDialsOverAnswered(cfg, events) {
      forall k | 0 <= k <= |events| ensures Confirmed(RunFrom(cfg, INITIAL, events[..k])) {
        StaysConfirmed(cfg, events, k);
      }
    }
  }

  /** Between step k and the end no transport is dialed. */
  ghost predicate NoneOpened(cfg: Config, events: seq<Event>, k: nat) {
    forall j :: k < j < |events| ==> !Opens(cfg, RunFrom(cfg, INITIAL, events[..j]), events[j])
  }

  /** Between step k and the end no frame comes. */
  ghost predicate NoneHeard(cfg: Config, events: seq<Event>, k: nat) {
    forall j :: k < j < |events| ==> !Hears(RunFrom(cfg, INITIAL, events[..j]), events[j])
  }

  /** Step k is the last to dial, and it dials over an answered attempt; nothing was heard since. */
  ghost predicate DialedOverAnswered(cfg: Config, events: seq<Event>, k: nat) {
    && k < |events| && DialsOverAnswered(RunFrom(cfg, INITIAL, events[..k]), events[k])
    && NoneOpened(cfg, events, k) && NoneHeard(cfg, events, k)
  }

  /** Step k hears a frame, and it comes from the transport dialed last. */
  ghost predicate HeardAt(cfg: Config, events: seq<Event>, k: nat) {
    && k < |events| && Hears(RunFrom(cfg, INITIAL, events[..k]), events[k]) && NoneOpened(cfg, events, k)
  }

  lemma {:induction false} StillUnheard(cfg: Config, events: seq<Event>, k: nat)
    requires k < |events| && !RunFrom(cfg, INITIAL, events[..k + 1]).sessionConfirmed
    requires NoneOpened(cfg, events, k) && NoneHeard(cfg, events, k)
    ensures !RunFrom(cfg, INITIAL, events).sessionConfirmed
  {
    var n := |events| - 1;
    if k < n {
      assert forall j :: 0 <= j <= n ==> events[..n][..j] == events[..j];
      StillUnheard(cfg, events[..n], k);
      QuietStepKeeps(cfg, RunFrom(cfg, INITIAL, events[..n]), events[n]);
    } else {
      assert events[..k + 1] == events;
    }
  }

  lemma UnconfirmedStep(cfg: Config, c: Conn, e: Event)
    requires !Confirmed(Step(cfg, c, e)) && !DialsOverAnswered(c, e)
    ensures !Confirmed(c) && !Opens(cfg, c, e) && !Hears(c, e)
  {
    if Confirmed(c) {
      StepConfirmedIff(cfg, c, e);
    }
    if Opens(cfg, c, e) {
      OpeningConfirmedIff(cfg, c, e);
    }
    if Hears(c, e) {
      FrameConfirms(cfg, c, e);
    }
  }

  lemma {:induction false} NoneOpenedSnoc(cfg: Config, events: seq<Event>, n: nat, k: nat)
    requires |events| == n + 1 && NoneOpened(cfg, events[..n], k) && !Opens(cfg, RunFrom(cfg, INITIAL, events[..n]), events[n])
    ensures NoneOpened(cfg, events, k)
  {
    forall j | k < j < |events| ensures !Opens(cfg, RunFrom(cfg, INITIAL, events[..j]), events[j]) {
      if j < n {
        assert events[..n][..j] == events[..j] && events[..n][j] == events[j];
      }
    }
  }

  lemma {:induction false} NoneHeardSnoc(cfg: Config, events: seq<Event>, n: nat, k: nat)
    requires |events| == n + 1 && NoneHeard(cfg, events[..n], k) && !Hears(RunFrom(cfg, INITIAL, events[..n]), events[n])
    ensures NoneHeard(cfg, events, k)
  {
    forall j | k < j < |events| ensures !Hears(RunFrom(cfg, INITIAL, events[..j]), events[j]) {
      if j < n {
        assert events[..n][..j] == events[..j] && events[..n][j] == events[j];
      }
    }
  }

  lemma {:induction false} UnconfirmedOrigin(cfg: Config, events: seq<Event>) returns (k: nat)
    requires !Confirmed(RunFrom(cfg, INITIAL, events))
    ensures DialedOverAnswered(cfg, events, k)
  {
    var n := |events| - 1;
    if DialsOverAnswered(RunFrom(cfg, INITIAL, events[..n]), events[n]) {
      k := n;
    } else {
      UnconfirmedStep(cfg, RunFrom(cfg, INITIAL, events[..n]), events[n]);
      k := UnconfirmedOrigin(cfg, events[..n]);
      assert events[..n][..k] == events[..k];
      NoneOpenedSnoc(cfg, events, n, k);
      NoneHeardSnoc(cfg, events, n, k);
    }
  }

  /**
   Which sessions are authenticated with nothing heard on their transport: exactly those whose transport the
   reconnect loop dialed over an answered attempt and from which no frame came since.
   */
  lemma {:induction false} SessionUnconfirmedIff(cfg: Config, events: seq<Event>)
    requires RunFrom(cfg, INITIAL, events).status == Authenticated
    ensures !RunFrom(cfg, INITIAL, events).sessionConfirmed <==> exists k: nat :: DialedOverAnswered(cfg, events, k)
  {
    if !RunFrom(cfg, INITIAL, events).sessionConfirmed {
      var k := UnconfirmedOrigin(cfg, events);
    }
    forall k: nat | DialedOverAnswered(cfg, events, k) ensures !RunFrom(cfg, INITIAL, events).sessionConfirmed {
      RunSnoc(cfg, INITIAL, events[..k], events[k]);
      assert events[..k] + [events[k]] == events[..k + 1];
      StillUnheard(cfg, events, k);
    }
  }

  lemma {:induction false} HeardConfirms(cfg: Config, events: seq<Event>, k: nat)
    requires HeardAt(cfg, events, k)
    ensures RunFrom(cfg, INITIAL, events).sessionConfirmed
  {
    var n := |events| - 1;
    var c, e := RunFrom(cfg, INITIAL, events[..n]), events[n];
    assert forall j :: 0 <= j <= n ==> events[..n][..j] == events[..j];
    if Hears(c, e) {
      FrameConfirms(cfg, c, e);
    } else {
      HeardConfirms(cfg, events[..n], k);
      QuietStepKeeps(cfg, c, e);
    }
  }

  /** What the flag means, in every run: a frame came since the last transport was dialed. */
  lemma {:induction false} ConfirmedMeansHeard(cfg: Config, events: seq<Event>)
    ensures RunFrom(cfg, INITIAL, events).sessionConfirmed <==> exists k: nat :: HeardAt(cfg, events, k)
  {
    forall k: nat | HeardAt(cfg, events, k) ensures RunFrom(cfg, INITIAL, events).sessionConfirmed {
      HeardConfirms(cfg, events, k);
    }
    if RunFrom(cfg, INITIAL, events).sessionConfirmed {
      var k := HeardOrigin(cfg, events);
    }
  }

  lemma {:induction false} HeardOrigin(cfg: Config, events: seq<Event>) returns (k: nat)
    requires RunFrom(cfg, INITIAL, events).sessionConfirmed
    ensures HeardAt(cfg, events, k)
  {
    var n := |events| - 1;
    var c, e := RunFrom(cfg, INITIAL, events[..n]), events[n];
    if Hears(c, e) {
      k := n;
    } else {
      if Opens(cfg, c, e) {
        OpeningConfirmedIff(cfg, c, e);
      }
      QuietStepKeeps(cfg, c, e);
      k := HeardOrigin(cfg, events[..n]);
      assert events[..n][..k] == events[..k];
      NoneOpenedSnoc(cfg, events, n, k);
    }
  }

  /** The first call of connect waits for HELLO. */
  const DIALED: seq<Event> := [Connect] + [Dialed(ByConnect)]
  const WAITING: Conn :=
    INITIAL.(status := Authenticating, transport := Transport(0), dials := 1, helloOwner := ByConnect,
             reception := Reception(Receiving, false, 0), connecting := Attempt(Transport(0), AwaitingHello(false)))

  lemma DialedWaits(cfg: Config)
    ensures RunFrom(cfg, INITIAL, DIALED) == WAITING
  {
    FirstDialWaits(cfg);
    RunSnoc(cfg, INITIAL, [], Connect);
    RunSnoc(cfg, INITIAL, [Connect], Dialed(ByConnect));
    assert [] + [Connect] == [Connect];
  }

  lemma RunOn(cfg: Config, events: seq<Event>, e: Event, n: Conn)
    requires Step(cfg, RunFrom(cfg, INITIAL, events), e) == n
    ensures RunFrom(cfg, INITIAL, events + [e]) == n
  {
    RunSnoc(cfg, INITIAL, events, e);
  }

  /** Answered by HELLO but still sending, it is lost, and the reconnect loop dials. */
  const ANSWERED: seq<Event> := DIALED + [HelloArrived]
  const ANSWERED_LOST: seq<Event> := ANSWERED + [Lost(Transport(0))]
  const ANSWERED_REDIALED: seq<Event> := ANSWERED_LOST + [SleepOver] + [Dialed(ByReconnect)]
  const BESIDE: Conn :=
    INITIAL.(status := Authenticating, transport := Transport(1), dials := 2, hasEstablished := true,
             helloOwner := ByReconnect, reception := Reception(Receiving, false, 0),
             connecting := Attempt(Transport(0), AwaitingHello(true)),
             loop := Opening(1, Transport(1), AwaitingHello(false)))

  lemma RedialedWaits(cfg: Config)
    requires cfg.reconnectEnabled && !cfg.bounded
    ensures RunFrom(cfg, INITIAL, ANSWERED_REDIALED) == BESIDE
  {
    var answered := WAITING.(sessionConfirmed := true, hasEstablished := true, reception := Reception(Receiving, false, 3),
                             connecting := Attempt(Transport(0), AwaitingHello(true)));
    var lost := answered.(status := Reconnecting, reception := Reception(Receiving, false, 0), loop := Sleeping(1));
    var dialing := BESIDE.(status := Reconnecting, helloOwner := lost.helloOwner,
                           reception := Reception(Idle, false, 0), loop := Opening(1, Transport(1), Dialing));
    DialedWaits(cfg);
    RunOn(cfg, DIALED, HelloArrived, answered);
    RunOn(cfg, ANSWERED, Lost(Transport(0)), lost);
    RunOn(cfg, ANSWERED_LOST, SleepOver, dialing);
    RunOn(cfg, ANSWERED_LOST + [SleepOver], Dialed(ByReconnect), BESIDE);
  }

  /**
   A run that dials over an answered attempt: the send of the first attempt completes, which authenticates
   the connection on a transport from which nothing came and answers the HELLO the newer attempt still waits for.
   */
  lemma StaleSuccessIsUnconfirmed(cfg: Config)
    requires cfg.reconnectEnabled && !cfg.bounded
    ensures var c := RunFrom(cfg, INITIAL, ANSWERED_REDIALED + [Negotiated(ByConnect)]);
            && c.status == Authenticated && !c.sessionConfirmed && !c.closeRequested && c.transport == Transport(1)
            && c.loop == Opening(1, Transport(1), AwaitingHello(true))
  {
    RedialedWaits(cfg);
    RunOn(cfg, ANSWERED_REDIALED, Negotiated(ByConnect),
          BESIDE.(status := Authenticated, helloOwner := Nobody, connecting := NoAttempt,
                  loop := Opening(1, Transport(1), AwaitingHello(true))));
  }

  // ---------- The failing run ----------

  /** A connect whose broker answered with a frame before HELLO, then lost it and closes its transport slowly. */
  const HEARD: seq<Event> := DIALED + [FrameArrived]
  const SLOW_TEARDOWN: seq<Event> := HEARD + [Lost(Transport(0))]
  const SLEEPING: Conn :=
    INITIAL.(status := Reconnecting, transport := Transport(0), dials := 1, sessionConfirmed := true, hasEstablished := true,
             reception := Reception(Receiving, true, 0),
             connecting := Attempt(Transport(0), Closing(Other, false, false)), loop := Sleeping(1))

  /** Meanwhile the reconnect loop opens a session. */
  const SLOW_REDIALED: seq<Event> := SLOW_TEARDOWN + [SleepOver] + [Dialed(ByReconnect)]
  const SLOW_RECONNECTED: seq<Event> := SLOW_REDIALED + [HelloArrived] + [Negotiated(ByReconnect)] + [Restored]
  const RECONNECTED: Conn :=
    SLEEPING.(status := Authenticated, transport := Transport(1), dials := 2, reception := Reception(Receiving, false, 3),
              loop := NoLoop)

  lemma SlowTeardownSleeps(cfg: Config)
    requires cfg.reconnectEnabled && !cfg.bounded
    ensures RunFrom(cfg, INITIAL, SLOW_TEARDOWN) == SLEEPING
  {
    DialedWaits(cfg);
    RunOn(cfg, DIALED, FrameArrived, WAITING.(sessionConfirmed := true, hasEstablished := true));
    RunOn(cfg, HEARD, Lost(Transport(0)), SLEEPING);
  }

  lemma RedialedBeside(cfg: Config)
    requires cfg.reconnectEnabled && !cfg.bounded
    ensures RunFrom(cfg, INITIAL, SLOW_REDIALED) ==
            SLEEPING.(status := Authenticating, transport := Transport(1), dials := 2, sessionConfirmed := false,
                      helloOwner := ByReconnect, reception := Reception(Receiving, false, 0),
                      loop := Opening(1, Transport(1), AwaitingHello(false)))
  {
    var dialing := SLEEPING.(transport := Transport(1), dials := 2, sessionConfirmed := false,
                            reception := Reception(Idle, false, 0),
                            loop := Opening(1, Transport(1), Dialing));
    SlowTeardownSleeps(cfg);
    RunOn(cfg, SLOW_TEARDOWN, SleepOver, dialing);
    RunOn(cfg, SLOW_TEARDOWN + [SleepOver], Dialed(ByReconnect),
          dialing.(status := Authenticating, helloOwner := ByReconnect, reception := Reception(Receiving, false, 0),
                   loop := Opening(1, Transport(1), AwaitingHello(false))));
  }

  lemma ReconnectSucceeds(cfg: Config)
    requires cfg.reconnectEnabled && !cfg.bounded
    ensures RunFrom(cfg, INITIAL, SLOW_RECONNECTED) == RECONNECTED
  {
    var up := RECONNECTED.(status := Authenticating);
    RedialedBeside(cfg);
    RunOn(cfg, SLOW_REDIALED, HelloArrived, up.(helloOwner := ByReconnect, loop := Opening(1, Transport(1), AwaitingHello(true))));
    RunOn(cfg, SLOW_REDIALED + [HelloArrived], Negotiated(ByReconnect),
          up.(restoreActive := true, loop := Opening(1, Transport(1), Restoring)));
    RunOn(cfg, SLOW_REDIALED + [HelloArrived] + [Negotiated(ByReconnect)], Restored, RECONNECTED);
  }

  /**
   The teardown of a stale attempt marks the session of a newer one disconnected: nothing is under way
   any more, the new transport still stands, and a call to connect only waits.
   */
  lemma StaleTeardownUndoesReconnect(cfg: Config)
    requires cfg.reconnectEnabled && !cfg.bounded
    ensures RunFrom(cfg, INITIAL, SLOW_RECONNECTED).status == Authenticated
    ensures var c := RunFrom(cfg, INITIAL, SLOW_RECONNECTED + [TransportClosed(ByConnect)]);
            && c.status == Disconnected && c.transport == Transport(1) && c.connecting == NoAttempt && c.loop == NoLoop
            && Step(cfg, c, Connect) == c
  {
    var c := RECONNECTED.(status := Disconnected, reception := Reception(Receiving, false, 0), connecting := NoAttempt);
    ReconnectSucceeds(cfg);
    RunOn(cfg, SLOW_RECONNECTED, TransportClosed(ByConnect), c);
    ConnectOnlyWaits(cfg, c);
  }

  /** A call of connect waits for a reconnect that is enabled but not under way. */
  lemma ConnectOnlyWaits(cfg: Config, c: Conn)
    requires c.status == Disconnected && CanWaitForReconnect(cfg, c)
    ensures Step(cfg, c, Connect) == c
  {
  }
}
