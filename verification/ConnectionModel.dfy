/**
 The life of a connection: connect, the HELLO negotiation, the receive loop, connection loss, the
 reconnect loop and close. A step is what runs between two awaits, together with the continuations of
 a promise it settles; a run interleaves the steps of all these activities in any order.
 */
module ConnectionModel {

  datatype Status = Disconnected | Connecting | Authenticating | Authenticated | Reconnecting | Closed

  /** Why an attempt to open a session failed. */
  datatype Failure = Abort | Auth | Version | Other

  /** Where an attempt is suspended; `Closing` is the teardown of a failed one. */
  datatype Stage =
    | Dialing
    | AwaitingHello(answered: bool)
    | Restoring
    | Closing(failure: Failure, unconfirmed: bool, restoring: bool)

  datatype Transport = NoTransport | Transport(number: nat)

  datatype Attempt = NoAttempt | Attempt(transport: Transport, stage: Stage)

  /** On whose behalf an attempt is made: a call of connect or the reconnect loop; there is one of each at most. */
  datatype Who = ByConnect | ByReconnect | Nobody

  datatype Loop = NoLoop | Sleeping(tries: nat) | Opening(tries: nat, transport: Transport, stage: Stage)

  datatype Config = Config(reconnectEnabled: bool, bounded: bool, maxAttempts: nat)

  datatype ReceiveLoop = Idle | Receiving

  /** What HELLO negotiates; any other version is refused. */
  const WIRE_VERSION: nat := 3

  /** The receive loop of the transport in use, the flag that ends it, and the version the multiplexer holds, if not 0. */
  datatype Reception = Reception(receiveLoop: ReceiveLoop, abort: bool, version: nat)

  /** The memoized promise of close. */
  datatype ClosePromise = NotCalled | Called

  /** `dials` counts transports, `helloOwner` is the attempt whose wait for HELLO the outcome in use ends. */
  datatype Conn = Conn(
    status: Status, transport: Transport, dials: nat, closePromise: ClosePromise, closeRequested: bool,
    authRejected: bool, sessionConfirmed: bool, hasEstablished: bool, exhausted: bool, restoreActive: bool,
    reception: Reception, helloOwner: Who, connecting: Attempt, loop: Loop)

  /** The frames of one message are steps of their own, and so is the return of the receive loop. */
  datatype Event =
    | Connect
    | Close
    | Dialed(who: Who)
    | DialFailed(who: Who, failure: Failure)
    | HelloArrived
    | FrameArrived
    | RejectArrived(failure: Failure)
    | ReceiveEnds
    | Negotiated(who: Who)
    | HelloFailed(who: Who, failure: Failure)
    | Restored
    | TransportClosed(who: Who)
    | SleepOver
    | Lost(failed: Transport)

  const INITIAL := Conn(Disconnected, NoTransport, 0, NotCalled, false, false, false, false, false, false,
                       Reception(Idle, false, 0), Nobody, NoAttempt, NoLoop)

  function AttemptOf(c: Conn, who: Who): Attempt {
    match who
    case ByConnect => c.connecting
    case ByReconnect => if c.loop.Opening? then Attempt(c.loop.transport, c.loop.stage) else NoAttempt
    case Nobody => NoAttempt
  }

  predicate At(c: Conn, who: Who, stage: Stage) {
    AttemptOf(c, who).Attempt? && AttemptOf(c, who).stage == stage
  }

  /** Only a call of close touches what close remembers. */
  predicate SameClose(c: Conn, n: Conn) {
    n.closePromise == c.closePromise && n.closeRequested == c.closeRequested
  }

  /** The same attempts are under way, on the same transports. */
  predicate SameAttempts(c: Conn, n: Conn) {
    && (n.connecting.Attempt? <==> c.connecting.Attempt?) && (n.loop.Opening? <==> c.loop.Opening?)
    && (c.connecting.Attempt? ==> n.connecting.transport == c.connecting.transport)
    && (c.loop.Opening? ==> n.loop.transport == c.loop.transport)
  }

  /** The attempts of n were under way in c already, on the same transports. */
  predicate NoneBegun(c: Conn, n: Conn) {
    && (n.connecting.Attempt? ==> c.connecting.Attempt? && n.connecting.transport == c.connecting.transport)
    && (n.loop.Opening? ==> c.loop.Opening? && n.loop.transport == c.loop.transport)
  }

  /** Some attempt has its answer to HELLO. */
  predicate Answered(c: Conn) {
    || (c.connecting.Attempt? && (c.connecting.stage == AwaitingHello(true) || c.connecting.stage.Restoring?))
    || (c.loop.Opening? && (c.loop.stage == AwaitingHello(true) || c.loop.stage.Restoring?))
  }

  predicate NoneFurther(c: Conn, n: Conn) {
    n.sessionConfirmed == c.sessionConfirmed && (Answered(n) ==> Answered(c))
  }

  /** No call of connect begins to restore. */
  predicate SameRestore(c: Conn, n: Conn) {
    At(n, ByConnect, Restoring) ==> At(c, ByConnect, Restoring)
  }

  function Tries(loop: Loop): nat {
    if loop.NoLoop? then 0 else loop.tries
  }

  function SetStage(c: Conn, who: Who, stage: Stage): (r: Conn)
    requires AttemptOf(c, who).Attempt?
    ensures SameClose(c, r) && r.status == c.status && r.transport == c.transport && r.dials == c.dials && r.exhausted == c.exhausted
    ensures Tries(r.loop) == Tries(c.loop) && SameAttempts(c, r)
    ensures r.sessionConfirmed == c.sessionConfirmed
    ensures stage.Closing? ==> NoneFurther(c, r)
    ensures !stage.Restoring? ==> SameRestore(c, r)
  {
    if who.ByConnect? then c.(connecting := c.connecting.(stage := stage))
    else c.(loop := c.loop.(stage := stage))
  }

  // ---------- Opening a session ----------

  function BeginOpen(c: Conn, who: Who): Conn
    requires who.ByConnect? || (who.ByReconnect? && c.loop.Sleeping?)
  {
    var transport := Transport(c.dials);
    var begun := c.(transport := transport, dials := c.dials + 1, sessionConfirmed := false,
                     reception := c.reception.(receiveLoop := Idle, abort := false));
    if who.ByConnect? then
      begun.(hasEstablished := false, status := Connecting, connecting := Attempt(transport, Dialing))
    else
      begun.(status := Reconnecting, loop := Opening(c.loop.tries, transport, Dialing))
  }

  predicate Unconfirmed(c: Conn) {
    !c.sessionConfirmed && c.status == Authenticating
  }

  /**
   The catch block up to its await: what it must remember, and the transport it starts to close. The outcome it
   drops and the receive loop it ends are shared, so they may be those of another attempt.
   */
  function EnterCatch(c: Conn, who: Who, failure: Failure): (r: Conn)
    requires AttemptOf(c, who).Attempt?
    ensures SameClose(c, r) && r.status == c.status && r.transport == c.transport && r.dials == c.dials && r.exhausted == c.exhausted
    ensures Tries(r.loop) == Tries(c.loop) && SameAttempts(c, r)
    ensures NoneFurther(c, r)
    ensures SameRestore(c, r)
    ensures r.reception.version == c.reception.version
  {
    var dropped := c.(helloOwner := Nobody, restoreActive := false, reception := c.reception.(abort := true));
    SetStage(dropped, who, Closing(failure, Unconfirmed(c), c.restoreActive))
  }

  /** The attempt whose negotiation a rejection of the shared outcome ends, if one is still waiting on it. */
  function Waiting(c: Conn): (w: Who)
    ensures w.Nobody? || AttemptOf(c, w).Attempt?
  {
    if At(c, c.helloOwner, AwaitingHello(false)) then c.helloOwner else Nobody
  }

  function RejectWaiting(c: Conn, waiting: Who, failure: Failure): (r: Conn)
    requires waiting.Nobody? || AttemptOf(c, waiting).Attempt?
    ensures SameClose(c, r) && r.status == c.status && r.transport == c.transport && r.dials == c.dials && r.exhausted == c.exhausted
    ensures Tries(r.loop) == Tries(c.loop) && SameAttempts(c, r)
    ensures NoneFurther(c, r)
    ensures SameRestore(c, r)
    ensures r.reception.version == c.reception.version
  {
    if waiting.Nobody? then c else EnterCatch(c, waiting, failure)
  }

  /** The receive loop of an attempt goes on while its transport is the one in use and nothing ended it. */
  function StartReceiving(c: Conn, own: Transport): ReceiveLoop {
    if c.transport != own then c.reception.receiveLoop else if c.reception.abort then Idle else Receiving
  }

  /** The attempt is the one whose HELLO is awaited. */
  function Connected(c: Conn, who: Who): Conn
    requires AttemptOf(c, who).Attempt?
  {
    c.(status := Authenticating, helloOwner := who,
       reception := c.reception.(receiveLoop := StartReceiving(c, AttemptOf(c, who).transport)))
  }

  function Dial(c: Conn, who: Who): (r: Conn)
    requires AttemptOf(c, who).Attempt?
    ensures SameRestore(c, r)
    ensures r.dials == c.dials && r.sessionConfirmed == c.sessionConfirmed
    ensures NoneBegun(c, r)
  {
    if c.closeRequested then EnterCatch(c, who, Other)
    else
      var connected := Connected(c, who);
      if who.ByConnect? && c.authRejected then EnterCatch(connected, who, Auth)
      else SetStage(connected, who, AwaitingHello(false))
  }

  /** The shared outcome resolves: whichever attempt still waits on it has its answer. */
  function AnswerWaiting(c: Conn): (r: Conn)
    ensures SameClose(c, r) && r.status == c.status && r.transport == c.transport && r.dials == c.dials && r.exhausted == c.exhausted
    ensures Tries(r.loop) == Tries(c.loop) && SameAttempts(c, r)
    ensures SameRestore(c, r)
    ensures r.sessionConfirmed == c.sessionConfirmed
    ensures r.reception == c.reception
  {
    if Waiting(c).Nobody? then c else SetStage(c, Waiting(c), AwaitingHello(true))
  }

  /** An attempt goes on after HELLO; it resolves the current outcome, be it its own or that of a newer attempt. */
  function Negotiate(c: Conn, who: Who): (r: Conn)
    requires AttemptOf(c, who).Attempt?
    ensures SameClose(c, r) && SameRestore(c, r)
    ensures r.dials == c.dials && r.sessionConfirmed == c.sessionConfirmed
    ensures NoneBegun(c, r)
  {
    if c.closeRequested then EnterCatch(c, who, Other)
    else if who.ByConnect? && c.authRejected then EnterCatch(c, who, Auth)
    else
      var answered := AnswerWaiting(c).(helloOwner := Nobody);
      if who.ByReconnect? then SetStage(answered.(restoreActive := true), who, Restoring)
      else answered.(exhausted := false, status := Authenticated, connecting := NoAttempt)
  }

  function FinishRestore(c: Conn): (r: Conn)
    requires AttemptOf(c, ByReconnect).Attempt?
    ensures SameClose(c, r) && SameRestore(c, r)
    ensures r.dials == c.dials && r.sessionConfirmed == c.sessionConfirmed
    ensures NoneBegun(c, r)
  {
    var restored := c.(restoreActive := false);
    if c.closeRequested then EnterCatch(restored, ByReconnect, Other)
    else restored.(exhausted := false, status := Authenticated, loop := NoLoop)
  }

  // ---------- Losing a session and reconnecting ----------

  /** The head of the reconnect loop: another round of backoff, or its end. */
  function LoopHead(cfg: Config, c: Conn, tries: nat): (r: Conn)
    ensures SameClose(c, r) && r.transport == c.transport && r.connecting == c.connecting && !r.loop.Opening?
    ensures c.closeRequested ==> r.status == Closed
    ensures NoneFurther(c, r) && r.status != Authenticated
    ensures cfg.bounded ==> Tries(r.loop) <= cfg.maxAttempts
    ensures r.dials == c.dials
    ensures r.reception == c.reception
  {
    if !c.closeRequested && (cfg.bounded ==> tries < cfg.maxAttempts)
    then c.(status := Reconnecting, loop := Sleeping(tries + 1))
    else if c.closeRequested then c.(status := Closed, loop := NoLoop)
    else c.(status := Disconnected, exhausted := true, loop := NoLoop)
  }

  /** What the reconnect loop does with an attempt that failed. */
  function AttemptFailed(cfg: Config, c: Conn, tries: nat, failure: Failure): (r: Conn)
    ensures SameClose(c, r) && r.transport == c.transport && r.connecting == c.connecting && !r.loop.Opening?
    ensures c.closeRequested ==> r.status == c.status
    ensures NoneFurther(c, r) && (c.status != Authenticated ==> r.status != Authenticated)
    ensures cfg.bounded ==> Tries(r.loop) <= cfg.maxAttempts
    ensures r.dials == c.dials
    ensures r.reception == c.reception
  {
    if c.closeRequested || failure == Abort then c.(loop := NoLoop)
    else if failure == Auth then c.(status := Closed, loop := NoLoop)
    else if failure == Version then c.(status := Disconnected, exhausted := true, loop := NoLoop)
    else LoopHead(cfg, c, tries)
  }

  /** A failure before the broker said anything counts as a rejection of the credentials. */
  function FailureOf(c: Conn, cause: Stage): Failure
    requires cause.Closing?
  {
    if !c.closeRequested && cause.failure != Abort && !cause.restoring && cause.unconfirmed then Auth else cause.failure
  }

  /** The receive loop of a transport that is dropped is over, and the multiplexer is reset unless the state is closed. */
  function Reset(c: Conn, gone: Transport): Reception {
    Reception(if c.transport == gone then Idle else c.reception.receiveLoop, c.reception.abort,
              if c.status == Closed || c.closeRequested then c.reception.version else 0)
  }

  function DownStatus(c: Conn, failure: Failure): Status {
    if c.status == Closed || c.closeRequested || failure == Auth then Closed else Disconnected
  }

  function TakeDown(c: Conn, gone: Transport, failure: Failure): (r: Conn)
    ensures SameClose(c, r) && r.connecting == c.connecting && r.loop == c.loop && r.dials == c.dials
    ensures c.closeRequested || c.status == Closed ==> r.status == Closed
    ensures r.sessionConfirmed == c.sessionConfirmed && r.status != Authenticated
  {
    c.(transport := if c.transport == gone then NoTransport else c.transport,
       reception := Reset(c, gone),
       authRejected := c.authRejected || failure == Auth,
       status := DownStatus(c, failure))
  }

  /** The catch block after its await, and what its caller does with the failure. */
  function FinishCatch(cfg: Config, c: Conn, who: Who): (r: Conn)
    requires AttemptOf(c, who).Attempt? && AttemptOf(c, who).stage.Closing?
    ensures SameClose(c, r)
    ensures NoneFurther(c, r) && r.status != Authenticated
    ensures SameRestore(c, r)
    ensures r.dials == c.dials
    ensures NoneBegun(c, r)
    ensures r.reception.version == if c.status == Closed || c.closeRequested then c.reception.version else 0
  {
    var attempt := AttemptOf(c, who);
    var failure := FailureOf(c, attempt.stage);
    var down := TakeDown(c, attempt.transport, failure);
    if who.ByConnect? then down.(connecting := NoAttempt) else AttemptFailed(cfg, down, c.loop.tries, failure)
  }

  /** Closed for good or for lack of credentials, or disconnected with a reconnect loop at work. */
  function LeaveSession(cfg: Config, c: Conn): (r: Conn)
    ensures SameClose(c, r) && r.transport == c.transport && r.connecting == c.connecting
    ensures !r.loop.Sleeping? ==> r.loop == c.loop || r.loop.NoLoop?
    ensures c.loop.Opening? ==> r.loop.Opening?
    ensures NoneFurther(c, r) && r.status != Authenticated
    ensures r.dials == c.dials
    ensures r.reception == c.reception
  {
    if c.closeRequested || c.authRejected then c.(status := Closed)
    else
      var gone := c.(exhausted := false, status := Disconnected);
      if cfg.reconnectEnabled && gone.loop.NoLoop? then LoopHead(cfg, gone, 0) else gone
  }

  /** The transport in use is gone: the session ends, and a negotiation that waits on it fails. */
  function LoseSession(cfg: Config, c: Conn): (r: Conn)
    ensures SameClose(c, r) && NoneFurther(c, r) && r.status != Authenticated
    ensures SameRestore(c, r)
    ensures r.dials == c.dials
    ensures NoneBegun(c, r)
    ensures r.reception.version == 0
  {
    var inferred := Unconfirmed(c);
    var left := LeaveSession(cfg, c.(authRejected := c.authRejected || inferred,
                                   reception := c.reception.(version := 0)));
    var waiting := if c.status == Authenticating then Waiting(c) else Nobody;
    RejectWaiting(left, waiting, if inferred then Auth else Other)
  }

  function HandleLoss(cfg: Config, c: Conn, failed: Transport): (r: Conn)
    ensures SameClose(c, r)
    ensures NoneFurther(c, r) && (r.status == Authenticated ==> c.status == Authenticated)
    ensures SameRestore(c, r)
    ensures r.dials == c.dials
    ensures NoneBegun(c, r)
  {
    if failed.Transport? && c.transport != failed then c else LoseSession(cfg, c)
  }

  /** The receive loop returns: told to, or because receiving or a frame failed, which is a loss of its transport. */
  function EndReceive(cfg: Config, c: Conn): (r: Conn)
    ensures SameClose(c, r) && NoneFurther(c, r) && (r.status == Authenticated ==> c.status == Authenticated)
    ensures SameRestore(c, r)
    ensures r.dials == c.dials
    ensures NoneBegun(c, r)
  {
    var silent := c.(reception := c.reception.(receiveLoop := Idle));
    if c.reception.abort || c.closeRequested then silent else LoseSession(cfg, silent)
  }

  /** A HELLO that nothing came before is the answer; another one is a protocol error. */
  function HearHello(cfg: Config, c: Conn): (r: Conn)
    ensures SameClose(c, r)
    ensures SameRestore(c, r)
    ensures r.dials == c.dials && r.sessionConfirmed
    ensures NoneBegun(c, r)
  {
    if c.reception.version != 0 then EndReceive(cfg, Confirm(c))
    else AnswerWaiting(Confirm(c)).(reception := c.reception.(version := WIRE_VERSION))
  }

  // ---------- The calls of the client ----------

  predicate CanWaitForReconnect(cfg: Config, c: Conn) {
    cfg.reconnectEnabled && c.hasEstablished && !c.exhausted && !c.authRejected
  }

  /** A call to connect fails, returns, waits for what is under way, or opens a session. */
  function CallConnect(cfg: Config, c: Conn): (r: Conn)
    ensures SameClose(c, r)
  {
    if c.closeRequested || c.status == Authenticated || c.connecting.Attempt? || !c.loop.NoLoop?
       || c.status == Connecting || c.status == Authenticating || c.status == Reconnecting
       || (c.status == Disconnected && CanWaitForReconnect(cfg, c))
    then c
    else BeginOpen(c.(authRejected := false, exhausted := false), ByConnect)
  }

  /** Close returns at once when it finds the connection closed and no transport open. */
  predicate ReturnsEarly(c: Conn) {
    c.status == Closed && c.transport == NoTransport
  }

  /** The first frame of a session confirms it. */
  function Confirm(c: Conn): (r: Conn)
    ensures r == c.(sessionConfirmed := true, hasEstablished := r.hasEstablished)
  {
    if c.sessionConfirmed then c else c.(sessionConfirmed := true, hasEstablished := true)
  }

  /** Closed for good, before the attempt that waits for its answer is told. */
  function Detached(c: Conn): Conn {
    c.(closePromise := Called, closeRequested := true, status := Closed, transport := NoTransport, helloOwner := Nobody,
       reception := Reception(Idle, true, 0))
  }

  function CallClose(c: Conn): (r: Conn)
    ensures r.closePromise.Called?
    ensures r.closeRequested == (c.closeRequested || (!c.closePromise.Called? && !ReturnsEarly(c)))
    ensures NoneFurther(c, r) && (r.status == Authenticated ==> c.status == Authenticated)
    ensures SameRestore(c, r)
    ensures r.dials == c.dials
    ensures NoneBegun(c, r)
  {
    if c.closePromise.Called? then c
    else if ReturnsEarly(c) then c.(closePromise := Called)
    else RejectWaiting(Detached(c), Waiting(c), Other)
  }

  predicate Enabled(c: Conn, e: Event) {
    match e
    case Dialed(who) => At(c, who, Dialing)
    case DialFailed(who, _) => At(c, who, Dialing)
    case HelloArrived => c.reception.receiveLoop == Receiving
    case FrameArrived => c.reception.receiveLoop == Receiving
    case RejectArrived(_) => c.reception.receiveLoop == Receiving
    case ReceiveEnds => c.reception.receiveLoop == Receiving
    case Negotiated(who) => At(c, who, AwaitingHello(true))
    case HelloFailed(who, _) => At(c, who, AwaitingHello(false)) || At(c, who, AwaitingHello(true))
    case Restored => At(c, ByReconnect, Restoring)
    case TransportClosed(who) => AttemptOf(c, who).Attempt? && AttemptOf(c, who).stage.Closing?
    case SleepOver => c.loop.Sleeping?
    case _ => true
  }

  function Step(cfg: Config, c: Conn, e: Event): (r: Conn)
    ensures r.closePromise.Called? <==> c.closePromise.Called? || e.Close?
    ensures r.closeRequested == (c.closeRequested || (e.Close? && !c.closePromise.Called? && !ReturnsEarly(c)))
  {
    if !Enabled(c, e) then c
    else match e
      case Connect => CallConnect(cfg, c)
      case Close => CallClose(c)
      case Dialed(who) => Dial(c, who)
      case DialFailed(who, failure) => EnterCatch(c, who, failure)
      case HelloArrived => HearHello(cfg, c)
      case FrameArrived => Confirm(c)
      case RejectArrived(failure) =>
        RejectWaiting(Confirm(c).(authRejected := c.authRejected || failure == Auth), Waiting(c), failure)
      case ReceiveEnds => EndReceive(cfg, c)
      case Negotiated(who) => Negotiate(c, who)
      case HelloFailed(who, failure) => EnterCatch(c, who, failure)
      case Restored => FinishRestore(c)
      case TransportClosed(who) => FinishCatch(cfg, c, who)
      case SleepOver => if c.closeRequested then c.(loop := NoLoop) else BeginOpen(c, ByReconnect)
      case Lost(failed) => HandleLoss(cfg, c, failed)
  }

  lemma EffectiveClose(cfg: Config, c: Conn)
    requires !c.closePromise.Called? && !ReturnsEarly(c)
    ensures Step(cfg, c, Close) == RejectWaiting(Detached(c), Waiting(c), Other)
  {
  }

  function RunFrom(cfg: Config, c: Conn, events: seq<Event>): Conn {
    if events == [] then c
    else Step(cfg, RunFrom(cfg, c, events[..|events| - 1]), events[|events| - 1])
  }

  // ---------- Closed is absorbing ----------

  predicate Shut(c: Conn) {
    && c.closePromise.Called? && c.closeRequested && c.status == Closed
    && c.transport == NoTransport && c.reception.receiveLoop == Idle
  }

  /** Still shut, with no transport created, no attempt started and no loop woken. */
  predicate WindsDown(c: Conn, n: Conn) {
    && Shut(n) && n.dials == c.dials
    && (n.connecting.Attempt? ==> c.connecting.Attempt?)
    && (!n.loop.NoLoop? ==> !c.loop.NoLoop?)
  }

  lemma FailureKeepsShut(cfg: Config, c: Conn, e: Event)
    requires Shut(c) && (e.DialFailed? || e.HelloFailed? || e.RejectArrived?)
    ensures WindsDown(c, Step(cfg, c, e))
  {
  }

  lemma ProgressKeepsShut(cfg: Config, c: Conn, e: Event)
    requires Shut(c) && (e.Dialed? || e.Negotiated?)
    ensures WindsDown(c, Step(cfg, c, e))
  {
  }

  lemma SettlingKeepsShut(cfg: Config, c: Conn, e: Event)
    requires Shut(c) && (e.TransportClosed? || e.Lost?)
    ensures WindsDown(c, Step(cfg, c, e))
  {
  }

  /** Once shut, a step opens no transport, starts no attempt and wakes no loop: what is left only winds down. */
  lemma StepKeepsShut(cfg: Config, c: Conn, e: Event)
    requires Shut(c)
    ensures WindsDown(c, Step(cfg, c, e))
  {
    match e
    case TransportClosed(_) => SettlingKeepsShut(cfg, c, e);
    case Lost(_) => SettlingKeepsShut(cfg, c, e);
    case DialFailed(_, _) => FailureKeepsShut(cfg, c, e);
    case HelloFailed(_, _) => FailureKeepsShut(cfg, c, e);
    case RejectArrived(_) => FailureKeepsShut(cfg, c, e);
    case Dialed(_) => ProgressKeepsShut(cfg, c, e);
    case Negotiated(_) => ProgressKeepsShut(cfg, c, e);
    case _ =>
  }

  lemma {:induction false} RunKeepsShut(cfg: Config, c: Conn, events: seq<Event>)
    requires Shut(c)
    ensures Shut(RunFrom(cfg, c, events)) && RunFrom(cfg, c, events).dials == c.dials
  {
    if events != [] {
      RunKeepsShut(cfg, c, events[..|events| - 1]);
      StepKeepsShut(cfg, RunFrom(cfg, c, events[..|events| - 1]), events[|events| - 1]);
    }
  }

  /** A close that does not return early is permanent: closed, without transport, and none opened ever again. */
  lemma {:induction false} CloseIsPermanent(cfg: Config, c: Conn, events: seq<Event>)
    requires !c.closePromise.Called? && !(c.status == Closed && c.transport == NoTransport)
    ensures var n := RunFrom(cfg, Step(cfg, c, Close), events);
            n.status == Closed && n.transport == NoTransport && n.dials == c.dials
  {
    RunKeepsShut(cfg, Step(cfg, c, Close), events);
  }

  /** A close that returned early is forgotten: no later call of close takes effect. */
  lemma {:induction false} EarlyCloseIsForgotten(cfg: Config, c: Conn, events: seq<Event>)
    requires c.closePromise.Called? && !c.closeRequested
    ensures RunFrom(cfg, c, events).closePromise.Called? && !RunFrom(cfg, c, events).closeRequested
  {
    if events != [] {
      EarlyCloseIsForgotten(cfg, c, events[..|events| - 1]);
    }
  }

  /** What every run keeps: only a reconnect restores, and a requested close was called and took effect. */
  ghost predicate Reasonable(c: Conn) {
    && !At(c, ByConnect, Restoring)
    && (c.closeRequested ==> Shut(c))
  }

  lemma StepSameRestore(cfg: Config, c: Conn, e: Event)
    ensures SameRestore(c, Step(cfg, c, e))
  {
  }

  lemma StepReasonable(cfg: Config, c: Conn, e: Event)
    requires Reasonable(c)
    ensures Reasonable(Step(cfg, c, e))
  {
    StepSameRestore(cfg, c, e);
    if c.closeRequested {
      StepKeepsShut(cfg, c, e);
    } else if Step(cfg, c, e).closeRequested {
      EffectiveClose(cfg, c);
    }
  }

  lemma {:induction false} RunReasonable(cfg: Config, events: seq<Event>)
    ensures Reasonable(RunFrom(cfg, INITIAL, events))
  {
    if events != [] {
      RunReasonable(cfg, events[..|events| - 1]);
      StepReasonable(cfg, RunFrom(cfg, INITIAL, events[..|events| - 1]), events[|events| - 1]);
    }
  }

  // ---------- What a loss means ----------

  /**
   A loss that concerns the current transport closes the connection if and only if a close was requested,
   the credentials had been rejected, or the broker had not sent a frame of the session under negotiation;
   otherwise the reconnect loop is at work exactly when it is enabled and allowed an attempt.
   */
  lemma LossClosesIff(cfg: Config, c: Conn, failed: Transport)
    requires failed.NoTransport? || c.transport == failed
    ensures var n := Step(cfg, c, Lost(failed));
            && (n.status == Closed <==> c.closeRequested || c.authRejected || Unconfirmed(c))
            && (n.status != Closed ==>
                  (n.loop.NoLoop? <==> c.loop.NoLoop? && (!cfg.reconnectEnabled || (cfg.bounded && cfg.maxAttempts == 0))))
  {
  }

  /**
   In every run: the loss of the transport in use closes the connection if and only if credentials were
   rejected or the broker had not sent a frame; otherwise the reconnect loop is at work, unless it is
   disabled or allows no attempt.
   */
  lemma {:induction false} LiveLossClosesIff(cfg: Config, events: seq<Event>)
    requires RunFrom(cfg, INITIAL, events).transport.Transport?
    ensures var c := RunFrom(cfg, INITIAL, events);
            var n := Step(cfg, c, Lost(c.transport));
            && (n.status == Closed <==> c.authRejected || Unconfirmed(c))
            && (n.status != Closed ==>
                  (n.loop.NoLoop? <==> c.loop.NoLoop? && (!cfg.reconnectEnabled || (cfg.bounded && cfg.maxAttempts == 0))))
  {
    var c := RunFrom(cfg, INITIAL, events);
    RunReasonable(cfg, events);
    LossClosesIff(cfg, c, c.transport);
  }

  // ---------- The reconnect loop ends ----------

  /** The tries of the reconnect loop stay within the configured number. */
  predicate TriesBounded(cfg: Config, c: Conn) {
    cfg.bounded ==> Tries(c.loop) <= cfg.maxAttempts
  }

  lemma LossTriesBounded(cfg: Config, c: Conn, e: Event)
    requires TriesBounded(cfg, c) && e.Lost?
    ensures TriesBounded(cfg, Step(cfg, c, e))
  {
  }

  lemma LoopTriesBounded(cfg: Config, c: Conn, e: Event)
    requires TriesBounded(cfg, c) && e.TransportClosed?
    ensures TriesBounded(cfg, Step(cfg, c, e))
  {
  }

  lemma AnswerTriesBounded(cfg: Config, c: Conn, e: Event)
    requires TriesBounded(cfg, c) && (e.Dialed? || e.Negotiated? || e.Restored? || e.HelloArrived? || e.RejectArrived?)
    ensures TriesBounded(cfg, Step(cfg, c, e))
  {
  }

  lemma StepTriesBounded(cfg: Config, c: Conn, e: Event)
    requires TriesBounded(cfg, c)
    ensures TriesBounded(cfg, Step(cfg, c, e))
  {
    match e
    case TransportClosed(_) => LoopTriesBounded(cfg, c, e);
    case Lost(_) => LossTriesBounded(cfg, c, e);
    case Dialed(_) => AnswerTriesBounded(cfg, c, e);
    case Negotiated(_) => AnswerTriesBounded(cfg, c, e);
    case Restored => AnswerTriesBounded(cfg, c, e);
    case HelloArrived => AnswerTriesBounded(cfg, c, e);
    case RejectArrived(_) => AnswerTriesBounded(cfg, c, e);
    case _ =>
  }

  /** No run of the reconnect loop makes more attempts than configured. */
  lemma {:induction false} RunTriesBounded(cfg: Config, events: seq<Event>)
    ensures TriesBounded(cfg, RunFrom(cfg, INITIAL, events))
  {
    if events != [] {
      RunTriesBounded(cfg, events[..|events| - 1]);
      StepTriesBounded(cfg, RunFrom(cfg, INITIAL, events[..|events| - 1]), events[|events| - 1]);
    }
  }

  lemma RejectionEndsLoop(cfg: Config, c: Conn)
    requires c.loop.Opening? && c.loop.stage.Closing? && FailureOf(c, c.loop.stage) == Auth && !c.closeRequested
    ensures var n := Step(cfg, c, TransportClosed(ByReconnect));
            n.status == Closed && n.loop == NoLoop && n.authRejected
  {
  }

  /** Closed with rejected credentials, and nothing under way. */
  predicate Rejected(c: Conn) {
    c.status == Closed && c.authRejected && c.loop.NoLoop? && !c.connecting.Attempt?
  }

  lemma LossKeepsRejected(cfg: Config, c: Conn)
    requires Rejected(c)
    ensures Rejected(LoseSession(cfg, c)) && LoseSession(cfg, c).dials == c.dials
  {
    assert Waiting(c).Nobody?;
  }

  lemma ReceivingKeepsRejected(cfg: Config, c: Conn, e: Event)
    requires Rejected(c) && (e.HelloArrived? || e.ReceiveEnds?)
    ensures Rejected(Step(cfg, c, e)) && Step(cfg, c, e).dials == c.dials
  {
    var heard := if e.HelloArrived? then Confirm(c) else c;
    LossKeepsRejected(cfg, heard.(reception := heard.reception.(receiveLoop := Idle)));
    if e.HelloArrived? && c.reception.version == 0 {
      assert Waiting(heard).Nobody?;
    }
  }

  lemma StepKeepsRejected(cfg: Config, c: Conn, e: Event)
    requires Rejected(c) && !e.Connect?
    ensures Rejected(Step(cfg, c, e)) && Step(cfg, c, e).dials == c.dials
  {
    if e.HelloArrived? || e.ReceiveEnds? {
      ReceivingKeepsRejected(cfg, c, e);
    } else if e.Lost? {
      LossKeepsRejected(cfg, c);
    }
  }

  /** Rejected credentials are final until the client calls connect: nothing else leaves Closed or dials again. */
  lemma {:induction false} RejectedStaysClosed(cfg: Config, c: Conn, events: seq<Event>)
    requires Rejected(c) && forall k :: 0 <= k < |events| ==> !events[k].Connect?
    ensures Rejected(RunFrom(cfg, c, events)) && RunFrom(cfg, c, events).dials == c.dials
  {
    if events != [] {
      RejectedStaysClosed(cfg, c, events[..|events| - 1]);
      StepKeepsRejected(cfg, RunFrom(cfg, c, events[..|events| - 1]), events[|events| - 1]);
    }
  }

  ghost predicate Reopens(cfg: Config, c: Conn) {
    exists events :: RunFrom(cfg, c, events).status != Closed
  }

  lemma ReopensAtOnce(cfg: Config, c: Conn)
    requires c.status != Closed
    ensures Reopens(cfg, c)
  {
    assert RunFrom(cfg, c, []) == c;
  }

  lemma {:induction false} RunAfterStep(cfg: Config, c: Conn, e: Event, events: seq<Event>)
    ensures RunFrom(cfg, c, [e] + events) == RunFrom(cfg, Step(cfg, c, e), events)
    decreases |events|
  {
    var all := [e] + events;
    if events == [] {
      assert all[..0] == [];
    } else {
      RunAfterStep(cfg, c, e, events[..|events| - 1]);
      assert all[..|all| - 1] == [e] + events[..|events| - 1];
    }
  }

  lemma ReopensAfter(cfg: Config, c: Conn, e: Event)
    requires Reopens(cfg, Step(cfg, c, e))
    ensures Reopens(cfg, c)
  {
    var events :| RunFrom(cfg, Step(cfg, c, e), events).status != Closed;
    RunAfterStep(cfg, c, e, events);
  }

  /** A connection nobody asked to close and nothing works on is opened again by a call to connect. */
  lemma IdleReopens(cfg: Config, c: Conn)
    requires c.status == Closed && !c.closeRequested && c.loop.NoLoop? && !c.connecting.Attempt?
    ensures Reopens(cfg, c)
  {
    ReopensAtOnce(cfg, Step(cfg, c, Connect));
    ReopensAfter(cfg, c, Connect);
  }

  lemma ClosingReopens(cfg: Config, c: Conn)
    requires c.status == Closed && !c.closeRequested && c.loop.NoLoop? && c.connecting.Attempt? && c.connecting.stage.Closing?
    ensures Reopens(cfg, c)
  {
    IdleReopens(cfg, Step(cfg, c, TransportClosed(ByConnect)));
    ReopensAfter(cfg, c, TransportClosed(ByConnect));
  }

  /** Without a reconnect loop: the connect under way goes on, or ends and another is called. */
  lemma ConnectingReopens(cfg: Config, c: Conn)
    requires c.status == Closed && !c.closeRequested && c.loop.NoLoop? && !At(c, ByConnect, Restoring)
    ensures Reopens(cfg, c)
  {
    if !c.connecting.Attempt? {
      IdleReopens(cfg, c);
    } else if c.connecting.stage.Closing? {
      ClosingReopens(cfg, c);
    } else if At(c, ByConnect, Dialing) {
      ReopensAtOnce(cfg, Step(cfg, c, Dialed(ByConnect)));
      ReopensAfter(cfg, c, Dialed(ByConnect));
    } else {
      ClosingReopens(cfg, Step(cfg, c, HelloFailed(ByConnect, Other)));
      ReopensAfter(cfg, c, HelloFailed(ByConnect, Other));
    }
  }

  /** The teardown of a reconnect attempt ends in another round, in a disconnect, or without a loop. */
  lemma FailedAttemptReopens(cfg: Config, c: Conn)
    requires c.status == Closed && !c.closeRequested && !At(c, ByConnect, Restoring)
    requires c.loop.Opening? && c.loop.stage.Closing?
    ensures Reopens(cfg, c)
  {
    var n := Step(cfg, c, TransportClosed(ByReconnect));
    if n.status == Closed {
      ConnectingReopens(cfg, n);
    } else {
      ReopensAtOnce(cfg, n);
    }
    ReopensAfter(cfg, c, TransportClosed(ByReconnect));
  }

  lemma UnrequestedReopens(cfg: Config, c: Conn)
    requires c.status == Closed && !c.closeRequested && !At(c, ByConnect, Restoring)
    ensures Reopens(cfg, c)
  {
    match c.loop
    case NoLoop => ConnectingReopens(cfg, c);
    case Sleeping(_) =>
      ReopensAtOnce(cfg, Step(cfg, c, SleepOver));
      ReopensAfter(cfg, c, SleepOver);
    case Opening(_, _, stage) =>
      match stage {
        case Dialing =>
          ReopensAtOnce(cfg, Step(cfg, c, Dialed(ByReconnect)));
          ReopensAfter(cfg, c, Dialed(ByReconnect));
        case AwaitingHello(_) =>
          FailedAttemptReopens(cfg, Step(cfg, c, HelloFailed(ByReconnect, Other)));
          ReopensAfter(cfg, c, HelloFailed(ByReconnect, Other));
        case Restoring =>
          ReopensAtOnce(cfg, Step(cfg, c, Restored));
          ReopensAfter(cfg, c, Restored);
        case Closing(_, _, _) => FailedAttemptReopens(cfg, c);
      }
  }

  /**
   Closed is absorbing exactly when close does not return early: after any run, the first call of close
   leaves the connection closed for good if and only if it did not find it closed without a transport.
   */
  lemma {:induction false} CloseIsAbsorbingIff(cfg: Config, events: seq<Event>)
    requires !RunFrom(cfg, INITIAL, events).closePromise.Called?
    ensures var c := RunFrom(cfg, INITIAL, events);
            !Reopens(cfg, Step(cfg, c, Close)) <==> !(c.status == Closed && c.transport == NoTransport)
  {
    var c := RunFrom(cfg, INITIAL, events);
    RunReasonable(cfg, events);
    if ReturnsEarly(c) {
      UnrequestedReopens(cfg, Step(cfg, c, Close));
    } else {
      forall more ensures RunFrom(cfg, Step(cfg, c, Close), more).status == Closed {
        CloseIsPermanent(cfg, c, more);
      }
    }
  }

  /** The first call of connect, up to the wait for HELLO. */
  function FirstDial(cfg: Config): Conn {
    Step(cfg, Step(cfg, INITIAL, Connect), Dialed(ByConnect))
  }

  lemma FirstDialWaits(cfg: Config)
    ensures FirstDial(cfg) == INITIAL.(status := Authenticating, transport := Transport(0), dials := 1,
                                      reception := Reception(Receiving, false, 0), helloOwner := ByConnect,
                                      connecting := Attempt(Transport(0), AwaitingHello(false)))
  {
  }

  /** Credentials rejected while connecting. */
  function RejectedConnect(cfg: Config): Conn {
    Step(cfg, Step(cfg, FirstDial(cfg), RejectArrived(Auth)), TransportClosed(ByConnect))
  }

  /** A run after which close returns early: the connection is closed, without a transport, by rejected credentials. */
  lemma EarlyCloseIsReached(cfg: Config)
    ensures RejectedConnect(cfg).status == Closed && RejectedConnect(cfg).transport == NoTransport
    ensures ReturnsEarly(RejectedConnect(cfg)) && !RejectedConnect(cfg).closePromise.Called? && Rejected(RejectedConnect(cfg))
  {
    FirstDialWaits(cfg);
    var rejected := Step(cfg, FirstDial(cfg), RejectArrived(Auth));
    assert rejected.connecting == Attempt(Transport(0), Closing(Auth, false, false)) && rejected.transport == Transport(0);
  }

  lemma RejectedConnectIsARun(cfg: Config)
    ensures RejectedConnect(cfg) ==
            RunFrom(cfg, INITIAL, [Connect, Dialed(ByConnect), RejectArrived(Auth), TransportClosed(ByConnect)])
  {
    RunSnoc(cfg, INITIAL, [], Connect);
    RunSnoc(cfg, INITIAL, [Connect], Dialed(ByConnect));
    RunSnoc(cfg, INITIAL, [Connect, Dialed(ByConnect)], RejectArrived(Auth));
    RunSnoc(cfg, INITIAL, [Connect, Dialed(ByConnect), RejectArrived(Auth)], TransportClosed(ByConnect));
    assert [] + [Connect] == [Connect];
    assert [Connect] + [Dialed(ByConnect)] == [Connect, Dialed(ByConnect)];
    assert [Connect, Dialed(ByConnect)] + [RejectArrived(Auth)] == [Connect, Dialed(ByConnect), RejectArrived(Auth)];
    assert [Connect, Dialed(ByConnect), RejectArrived(Auth)] + [TransportClosed(ByConnect)]
        == [Connect, Dialed(ByConnect), RejectArrived(Auth), TransportClosed(ByConnect)];
  }

  lemma {:induction false} RunSnoc(cfg: Config, c: Conn, events: seq<Event>, e: Event)
    ensures RunFrom(cfg, c, events + [e]) == Step(cfg, RunFrom(cfg, c, events), e)
  {
    assert (events + [e])[..|events|] == events;
  }
}
