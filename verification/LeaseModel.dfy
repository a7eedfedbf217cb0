/**
 A lease handle with its serialized operations and rotating token, and the managed execution that keeps
 a lease alive around a callback. The history of what was sent, answered and seen is kept beside the
 state, newest note first, and the promises are stated about it.
 */
module LeaseModel {

  datatype Note =
    | SentRenew(token: nat)
    | SentRelease(token: nat)
    | Granted(token: nat)
    | RenewRefused
    | ReleaseConfirmed
    | ReleaseRefused
    | Disconnected
    | CallbackSettled
    | CallerAborted

  datatype History = Acquired(token: nat) | Then(past: History, note: Note)

  datatype Op = Extend | Release

  datatype Outcome = Done | Refused | Invalid

  datatype Reply = Accept(token: nat) | Refuse

  /** The first of the queued operations is under way, its frame sent; `outcomes` settles the calls in order. */
  datatype Handle = Handle(token: nat, closed: bool, queue: seq<Op>, asked: seq<Op>, outcomes: seq<Outcome>, history: History)

  // ---------- The handle ----------

  function Fresh(token: nat): Handle {
    Handle(token, false, [], [], [], Acquired(token))
  }

  function Record(h: Handle, note: Note): Handle {
    h.(history := Then(h.history, note))
  }

  /** Begins the first queued operation; on a closed handle it fails at once and the next one is tried. */
  function Begin(h: Handle): Handle
    decreases |h.queue|
  {
    if h.queue == [] then h
    else if h.closed then Begin(h.(queue := h.queue[1..], outcomes := h.outcomes + [Invalid]))
    else if h.queue[0].Extend? then Record(h, SentRenew(h.token))
    else Record(h.(closed := true), SentRelease(h.token))
  }

  function Call(h: Handle, op: Op): Handle {
    var queued := h.(queue := h.queue + [op], asked := h.asked + [op]);
    if h.queue == [] then Begin(queued) else queued
  }

  function Settle(h: Handle, outcome: Outcome): Handle
    requires h.queue != []
  {
    Begin(h.(queue := h.queue[1..], outcomes := h.outcomes + [outcome]))
  }

  /** The answer to the operation under way: a renewal accepted rotates the token, one refused closes the handle. */
  function Answer(h: Handle, reply: Reply): Handle
    requires h.queue != []
  {
    match (h.queue[0], reply)
    case (Extend, Accept(token)) => Settle(Record(h.(token := token), Granted(token)), Done)
    case (Extend, Refuse) => Settle(Record(h.(closed := true), RenewRefused), Refused)
    case (Release, Accept(_)) => Settle(Record(h, ReleaseConfirmed), Done)
    case (Release, Refuse) => Settle(Record(h, ReleaseRefused), Refused)
  }

  function Disconnect(h: Handle): Handle {
    Record(h.(closed := true), Disconnected)
  }

  datatype HandleEvent = Calls(op: Op) | Answers(reply: Reply) | Drops

  function HandleStep(h: Handle, e: HandleEvent): Handle {
    match e
    case Calls(op) => Call(h, op)
    case Answers(reply) => if h.queue == [] then h else Answer(h, reply)
    case Drops => Disconnect(h)
  }

  function HandleRun(token: nat, events: seq<HandleEvent>): Handle {
    if events == [] then Fresh(token)
    else HandleStep(HandleRun(token, events[..|events| - 1]), events[|events| - 1])
  }

  // ---------- What a history may hold ----------

  function LatestToken(history: History): nat {
    match history
    case Acquired(token) => token
    case Then(_, Granted(token)) => token
    case Then(past, _) => LatestToken(past)
  }

  predicate Seen(history: History, note: Note) {
    history.Then? && (history.note == note || Seen(history.past, note))
  }

  /** The lease was released, refused a renewal or cut off. */
  predicate Over(history: History) {
    history.Then? && (history.note.SentRelease? || history.note.RenewRefused? || history.note.Disconnected? || Over(history.past))
  }

  /** The frame sent last, unless it has been answered. */
  predicate Unanswered(history: History) {
    match history
    case Acquired(_) => false
    case Then(past, note) =>
      if note.SentRenew? || note.SentRelease? then true
      else if note.Granted? || note.RenewRefused? || note.ReleaseConfirmed? || note.ReleaseRefused? then false
      else Unanswered(past)
  }

  /** Every frame carries the token granted last, is sent while the lease lasts, and waits for the one before it. */
  predicate Disciplined(history: History) {
    match history
    case Acquired(_) => true
    case Then(past, SentRenew(token)) => Disciplined(past) && token == LatestToken(past) && !Over(past) && !Unanswered(past)
    case Then(past, SentRelease(token)) => Disciplined(past) && token == LatestToken(past) && !Over(past) && !Unanswered(past)
    case Then(past, _) => Disciplined(past)
  }

  /** The fields of the handle are what its history says. */
  ghost predicate Faithful(h: Handle) {
    && h.token == LatestToken(h.history)
    && (h.closed <==> Over(h.history))
    && Disciplined(h.history)
    && |h.outcomes| <= |h.asked| && h.queue == h.asked[|h.outcomes|..]
  }

  /** As `Faithful`, before the first queued operation has begun. */
  ghost predicate Ready(h: Handle) {
    Faithful(h) && !Unanswered(h.history)
  }

  lemma {:induction false} BeginFaithful(h: Handle)
    requires Ready(h)
    ensures Faithful(Begin(h)) && (Unanswered(Begin(h).history) <==> Begin(h).queue != [])
    ensures Begin(h).asked == h.asked && h.outcomes <= Begin(h).outcomes
    decreases |h.queue|
  {
    if h.queue != [] && h.closed {
      BeginFaithful(h.(queue := h.queue[1..], outcomes := h.outcomes + [Invalid]));
    }
  }

  ghost predicate Sound(h: Handle) {
    Faithful(h) && (Unanswered(h.history) <==> h.queue != [])
  }

  lemma CallSound(h: Handle, op: Op)
    requires Sound(h)
    ensures Sound(Call(h, op)) && Call(h, op).asked == h.asked + [op]
  {
    var queued := h.(queue := h.queue + [op], asked := h.asked + [op]);
    assert queued.queue == queued.asked[|h.outcomes|..];
    if h.queue == [] {
      BeginFaithful(queued);
    }
  }

  lemma SettleSound(h: Handle, outcome: Outcome)
    requires Ready(h) && h.queue != []
    ensures Sound(Settle(h, outcome)) && Settle(h, outcome).asked == h.asked
  {
    BeginFaithful(h.(queue := h.queue[1..], outcomes := h.outcomes + [outcome]));
  }

  lemma AnswerSound(h: Handle, reply: Reply)
    requires Sound(h) && h.queue != []
    ensures Sound(Answer(h, reply)) && Answer(h, reply).asked == h.asked
  {
    match (h.queue[0], reply)
    case (Extend, Accept(token)) => SettleSound(Record(h.(token := token), Granted(token)), Done);
    case (Extend, Refuse) => SettleSound(Record(h.(closed := true), RenewRefused), Refused);
    case (Release, Accept(_)) => SettleSound(Record(h, ReleaseConfirmed), Done);
    case (Release, Refuse) => SettleSound(Record(h, ReleaseRefused), Refused);
  }

  lemma HandleStepSound(h: Handle, e: HandleEvent)
    requires Sound(h)
    ensures Sound(HandleStep(h, e)) && HandleStep(h, e).asked == h.asked + if e.Calls? then [e.op] else []
  {
    match e
    case Calls(op) => CallSound(h, op);
    case Answers(reply) => if h.queue != [] { AnswerSound(h, reply); }
    case Drops =>
  }

  function OpsCalled(events: seq<HandleEvent>): seq<Op> {
    if events == [] then []
    else
      var last := events[|events| - 1];
      OpsCalled(events[..|events| - 1]) + if last.Calls? then [last.op] else []
  }

  /**
   Whatever is called, answered or dropped, in any order: the handle is what its history says, frames obey
   it, and the calls are settled one by one in the order they were made.
   */
  lemma {:induction false} HandleRunSound(token: nat, events: seq<HandleEvent>)
    ensures Sound(HandleRun(token, events)) && HandleRun(token, events).asked == OpsCalled(events)
  {
    if events != [] {
      HandleRunSound(token, events[..|events| - 1]);
      HandleStepSound(HandleRun(token, events[..|events| - 1]), events[|events| - 1]);
    }
  }

  /** `whole` continues `part`. */
  predicate Continues(whole: History, part: History) {
    whole == part || (whole.Then? && Continues(whole.past, part))
  }

  /** Read at any point of a disciplined history: the frame sent there bears the last token, and the lease was not over. */
  lemma {:induction false} FrameBearsLatestToken(history: History, past: History, token: nat)
    requires Disciplined(history)
    requires Continues(history, Then(past, SentRenew(token))) || Continues(history, Then(past, SentRelease(token)))
    ensures token == LatestToken(past) && !Over(past)
  {
    if history != Then(past, SentRenew(token)) && history != Then(past, SentRelease(token)) {
      FrameBearsLatestToken(history.past, past, token);
    }
  }

  // ---------- The managed execution ----------

  datatype Renewal = Sleeping | Extending | Stopped

  /** What the callback threw: `AbortLike` is the lifecycle's reason or an error named AbortError. */
  datatype Thrown = Undefined | AbortLike | Genuine

  datatype Callback = Running | Returned | Threw(thrown: Thrown)

  datatype Stage = Executing | Releasing | Resolved | Rejected(failures: nat)

  datatype Managed = Managed(lease: Handle, renewal: Renewal, callback: Callback, lost: bool, aborted: bool, stage: Stage)

  datatype Event = RenewalDue | Replied(reply: Reply) | ConnectionLost | CallerAborts | CallbackEnds(callback: Callback)

  function Start(token: nat): Managed {
    Managed(Fresh(token), Sleeping, Running, false, false, Executing)
  }

  /** How many of the three operations failed; a cancellation that was asked for does not count. */
  function Failures(m: Managed, releaseFailed: bool): nat {
    var managed := (m.lost || m.aborted) && m.callback == Threw(AbortLike);
    var callbackFailed := m.callback.Threw? && !m.callback.thrown.Undefined? && !managed;
    (if m.lost then 1 else 0) + (if callbackFailed then 1 else 0) + (if releaseFailed then 1 else 0)
  }

  function Conclude(m: Managed, releaseFailed: bool): Managed {
    var failures := Failures(m, releaseFailed);
    m.(stage := if failures > 0 || m.aborted then Rejected(failures) else Resolved)
  }

  /** Callback and renewal are over: release, unless the lease was lost. */
  function WindDown(m: Managed): Managed {
    if m.lost then Conclude(m, false)
    else
      var released := m.(lease := Call(m.lease, Release));
      if released.lease.queue == [] then Conclude(released, true) else released.(stage := Releasing)
  }

  function RenewalOver(m: Managed): Managed {
    if m.callback.Running? && !m.lost then m.(renewal := Sleeping)
    else if m.callback.Running? then m.(renewal := Stopped)
    else WindDown(m.(renewal := Stopped))
  }

  function Renew(m: Managed): Managed {
    var called := m.(lease := Call(m.lease, Extend));
    if called.lease.queue == [] then RenewalOver(called.(lost := true)) else called.(renewal := Extending)
  }

  function ReplyTo(m: Managed, reply: Reply): Managed
    requires m.lease.queue != []
  {
    var answered := m.(lease := Answer(m.lease, reply));
    if m.stage.Releasing? then Conclude(answered, reply.Refuse?)
    else RenewalOver(answered.(lost := m.lost || reply.Refuse?))
  }

  function EndCallback(m: Managed, callback: Callback): Managed {
    var ended := m.(callback := callback, lease := Record(m.lease, CallbackSettled));
    if m.renewal.Extending? then ended else WindDown(ended.(renewal := Stopped))
  }

  predicate Enabled(m: Managed, e: Event) {
    match e
    case RenewalDue => m.stage.Executing? && m.renewal.Sleeping? && m.callback.Running?
    case Replied(_) => (m.stage.Executing? || m.stage.Releasing?) && m.lease.queue != []
    case ConnectionLost => m.stage.Executing? || m.stage.Releasing?
    case CallerAborts => m.stage.Executing? || m.stage.Releasing?
    case CallbackEnds(callback) => m.stage.Executing? && m.callback.Running? && !callback.Running?
  }

  function Step(m: Managed, e: Event): Managed {
    if !Enabled(m, e) then m
    else match e
      case RenewalDue => Renew(m)
      case Replied(reply) => ReplyTo(m, reply)
      case ConnectionLost => m.(lease := Disconnect(m.lease), lost := m.lost || m.callback.Running?)
      case CallerAborts => m.(aborted := true, lease := Record(m.lease, CallerAborted))
      case CallbackEnds(callback) => EndCallback(m, callback)
  }

  function Run(token: nat, events: seq<Event>): Managed {
    if events == [] then Start(token)
    else Step(Run(token, events[..|events| - 1]), events[|events| - 1])
  }

  // ---------- When it resolves ----------

  /** The connection was lost while the callback still ran. */
  predicate CutOff(history: History) {
    history.Then? && ((history.note.Disconnected? && !Seen(history.past, CallbackSettled)) || CutOff(history.past))
  }

  predicate Succeeded(m: Managed) {
    && !m.lost && !m.aborted && Seen(m.lease.history, ReleaseConfirmed)
    && (m.callback.Returned? || m.callback == Threw(Undefined))
  }

  ghost predicate Accounted(m: Managed) {
    var history := m.lease.history;
    && Sound(m.lease) && |m.lease.queue| <= 1
    && (m.lost <==> Seen(history, RenewRefused) || CutOff(history))
    && (m.aborted <==> Seen(history, CallerAborted))
    && (m.callback.Running? <==> !Seen(history, CallbackSettled))
    && (m.stage.Executing? ==>
          && !Seen(history, ReleaseConfirmed)
          && (m.renewal.Extending? <==> m.lease.queue == [Extend])
          && (m.renewal.Extending? || m.lease.queue == [])
          && (m.callback.Running? || m.renewal.Extending?)
          && (Over(history) && m.callback.Running? ==> m.lost))
    && (m.stage.Releasing? ==> m.lease.queue == [Release] && !Seen(history, ReleaseConfirmed) && !m.lost && !m.callback.Running?)
    && (m.stage.Resolved? || m.stage.Rejected? ==> !m.callback.Running?)
    && (m.stage.Resolved? ==> Succeeded(m))
    && (m.stage.Rejected? ==> !Succeeded(m))
  }

  /** With nothing else queued, an operation is sent at once, or fails at once on a closed handle. */
  lemma CallWhenIdle(h: Handle, op: Op)
    requires h.queue == []
    ensures var n := Call(h, op);
            if h.closed then n.queue == [] && n.history == h.history && n.closed
            else n.queue == [op] && n.history == Then(h.history, if op.Extend? then SentRenew(h.token) else SentRelease(h.token))
  {
    var queued := h.(queue := h.queue + [op], asked := h.asked + [op]);
    var rest := queued.(queue := queued.queue[1..], outcomes := h.outcomes + [Invalid]);
    assert queued.queue == [op] && rest.queue == [];
    assert Call(h, op) == Begin(queued) && Begin(rest) == rest;
  }

  lemma AnswerToOne(h: Handle, reply: Reply)
    requires |h.queue| == 1
    ensures Answer(h, reply).queue == []
    ensures Answer(h, reply).history ==
            Then(h.history, if h.queue[0].Extend? then (if reply.Accept? then Granted(reply.token) else RenewRefused)
                            else if reply.Accept? then ReleaseConfirmed else ReleaseRefused)
  {
  }

  lemma RenewAccounted(m: Managed)
    requires Accounted(m) && Enabled(m, RenewalDue)
    ensures Accounted(Renew(m))
  {
    CallSound(m.lease, Extend);
    CallWhenIdle(m.lease, Extend);
  }

  /** The callback has settled and no renewal is under way. */
  ghost predicate Winding(m: Managed) {
    var history := m.lease.history;
    && Sound(m.lease) && m.lease.queue == []
    && (m.lost <==> Seen(history, RenewRefused) || CutOff(history))
    && (m.aborted <==> Seen(history, CallerAborted))
    && !m.callback.Running? && Seen(history, CallbackSettled)
    && m.stage.Executing? && !Seen(history, ReleaseConfirmed)
  }

  lemma WindDownAccounted(m: Managed)
    requires Winding(m)
    ensures Accounted(WindDown(m))
  {
    CallSound(m.lease, Release);
    CallWhenIdle(m.lease, Release);
  }

  lemma ReplyAccounted(m: Managed, reply: Reply)
    requires Accounted(m) && Enabled(m, Replied(reply))
    ensures Accounted(ReplyTo(m, reply))
  {
    AnswerSound(m.lease, reply);
    AnswerToOne(m.lease, reply);
    var answered := m.(lease := Answer(m.lease, reply), lost := m.lost || reply.Refuse?, renewal := Stopped);
    if m.stage.Executing? && !m.callback.Running? {
      WindDownAccounted(answered);
    }
  }

  lemma EndCallbackAccounted(m: Managed, callback: Callback)
    requires Accounted(m) && Enabled(m, CallbackEnds(callback))
    ensures Accounted(EndCallback(m, callback))
  {
    var ended := m.(callback := callback, lease := Record(m.lease, CallbackSettled));
    if !m.renewal.Extending? {
      WindDownAccounted(ended.(renewal := Stopped));
    }
  }

  lemma StepAccounted(m: Managed, e: Event)
    requires Accounted(m)
    ensures Accounted(Step(m, e))
  {
    if Enabled(m, e) {
      match e
      case RenewalDue => RenewAccounted(m);
      case Replied(reply) => ReplyAccounted(m, reply);
      case ConnectionLost =>
      case CallerAborts =>
      case CallbackEnds(callback) => EndCallbackAccounted(m, callback);
    }
  }

  lemma {:induction false} RunAccounted(token: nat, events: seq<Event>)
    ensures Accounted(Run(token, events))
  {
    if events != [] {
      RunAccounted(token, events[..|events| - 1]);
      StepAccounted(Run(token, events[..|events| - 1]), events[|events| - 1]);
    }
  }

  /**
   When the managed execution is over, it has resolved if and only if no renewal was refused, the
   connection was not lost while the callback ran, the broker confirmed the release, the caller did not
   abort, and the callback returned or threw `undefined`.
   */
  lemma {:induction false} ResolvesIff(token: nat, events: seq<Event>)
    requires Run(token, events).stage.Resolved? || Run(token, events).stage.Rejected?
    ensures var m := Run(token, events);
            var history := m.lease.history;
            m.stage.Resolved? <==>
              && !Seen(history, RenewRefused) && !CutOff(history)
              && Seen(history, ReleaseConfirmed) && !Seen(history, CallerAborted)
              && (m.callback.Returned? || m.callback == Threw(Undefined))
  {
    RunAccounted(token, events);
  }

  /** A failure that is hidden: the callback throws `undefined`, the release is confirmed, and the whole resolves. */
  lemma ThrowHidden(token: nat, fresher: nat)
    ensures var m := Run(token, [CallbackEnds(Threw(Undefined)), Replied(Accept(fresher))]);
            m.stage.Resolved? && m.callback == Threw(Undefined)
  {
    var events := [CallbackEnds(Threw(Undefined)), Replied(Accept(fresher))];
    assert events[..1] == [CallbackEnds(Threw(Undefined))] && events[..1][..0] == [];
    assert Run(token, events[..1][..0]) == Start(token);
    var ended := Start(token).(callback := Threw(Undefined), lease := Record(Fresh(token), CallbackSettled), renewal := Stopped);
    CallWhenIdle(ended.lease, Release);
    assert Run(token, events[..1]) == WindDown(ended);
  }

  /** The frames of a managed execution obey the discipline of the handle. */
  lemma {:induction false} ManagedFramesDisciplined(token: nat, events: seq<Event>)
    ensures Disciplined(Run(token, events).lease.history)
  {
    RunAccounted(token, events);
  }
}
