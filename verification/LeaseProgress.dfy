/**
 What the calls of a lease handle come to, and that a managed execution renews, releases and records as it should.
 The history of a handle is tied to the events that happened and to what the callers are told.
 */
module LeaseProgress {
  import opened LeaseModel

  // ---------- The calls of a handle ----------

  /** The operations sent, in order. */
  function SentOps(history: History): seq<Op> {
    match history
    case Acquired(_) => []
    case Then(past, SentRenew(_)) => SentOps(past) + [Extend]
    case Then(past, SentRelease(_)) => SentOps(past) + [Release]
    case Then(past, _) => SentOps(past)
  }

  /** The answers of the broker, in order. */
  function AnswersIn(history: History): seq<Outcome> {
    match history
    case Acquired(_) => []
    case Then(past, Granted(_)) => AnswersIn(past) + [Done]
    case Then(past, ReleaseConfirmed) => AnswersIn(past) + [Done]
    case Then(past, RenewRefused) => AnswersIn(past) + [Refused]
    case Then(past, ReleaseRefused) => AnswersIn(past) + [Refused]
    case Then(past, _) => AnswersIn(past)
  }

  /** The outcomes of the calls that were sent. */
  function Valid(outcomes: seq<Outcome>): seq<Outcome> {
    if outcomes == [] then []
    else Valid(outcomes[..|outcomes| - 1])
         + if outcomes[|outcomes| - 1].Invalid? then [] else [outcomes[|outcomes| - 1]]
  }

  /** The calls that were sent, of those settled. */
  function SentOf(asked: seq<Op>, outcomes: seq<Outcome>): seq<Op>
    requires |outcomes| <= |asked|
  {
    if outcomes == [] then []
    else
      var n := |outcomes| - 1;
      SentOf(asked, outcomes[..n]) + if outcomes[n].Invalid? then [] else [asked[n]]
  }

  /** Each call was sent and told the answer to it, or failed without being sent, once the lease was over. */
  ghost predicate Told(h: Handle) {
    && Faithful(h) && (Unanswered(h.history) ==> h.queue != [])
    && AnswersIn(h.history) == Valid(h.outcomes)
    && SentOps(h.history) == SentOf(h.asked, h.outcomes) + (if Unanswered(h.history) then h.queue[..1] else [])
    && (Outcome.Invalid in h.outcomes ==> Over(h.history))
  }

  lemma OneMoreOutcome(asked: seq<Op>, outcomes: seq<Outcome>, o: Outcome)
    requires |outcomes| < |asked|
    ensures Valid(outcomes + [o]) == Valid(outcomes) + if o.Invalid? then [] else [o]
    ensures SentOf(asked, outcomes + [o]) == SentOf(asked, outcomes) + if o.Invalid? then [] else [asked[|outcomes|]]
  {
    assert (outcomes + [o])[..|outcomes|] == outcomes;
  }

  lemma {:induction false} MoreAsked(asked: seq<Op>, outcomes: seq<Outcome>, op: Op)
    requires |outcomes| <= |asked|
    ensures SentOf(asked + [op], outcomes) == SentOf(asked, outcomes)
  {
    if outcomes != [] {
      MoreAsked(asked, outcomes[..|outcomes| - 1], op);
    }
  }

  lemma {:induction false} BeginTold(h: Handle)
    requires Ready(h) && Told(h)
    ensures Told(Begin(h))
    decreases |h.queue|
  {
    BeginFaithful(h);
    if h.queue != [] && h.closed {
      OneMoreOutcome(h.asked, h.outcomes, Invalid);
      BeginTold(h.(queue := h.queue[1..], outcomes := h.outcomes + [Invalid]));
    } else if h.queue != [] {
      assert h.queue[..1] == [h.queue[0]];
    }
  }

  lemma CallTold(h: Handle, op: Op)
    requires Sound(h) && Told(h)
    ensures Told(Call(h, op))
  {
    var queued := h.(queue := h.queue + [op], asked := h.asked + [op]);
    MoreAsked(h.asked, h.outcomes, op);
    assert queued.queue == queued.asked[|h.outcomes|..];
    if h.queue == [] {
      BeginTold(queued);
    } else {
      assert queued.queue[..1] == h.queue[..1];
    }
  }

  /** The first call is told the answer that just came. */
  lemma SettleTold(h: Handle, h1: Handle, outcome: Outcome)
    requires Sound(h) && Told(h) && h.queue != [] && Ready(h1) && h1.queue == h.queue
    requires h1.asked == h.asked && h1.outcomes == h.outcomes && !outcome.Invalid?
    requires AnswersIn(h1.history) == AnswersIn(h.history) + [outcome] && SentOps(h1.history) == SentOps(h.history)
    requires Over(h.history) ==> Over(h1.history)
    ensures Told(Settle(h1, outcome))
  {
    OneMoreOutcome(h.asked, h.outcomes, outcome);
    assert h.queue[..1] == [h.asked[|h.outcomes|]];
    BeginTold(h1.(queue := h1.queue[1..], outcomes := h1.outcomes + [outcome]));
  }

  lemma AnswerTold(h: Handle, reply: Reply)
    requires Sound(h) && Told(h) && h.queue != []
    ensures Told(Answer(h, reply))
  {
    match (h.queue[0], reply)
    case (Extend, Accept(token)) => SettleTold(h, Record(h.(token := token), Granted(token)), Done);
    case (Extend, Refuse) => SettleTold(h, Record(h.(closed := true), RenewRefused), Refused);
    case (Release, Accept(_)) => SettleTold(h, Record(h, ReleaseConfirmed), Done);
    case (Release, Refuse) => SettleTold(h, Record(h, ReleaseRefused), Refused);
  }

  /** A drop of the connection is among the events. */
  predicate Dropped(events: seq<HandleEvent>) {
    events != [] && (events[|events| - 1].Drops? || Dropped(events[..|events| - 1]))
  }

  lemma {:induction false} BeginAddsNoDrop(h: Handle)
    ensures Seen(Begin(h).history, Disconnected) <==> Seen(h.history, Disconnected)
    decreases |h.queue|
  {
    if h.queue != [] && h.closed {
      BeginAddsNoDrop(h.(queue := h.queue[1..], outcomes := h.outcomes + [Invalid]));
    }
  }

  lemma StepNotesDrop(h: Handle, e: HandleEvent)
    ensures Seen(HandleStep(h, e).history, Disconnected) <==> e.Drops? || Seen(h.history, Disconnected)
  {
    match e
    case Calls(op) => BeginAddsNoDrop(h.(queue := h.queue + [op], asked := h.asked + [op]));
    case Answers(reply) =>
      if h.queue != [] {
        match (h.queue[0], reply)
        case (Extend, Accept(token)) =>
          BeginAddsNoDrop(Record(h.(token := token), Granted(token)).(queue := h.queue[1..], outcomes := h.outcomes + [Done]));
        case (Extend, Refuse) =>
          BeginAddsNoDrop(Record(h.(closed := true), RenewRefused).(queue := h.queue[1..], outcomes := h.outcomes + [Refused]));
        case (Release, Accept(_)) =>
          BeginAddsNoDrop(Record(h, ReleaseConfirmed).(queue := h.queue[1..], outcomes := h.outcomes + [Done]));
        case (Release, Refuse) =>
          BeginAddsNoDrop(Record(h, ReleaseRefused).(queue := h.queue[1..], outcomes := h.outcomes + [Refused]));
      }
    case Drops =>
  }

  /**
   Whatever is called, answered or dropped, in any order: the operations sent are the calls that did not fail as
   invalid, in order, with the one under way last; those settled are told the broker's answers in order; and calls
   fail as invalid only on a lease that is over. A call waits only while another's frame is unanswered, and a drop of
   the connection is always noted.
   */
  lemma {:induction false} CallersAreTold(token: nat, events: seq<HandleEvent>)
    ensures var h := HandleRun(token, events);
            && |h.outcomes| <= |h.asked| && AnswersIn(h.history) == Valid(h.outcomes)
            && SentOps(h.history) == SentOf(h.asked, h.outcomes) + (if h.queue != [] then [h.queue[0]] else [])
            && (Outcome.Invalid in h.outcomes ==> Over(h.history))
            && (Seen(h.history, Disconnected) <==> Dropped(events))
  {
    RunTold(token, events);
    HandleRunSound(token, events);
    var h := HandleRun(token, events);
    assert h.queue != [] ==> h.queue[..1] == [h.queue[0]];
  }

  lemma {:induction false} RunTold(token: nat, events: seq<HandleEvent>)
    ensures Told(HandleRun(token, events))
    ensures Seen(HandleRun(token, events).history, Disconnected) <==> Dropped(events)
  {
    if events != [] {
      var h, e := HandleRun(token, events[..|events| - 1]), events[|events| - 1];
      RunTold(token, events[..|events| - 1]);
      HandleRunSound(token, events[..|events| - 1]);
      StepNotesDrop(h, e);
      match e
      case Calls(op) => CallTold(h, op);
      case Answers(reply) => if h.queue != [] { AnswerTold(h, reply); }
      case Drops =>
    }
  }

  // ---------- The managed execution ----------

  lemma {:induction false} RunSnoc(token: nat, events: seq<Event>, e: Event)
    ensures Run(token, events + [e]) == Step(Run(token, events), e)
  {
    assert (events + [e])[..|events|] == events;
  }

  /** In every run, a renewal that is due is sent with the latest token, unless the lease is over, which is then a loss. */
  lemma {:induction false} DueRenewalIsSent(token: nat, events: seq<Event>)
    requires Enabled(Run(token, events), RenewalDue)
    ensures var m, n := Run(token, events), Run(token, events + [RenewalDue]);
            var history := m.lease.history;
            if Over(history) then n.lost && n.lease.history == history && n.renewal == Stopped
            else n.lease.history == Then(history, SentRenew(LatestToken(history))) && n.renewal == Extending && n.lost == m.lost
  {
    RunAccounted(token, events);
    RunSnoc(token, events, RenewalDue);
    CallWhenIdle(Run(token, events).lease, Extend);
  }

  /** In every run, a renewal granted keeps the loop going while the callback runs, and one refused is a loss that ends it. */
  lemma {:induction false} RenewalGoesOnIff(token: nat, events: seq<Event>, reply: Reply)
    requires Run(token, events).renewal.Extending? && Run(token, events).stage.Executing?
    requires Run(token, events).callback.Running?
    ensures var m, n := Run(token, events), Run(token, events + [Replied(reply)]);
            && n.lease.history == Then(m.lease.history, if reply.Accept? then Granted(reply.token) else RenewRefused)
            && (n.lost <==> m.lost || reply.Refuse?)
            && n.stage.Executing? && (Enabled(n, RenewalDue) <==> !n.lost)
  {
    RunAccounted(token, events);
    RunSnoc(token, events, Replied(reply));
    AnswerToOne(Run(token, events).lease, reply);
  }

  /** The callback has ended and no renewal is under way: the lease is released with the latest token unless it is lost or over. */
  predicate Released(m: Managed, n: Managed, history: History) {
    if m.lost then n.lease.history == history && !n.stage.Executing? && !n.stage.Releasing?
    else if Over(history) then n.lease.history == history && n.stage.Rejected?
    else n.lease.history == Then(history, SentRelease(LatestToken(history))) && n.stage.Releasing?
  }

  lemma WindDownReleases(m: Managed)
    requires Winding(m)
    ensures Released(m, WindDown(m), m.lease.history)
  {
    CallWhenIdle(m.lease, Release);
  }

  /** In every run, the end of the callback releases the lease, at once or when the renewal under way is answered. */
  lemma {:induction false} CallbackEndReleases(token: nat, events: seq<Event>, callback: Callback)
    requires Enabled(Run(token, events), CallbackEnds(callback))
    ensures var m, n := Run(token, events), Run(token, events + [CallbackEnds(callback)]);
            var history := Then(m.lease.history, CallbackSettled);
            && n.callback == callback
            && (m.renewal.Extending? ==> n.lease.history == history && n.stage.Executing? && n.renewal.Extending?)
            && (!m.renewal.Extending? ==> Released(m, n, history))
  {
    var m := Run(token, events);
    RunAccounted(token, events);
    RunSnoc(token, events, CallbackEnds(callback));
    if !m.renewal.Extending? {
      WindDownReleases(m.(callback := callback, lease := Record(m.lease, CallbackSettled), renewal := Stopped));
    }
  }

  lemma {:induction false} LastReplyReleases(token: nat, events: seq<Event>, reply: Reply)
    requires Run(token, events).renewal.Extending? && Run(token, events).stage.Executing?
    requires !Run(token, events).callback.Running?
    ensures var m, n := Run(token, events), Run(token, events + [Replied(reply)]);
            var history := Then(m.lease.history, if reply.Accept? then Granted(reply.token) else RenewRefused);
            Released(m.(lost := m.lost || reply.Refuse?), n, history)
  {
    var m := Run(token, events);
    RunAccounted(token, events);
    RunSnoc(token, events, Replied(reply));
    AnswerSound(m.lease, reply);
    AnswerToOne(m.lease, reply);
    WindDownReleases(m.(lease := Answer(m.lease, reply), lost := m.lost || reply.Refuse?, renewal := Stopped));
  }

  /** The answer to the release ends the whole. */
  lemma {:induction false} ReleaseAnswerEnds(token: nat, events: seq<Event>, reply: Reply)
    requires Run(token, events).stage.Releasing?
    ensures var m, n := Run(token, events), Run(token, events + [Replied(reply)]);
            && n.lease.history == Then(m.lease.history, if reply.Accept? then ReleaseConfirmed else ReleaseRefused)
            && (n.stage.Resolved? || n.stage.Rejected?)
  {
    RunAccounted(token, events);
    RunSnoc(token, events, Replied(reply));
    AnswerToOne(Run(token, events).lease, reply);
  }

  predicate Going(m: Managed) {
    m.stage.Executing? || m.stage.Releasing?
  }

  /** Event k of the run happens while the execution goes on. */
  predicate HappensAt(token: nat, events: seq<Event>, k: nat, e: Event) {
    k < |events| && events[k] == e && Going(Run(token, events[..k]))
  }

  /** A note is new only as what the event is. */
  lemma StepNotes(m: Managed, e: Event)
    requires Accounted(m)
    ensures Seen(Step(m, e).lease.history, Disconnected) <==>
            Seen(m.lease.history, Disconnected) || (e.ConnectionLost? && Going(m))
    ensures Seen(Step(m, e).lease.history, CallerAborted) <==>
            Seen(m.lease.history, CallerAborted) || (e.CallerAborts? && Going(m))
  {
    if Enabled(m, e) {
      match e
      case RenewalDue => CallWhenIdle(m.lease, Extend);
      case Replied(reply) =>
        AnswerToOne(m.lease, reply);
        CallWhenIdle(Answer(m.lease, reply), Release);
      case CallbackEnds(_) =>
        if !m.renewal.Extending? {
          CallWhenIdle(Record(m.lease, CallbackSettled), Release);
        }
      case _ =>
    }
  }

  /** In every run, the history notes a lost connection and an abort of the caller exactly when they happened while it went on. */
  lemma {:induction false} HistoryNotes(token: nat, events: seq<Event>)
    ensures Seen(Run(token, events).lease.history, Disconnected) <==> exists k: nat :: HappensAt(token, events, k, ConnectionLost)
    ensures Seen(Run(token, events).lease.history, CallerAborted) <==> exists k: nat :: HappensAt(token, events, k, CallerAborts)
  {
    if events != [] {
      var n := |events| - 1;
      HistoryNotes(token, events[..n]);
      RunAccounted(token, events[..n]);
      StepNotes(Run(token, events[..n]), events[n]);
      HappensSnoc(token, events, n, ConnectionLost);
      HappensSnoc(token, events, n, CallerAborts);
    }
  }

  lemma {:induction false} HappensSnoc(token: nat, events: seq<Event>, n: nat, e: Event)
    requires |events| == n + 1
    ensures (exists k: nat :: HappensAt(token, events, k, e)) <==>
            (exists k: nat :: HappensAt(token, events[..n], k, e)) || (events[n] == e && Going(Run(token, events[..n])))
  {
    forall k: nat | k < n ensures HappensAt(token, events, k, e) <==> HappensAt(token, events[..n], k, e) {
      assert events[..n][..k] == events[..k];
    }
    assert HappensAt(token, events, n, e) <==> events[n] == e && Going(Run(token, events[..n]));
  }

  // ---------- How many failures are reported ----------

  /** The failures of a rejected execution: the loss, the callback's own, and the release, if it was tried and not confirmed. */
  function FailuresCounted(m: Managed): nat {
    var history := m.lease.history;
    var lost := Seen(history, RenewRefused) || CutOff(history);
    var excused := m.callback == Threw(AbortLike) && (lost || Seen(history, CallerAborted));
    (if lost then 1 else 0)
    + (if (m.callback == Threw(Genuine) || m.callback == Threw(AbortLike)) && !excused then 1 else 0)
    + (if !lost && !Seen(history, ReleaseConfirmed) then 1 else 0)
  }

  predicate Counted(m: Managed) {
    m.stage.Rejected? ==> m.stage.failures == FailuresCounted(m)
  }

  lemma WindDownCounts(m: Managed)
    requires Winding(m)
    ensures Counted(WindDown(m))
  {
    CallWhenIdle(m.lease, Release);
  }

  lemma StepCounts(m: Managed, e: Event)
    requires Accounted(m) && Counted(m)
    ensures Counted(Step(m, e))
  {
    if Enabled(m, e) {
      match e
      case RenewalDue => CallWhenIdle(m.lease, Extend);
      case Replied(reply) =>
        AnswerSound(m.lease, reply);
        AnswerToOne(m.lease, reply);
        if m.stage.Executing? && !m.callback.Running? {
          WindDownCounts(m.(lease := Answer(m.lease, reply), lost := m.lost || reply.Refuse?, renewal := Stopped));
        }
      case CallbackEnds(callback) =>
        if !m.renewal.Extending? {
          WindDownCounts(m.(callback := callback, lease := Record(m.lease, CallbackSettled), renewal := Stopped));
        }
      case _ =>
    }
  }

  /** In every run, a rejection reports each of the failures the history shows, and no other. */
  lemma {:induction false} RejectionCounts(token: nat, events: seq<Event>)
    requires Run(token, events).stage.Rejected?
    ensures Run(token, events).stage.failures == FailuresCounted(Run(token, events))
  {
    RunCounts(token, events);
  }

  lemma {:induction false} RunCounts(token: nat, events: seq<Event>)
    ensures Counted(Run(token, events))
  {
    if events != [] {
      RunCounts(token, events[..|events| - 1]);
      RunAccounted(token, events[..|events| - 1]);
      StepCounts(Run(token, events[..|events| - 1]), events[|events| - 1]);
    }
  }
}
