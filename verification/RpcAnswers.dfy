/**
 What the consumer of an RPC call is told, read off the history: which frames and which end come from next, how a
 cancellation is decided, and where the correlation buffer of a call goes.
 */
module RpcAnswers {
  import opened RpcModel

  // ---------- How a call ends ----------

  datatype Cause = NoEnd | StreamEnded | FailedWith(failure: Failure)

  /** How the event ends call k, if it does; a call that is over is not ended again. */
  function CauseOf(c: Client, e: Event, k: nat): Cause
    requires k < |c.calls|
  {
    if c.calls[k].it.done then NoEnd
    else match e
      case Response(j, _, streamEnd) => if j == k && streamEnd then StreamEnded else NoEnd
      case TerminalError(j) => if j == k then FailedWith(OtherError) else NoEnd
      case RequestFailed(j, failure) => if j == k && c.calls[k].sending.InFlight? then FailedWith(failure) else NoEnd
      case Disconnect => FailedWith(OtherError)
      case _ => NoEnd
  }

  /** The failure with which the event cancels call k, if it does. */
  function CancelledWith(c: Client, e: Event, k: nat): Reason
    requires k < |c.calls|
  {
    if c.calls[k].it.done then NoFailure
    else match e
      case Cancelled(j, failure) => if j == k then Because(failure) else NoFailure
      case NextCalled(j, aborted) => if j == k && aborted then Because(AbortError) else NoFailure
      case _ => NoFailure
  }

  /** What one event does to the end of a call. */
  ghost predicate EndFollows(c: Client, e: Event, n: Client, k: nat)
    requires k < |c.calls|
  {
    k < |n.calls| &&
    var it, was := n.calls[k].it, c.calls[k].it;
    match CauseOf(c, e, k)
    case StreamEnded => it.done && !it.cancelled && it.reason == NoFailure
    case FailedWith(failure) => it.done && !it.cancelled && it.reason == Because(failure)
    case NoEnd =>
      if CancelledWith(c, e, k).Because?
      then it.done && it.cancelled && it.buffer == [] && it.reason == CancelledWith(c, e, k)
      else && it.done == was.done && it.cancelled == was.cancelled && it.reason == was.reason
           && (was.done && was.buffer == [] ==> it.buffer == [])
  }

  lemma {:induction false} FailPendingEnds(c: Client, k: nat, j: nat)
    requires k <= |c.calls| && j < |c.calls|
    ensures var n := FailPending(c, k);
            && n.calls[j] == (if j < k && j in c.pending && !c.calls[j].it.done
                              then c.calls[j].(it := Fail(c.calls[j].it, OtherError)) else c.calls[j])
            && (j in n.pending <==> j in c.pending && !(j < k && !c.calls[j].it.done))
            && n.cancellations == c.cancellations
  {
    if k > 0 {
      FailPendingEnds(c, k - 1, j);
      FailPendingEnds(c, k - 1, k - 1);
    }
  }

  lemma DisconnectEnds(c: Client, k: nat)
    requires Sound(c) && k < |c.calls|
    ensures EndFollows(c, Disconnect, Step(c, Disconnect), k)
  {
    assert CallOk(c, k);
    FailPendingEnds(c, |c.calls|, k);
  }

  lemma ResponseEnds(c: Client, e: Event, k: nat)
    requires Sound(c) && k < |c.calls| && (e.Response? || e.TerminalError?)
    ensures EndFollows(c, e, Step(c, e), k)
  {
    assert CallOk(c, k) && Whole(c.calls[k].it);
  }

  lemma FailureEnds(c: Client, e: Event, k: nat)
    requires Sound(c) && k < |c.calls| && e.RequestFailed?
    ensures EndFollows(c, e, Step(c, e), k)
  {
    assert CallOk(c, k) && Whole(c.calls[k].it);
  }

  lemma CancelEnds(c: Client, e: Event, k: nat)
    requires Sound(c) && k < |c.calls| && e.Cancelled?
    ensures EndFollows(c, e, Step(c, e), k)
  {
    assert CallOk(c, k) && Whole(c.calls[k].it);
  }

  lemma NextAloneEnds(c: Client, j: nat, k: nat)
    requires Sound(c) && k < |c.calls| && j < |c.calls|
    ensures var n := SetIt(c, j, AfterNext(c.calls[j].it));
            var it, was := n.calls[k].it, c.calls[k].it;
            && it.done == was.done && it.cancelled == was.cancelled && it.reason == was.reason
            && (was.done && was.buffer == [] ==> it.buffer == [])
  {
  }

  lemma NextAbortedEnds(c: Client, j: nat, k: nat)
    requires Sound(c) && k < |c.calls| && j < |c.calls|
    ensures EndFollows(c, NextCalled(j, true), CallNext(c, j, true), k)
  {
    CancelSound(c, j, AbortError);
    CancelEnds(c, Cancelled(j, AbortError), k);
    NextAloneEnds(CancelCall(c, j, AbortError), j, k);
  }

  lemma NextPlainEnds(c: Client, j: nat, k: nat)
    requires Sound(c) && k < |c.calls| && j < |c.calls|
    ensures EndFollows(c, NextCalled(j, false), CallNext(c, j, false), k)
  {
    NextAloneEnds(c, j, k);
  }

  lemma NextEnds(c: Client, e: Event, k: nat)
    requires Sound(c) && k < |c.calls| && e.NextCalled?
    ensures EndFollows(c, e, Step(c, e), k)
  {
    if e.k < |c.calls| {
      NextStep(c, e.k, e.aborted);
      if e.aborted {
        NextAbortedEnds(c, e.k, k);
      } else {
        NextPlainEnds(c, e.k, k);
      }
    }
  }

  lemma WrittenEnds(c: Client, e: Event, k: nat)
    requires Sound(c) && k < |c.calls| && (e.RequestWritten? || e.Start?)
    ensures EndFollows(c, e, Step(c, e), k)
  {
    assert CallOk(c, k) && Whole(c.calls[k].it);
  }

  lemma SettlingEnds(c: Client, e: Event, k: nat)
    requires Sound(c) && k < |c.calls| && (e.CancellationSettled? || e.ReaderRejected?)
    ensures EndFollows(c, e, Step(c, e), k)
  {
    assert CallOk(c, k) && Whole(c.calls[k].it);
  }

  lemma StepEnds(c: Client, e: Event, k: nat)
    requires Sound(c) && k < |c.calls|
    ensures EndFollows(c, e, Step(c, e), k)
  {
    match e
    case Start(_, _) => WrittenEnds(c, e, k);
    case RequestWritten(_) => WrittenEnds(c, e, k);
    case RequestFailed(_, _) => FailureEnds(c, e, k);
    case Response(_, _, _) => ResponseEnds(c, e, k);
    case TerminalError(_) => ResponseEnds(c, e, k);
    case Cancelled(_, _) => CancelEnds(c, e, k);
    case NextCalled(_, _) => NextEnds(c, e, k);
    case Disconnect => DisconnectEnds(c, k);
    case _ => SettlingEnds(c, e, k);
  }

  lemma {:induction false} RunEnds(events: seq<Event>, n: nat, k: nat)
    requires n < |events| && k < |Run(events[..n]).calls|
    ensures EndFollows(Run(events[..n]), events[n], Run(events[..n + 1]), k)
  {
    RunSound(events[..n]);
    StepEnds(Run(events[..n]), events[n], k);
    assert events[..n + 1][..n] == events[..n];
  }

  /** A new call is not over, unless its signal was aborted before it began. */
  lemma StartBegins(c: Client, supportsCancellation: bool, aborted: bool)
    ensures var n := StartCall(c, supportsCancellation, aborted);
            && |n.calls| == |c.calls| + 1 && (|c.calls| !in c.cancellations ==> n.cancellations == c.cancellations)
            && var it := n.calls[|c.calls|].it;
               if aborted then CancelsWith(it, AbortError) && it.outcome == RequestNotSent else it == NEW
  {
    var started := Registered(c, supportsCancellation);
    var k := |c.calls|;
    assert started.calls[k].it == NEW && started.calls[k].sending.InFlight?;
  }

  lemma OnlyStartAdds(c: Client, e: Event)
    requires !e.Start?
    ensures |Step(c, e).calls| == |c.calls|
  {
  }

  lemma CallBegins(c: Client, e: Event, k: nat)
    requires |c.calls| <= k < |Step(c, e).calls|
    ensures e.Start? && k == |c.calls|
    ensures var it := Step(c, e).calls[k].it;
            if e.aborted then CancelsWith(it, AbortError) && it.outcome == RequestNotSent else it == NEW
    ensures |c.calls| !in c.cancellations ==> Step(c, e).cancellations == c.cancellations
  {
    if e.Start? {
      StartBegins(c, e.supportsCancellation, e.aborted);
    } else {
      OnlyStartAdds(c, e);
    }
  }

  predicate EndedAt(events: seq<Event>, i: nat, k: nat, cause: Cause) {
    i < |events| && k < |Run(events[..i]).calls| && CauseOf(Run(events[..i]), events[i], k) == cause != NoEnd
  }

  /** Event i cancels the call, or starts it with a signal aborted already. */
  predicate CancelledAt(events: seq<Event>, i: nat, k: nat, failure: Failure) {
    && i < |events|
    && if k < |Run(events[..i]).calls| then CancelledWith(Run(events[..i]), events[i], k) == Because(failure)
       else events[i].Start? && events[i].aborted && k == |Run(events[..i]).calls| && failure == AbortError
  }

  /** What the iterator of a call remembers of its end. */
  predicate EndsWith(it: Iterator, cause: Cause) {
    match cause
    case NoEnd => !it.done
    case StreamEnded => it.done && !it.cancelled && it.reason == NoFailure
    case FailedWith(failure) => it.done && !it.cancelled && it.reason == Because(failure)
  }

  predicate CancelsWith(it: Iterator, failure: Failure) {
    it.done && it.cancelled && it.buffer == [] && it.reason == Because(failure)
  }

  lemma {:induction false} EndStays(events: seq<Event>, i: nat, n: nat, k: nat, cause: Cause)
    requires i < n <= |events| && EndedAt(events, i, k, cause)
    ensures k < |Run(events[..n]).calls| && EndsWith(Run(events[..n]).calls[k].it, cause)
  {
    if i < n - 1 {
      EndStays(events, i, n - 1, k, cause);
    }
    RunEnds(events, n - 1, k);
  }

  lemma {:induction false} CancelStays(events: seq<Event>, i: nat, n: nat, k: nat, failure: Failure)
    requires i < n <= |events| && CancelledAt(events, i, k, failure)
    ensures k < |Run(events[..n]).calls| && CancelsWith(Run(events[..n]).calls[k].it, failure)
  {
    if i < n - 1 {
      CancelStays(events, i, n - 1, k, failure);
    }
    if k < |Run(events[..n - 1]).calls| {
      RunEnds(events, n - 1, k);
    } else {
      assert events[..n][..n - 1] == events[..n - 1];
      CallBegins(Run(events[..n - 1]), events[n - 1], k);
    }
  }

  /** How a call came to be over. */
  ghost predicate OverSince(events: seq<Event>, i: nat, k: nat, it: Iterator) {
    if it.cancelled then it.reason.Because? && CancelledAt(events, i, k, it.reason.failure)
    else EndedAt(events, i, k, if it.reason.Because? then FailedWith(it.reason.failure) else StreamEnded)
  }

  lemma {:induction false} EndFound(events: seq<Event>, n: nat, k: nat) returns (i: nat)
    requires n <= |events| && k < |Run(events[..n]).calls| && Run(events[..n]).calls[k].it.done
    ensures OverSince(events, i, k, Run(events[..n]).calls[k].it)
  {
    assert events[..0] == [] && n > 0;
    var c := Run(events[..n - 1]);
    assert events[..n][..n - 1] == events[..n - 1];
    if k >= |c.calls| {
      CallBegins(c, events[n - 1], k);
      i := n - 1;
    } else {
      RunEnds(events, n - 1, k);
      if c.calls[k].it.done {
        i := EndFound(events, n - 1, k);
      } else {
        i := n - 1;
      }
    }
  }

  /** In every run, a call ended in a way, or was cancelled, exactly when some event did that to it. */
  lemma {:induction false} EndIff(events: seq<Event>, k: nat, cause: Cause)
    requires k < |Run(events).calls| && cause != NoEnd
    ensures EndsWith(Run(events).calls[k].it, cause) <==> exists i: nat :: EndedAt(events, i, k, cause)
  {
    assert events[..|events|] == events;
    forall i: nat | EndedAt(events, i, k, cause) ensures EndsWith(Run(events).calls[k].it, cause) {
      EndStays(events, i, |events|, k, cause);
    }
    if EndsWith(Run(events).calls[k].it, cause) {
      var i := EndFound(events, |events|, k);
    }
  }

  lemma {:induction false} CancelIff(events: seq<Event>, k: nat, failure: Failure)
    requires k < |Run(events).calls|
    ensures CancelsWith(Run(events).calls[k].it, failure) <==> exists i: nat :: CancelledAt(events, i, k, failure)
  {
    assert events[..|events|] == events;
    forall i: nat | CancelledAt(events, i, k, failure) ensures CancelsWith(Run(events).calls[k].it, failure) {
      CancelStays(events, i, |events|, k, failure);
    }
    if CancelsWith(Run(events).calls[k].it, failure) {
      var i := EndFound(events, |events|, k);
    }
  }

  ghost predicate Ended(events: seq<Event>, k: nat, cause: Cause) {
    exists i: nat :: EndedAt(events, i, k, cause)
  }

  /**
   In every run, what next answers for a call that was not cancelled: the first frame not yet handed out; once
   they all are, `Finished` if and only if the stream ended without an error, and the failure if and only if a
   terminal error, a failed request or a disconnect ended it with that; otherwise it waits. A failure that is an
   AbortError is told at once.
   */
  lemma {:induction false} NextAnswers(events: seq<Event>, k: nat, failure: Failure)
    requires k < |Run(events).calls| && !Run(events).calls[k].it.cancelled
    ensures var it := Run(events).calls[k].it;
            var answer, drained := NextResult(it), it.delivered == it.received;
            && (answer == Finished <==> drained && Ended(events, k, StreamEnded))
            && (answer == Throws(failure) <==> (drained || failure == AbortError) && Ended(events, k, FailedWith(failure)))
            && (answer.Waits? ==> drained)
            && (answer.Value? ==> it.delivered + [answer.frame] <= it.received)
  {
    var it := Run(events).calls[k].it;
    RunSound(events);
    assert Whole(it);
    EndIff(events, k, StreamEnded);
    EndIff(events, k, FailedWith(failure));
    assert it.delivered == it.received <==> it.buffer == [];
    if it.buffer != [] {
      assert it.received == (it.delivered + [it.buffer[0]]) + it.buffer[1..];
    }
  }

  /** A cancelled call answers with what cancelled it. */
  lemma {:induction false} CancelledAnswers(events: seq<Event>, k: nat, failure: Failure)
    requires k < |Run(events).calls| && Run(events).calls[k].it.cancelled
    ensures NextResult(Run(events).calls[k].it) == Throws(failure) <==> exists i: nat :: CancelledAt(events, i, k, failure)
  {
    RunSound(events);
    assert Whole(Run(events).calls[k].it);
    assert events[..|events|] == events;
    var i := EndFound(events, |events|, k);
    CancelIff(events, k, Run(events).calls[k].it.reason.failure);
    CancelIff(events, k, failure);
  }

  // ---------- What next does ----------

  /**
   In every run, a call of next that answers with a frame hands that one over; one that waits is given the next frame
   that comes; one that tells the end changes nothing else.
   */
  lemma {:induction false} NextHandsOver(events: seq<Event>, k: nat, body: Frame)
    requires k < |Run(events).calls|
    ensures var it, n := Run(events).calls[k].it, Run(events + [NextCalled(k, false)]).calls[k].it;
            && n.received == it.received
            && n.delivered == (if NextResult(it).Value? then it.delivered + [NextResult(it).frame] else it.delivered)
            && (n.waiting <==> it.waiting || NextResult(it).Waits?)
            && (n.reported <==> it.reported || NextResult(it).Finished? || NextResult(it).Throws?)
    ensures var it, n := Run(events).calls[k].it, Run(events + [Response(k, body, false)]).calls[k].it;
            it.waiting ==> n.delivered == it.delivered + [body] && !n.waiting
  {
    RunSound(events);
    assert CallOk(Run(events), k) && Whole(Run(events).calls[k].it);
    Appended(events, NextCalled(k, false));
    Appended(events, Response(k, body, false));
  }

  lemma {:induction false} Appended(events: seq<Event>, e: Event)
    ensures Run(events + [e]) == Step(Run(events), e)
  {
    assert (events + [e])[..|events|] == events;
  }

  // ---------- How a cancellation is decided ----------

  /** Whether the request was sent, after the event. */
  function SendingAfter(c: Client, e: Event, k: nat): Sending
    requires k < |c.calls|
  {
    if !c.calls[k].sending.InFlight? then c.calls[k].sending
    else match e
      case RequestWritten(j) => if j == k then Sending.Written(true) else InFlight
      case RequestFailed(j, _) => if j == k then Sending.Written(false) else InFlight
      case _ => InFlight
  }

  /** What the event decides for call k, should its outcome be open; `Undecided` if nothing. */
  function Decision(c: Client, e: Event, k: nat): Outcome
    requires k < |c.calls|
  {
    var call := c.calls[k];
    if !call.it.cancelled && CancelledWith(c, e, k).NoFailure? then
      if CauseOf(c, e, k).NoEnd? then Undecided else NotRequested
    else
      match SendingAfter(c, e, k)
      case InFlight => Undecided
      case Written(ok) =>
        if !ok then RequestNotSent
        else if !call.supportsCancellation then Unsupported
        else match e
          case CancellationSettled(j, outcome) =>
            if j == k && call.it.cancelled && !outcome.NotRequested? then outcome else Undecided
          case Disconnect => if call.it.cancelled then ConnectionClosed else Undecided
          case _ => Undecided
  }

  /** A cancellation is sent only for a request that was written to a worker that supports it. */
  predicate Asked(c: Client, k: nat) {
    k in c.cancellations ==> k < |c.calls| && c.calls[k].sending == Sending.Written(true) && c.calls[k].supportsCancellation
  }

  ghost predicate AllAsked(c: Client) {
    forall k :: k in c.cancellations ==> Asked(c, k)
  }

  ghost predicate DecisionFollows(c: Client, e: Event, n: Client, k: nat)
    requires k < |c.calls|
  {
    && k < |n.calls| && n.calls[k].sending == SendingAfter(c, e, k)
    && n.calls[k].supportsCancellation == c.calls[k].supportsCancellation
    && (c.calls[k].it.outcome.Undecided? ==> n.calls[k].it.outcome == Decision(c, e, k))
  }

  lemma DisconnectDecides(c: Client, k: nat)
    requires Sound(c) && Asked(c, k) && k < |c.calls|
    ensures DecisionFollows(c, Disconnect, Step(c, Disconnect), k) && Asked(Step(c, Disconnect), k)
  {
    assert CallOk(c, k) && Whole(c.calls[k].it);
    FailPendingEnds(c, |c.calls|, k);
  }

  lemma ResponseDecides(c: Client, e: Event, k: nat)
    requires Sound(c) && Asked(c, k) && k < |c.calls| && (e.Response? || e.TerminalError?)
    ensures DecisionFollows(c, e, Step(c, e), k) && Asked(Step(c, e), k)
  {
    assert CallOk(c, k) && Whole(c.calls[k].it);
  }

  lemma FailureDecides(c: Client, e: Event, k: nat)
    requires Sound(c) && Asked(c, k) && k < |c.calls| && e.RequestFailed?
    ensures DecisionFollows(c, e, Step(c, e), k) && Asked(Step(c, e), k)
  {
    assert CallOk(c, k) && Whole(c.calls[k].it);
  }

  lemma CancelDecides(c: Client, e: Event, k: nat)
    requires Sound(c) && Asked(c, k) && k < |c.calls| && e.Cancelled?
    ensures DecisionFollows(c, e, Step(c, e), k) && Asked(Step(c, e), k)
  {
    assert CallOk(c, k) && Whole(c.calls[k].it);
  }

  lemma NextAloneDecides(c: Client, j: nat, k: nat)
    requires k < |c.calls| && j < |c.calls|
    ensures var n := SetIt(c, j, AfterNext(c.calls[j].it));
            && n.calls[k].(it := NEW) == c.calls[k].(it := NEW) && n.calls[k].it.outcome == c.calls[k].it.outcome
            && n.cancellations == c.cancellations
  {
  }

  lemma NextAbortedDecides(c: Client, j: nat, k: nat)
    requires Sound(c) && Asked(c, k) && k < |c.calls| && j < |c.calls|
    ensures DecisionFollows(c, NextCalled(j, true), CallNext(c, j, true), k) && Asked(CallNext(c, j, true), k)
  {
    CancelDecides(c, Cancelled(j, AbortError), k);
    NextAloneDecides(CancelCall(c, j, AbortError), j, k);
  }

  lemma NextPlainDecides(c: Client, j: nat, k: nat)
    requires Sound(c) && Asked(c, k) && k < |c.calls| && j < |c.calls|
    ensures DecisionFollows(c, NextCalled(j, false), CallNext(c, j, false), k) && Asked(CallNext(c, j, false), k)
  {
    assert CallOk(c, k) && Whole(c.calls[k].it);
    NextAloneDecides(c, j, k);
  }

  lemma NextDecides(c: Client, e: Event, k: nat)
    requires Sound(c) && Asked(c, k) && k < |c.calls| && e.NextCalled?
    ensures DecisionFollows(c, e, Step(c, e), k) && Asked(Step(c, e), k)
  {
    assert CallOk(c, k) && Whole(c.calls[k].it);
    if e.k < |c.calls| {
      NextStep(c, e.k, e.aborted);
      if e.aborted {
        NextAbortedDecides(c, e.k, k);
      } else {
        NextPlainDecides(c, e.k, k);
      }
    }
  }

  lemma StartDecides(c: Client, e: Event, k: nat)
    requires Sound(c) && Asked(c, k) && k < |c.calls| && e.Start?
    ensures DecisionFollows(c, e, Step(c, e), k) && Asked(Step(c, e), k)
  {
    assert CallOk(c, k) && Whole(c.calls[k].it);
    StartKeeps(c, e.supportsCancellation, e.aborted, k);
  }

  lemma StartKeeps(c: Client, supportsCancellation: bool, aborted: bool, k: nat)
    requires CallsOk(c) && k < |c.calls|
    ensures var n := StartCall(c, supportsCancellation, aborted);
            n.calls[k] == c.calls[k] && n.cancellations == c.cancellations
  {
    StartBegins(c, supportsCancellation, aborted);
  }

  lemma WrittenDecides(c: Client, e: Event, k: nat)
    requires Sound(c) && Asked(c, k) && k < |c.calls| && e.RequestWritten?
    ensures DecisionFollows(c, e, Step(c, e), k) && Asked(Step(c, e), k)
  {
    assert CallOk(c, k) && Whole(c.calls[k].it);
  }

  lemma SettlingDecides(c: Client, e: Event, k: nat)
    requires Sound(c) && Asked(c, k) && k < |c.calls| && (e.CancellationSettled? || e.ReaderRejected?)
    ensures DecisionFollows(c, e, Step(c, e), k) && Asked(Step(c, e), k)
  {
    assert CallOk(c, k) && Whole(c.calls[k].it);
  }

  lemma StepDecides(c: Client, e: Event, k: nat)
    requires Sound(c) && Asked(c, k) && k < |c.calls|
    ensures DecisionFollows(c, e, Step(c, e), k) && Asked(Step(c, e), k)
  {
    match e
    case Start(_, _) => StartDecides(c, e, k);
    case RequestWritten(_) => WrittenDecides(c, e, k);
    case RequestFailed(_, _) => FailureDecides(c, e, k);
    case Response(_, _, _) => ResponseDecides(c, e, k);
    case TerminalError(_) => ResponseDecides(c, e, k);
    case Cancelled(_, _) => CancelDecides(c, e, k);
    case NextCalled(_, _) => NextDecides(c, e, k);
    case Disconnect => DisconnectDecides(c, k);
    case _ => SettlingDecides(c, e, k);
  }

  lemma {:induction false} RunAsked(events: seq<Event>)
    ensures AllAsked(Run(events))
  {
    if events != [] {
      var c, e := Run(events[..|events| - 1]), events[|events| - 1];
      RunAsked(events[..|events| - 1]);
      RunSound(events[..|events| - 1]);
      RunSound(events);
      forall k | k in Step(c, e).cancellations ensures Asked(Step(c, e), k) {
        if k < |c.calls| {
          assert k in c.cancellations ==> Asked(c, k);
          StepDecides(c, e, k);
        } else {
          CallBegins(c, e, k);
        }
      }
    }
  }

  /** Event i decides the outcome of the call, or starts it with a signal aborted already. */
  predicate DecidedAt(events: seq<Event>, i: nat, k: nat, outcome: Outcome) {
    && i < |events|
    && if k < |Run(events[..i]).calls|
       then Run(events[..i]).calls[k].it.outcome.Undecided? && Decision(Run(events[..i]), events[i], k) == outcome != Undecided
       else events[i].Start? && events[i].aborted && k == |Run(events[..i]).calls| && outcome == RequestNotSent
  }

  lemma {:induction false} RunDecides(events: seq<Event>, n: nat, k: nat)
    requires n < |events| && k < |Run(events[..n]).calls|
    ensures DecisionFollows(Run(events[..n]), events[n], Run(events[..n + 1]), k)
    ensures Grows(Run(events[..n]).calls[k].it, Run(events[..n + 1]).calls[k].it)
  {
    RunSound(events[..n]);
    RunAsked(events[..n]);
    assert Asked(Run(events[..n]), k);
    StepDecides(Run(events[..n]), events[n], k);
    StepExtends(Run(events[..n]), events[n]);
    assert events[..n + 1][..n] == events[..n];
  }

  predicate OutcomeIs(events: seq<Event>, n: nat, k: nat, outcome: Outcome) {
    n <= |events| && k < |Run(events[..n]).calls| && Run(events[..n]).calls[k].it.outcome == outcome != Undecided
  }

  lemma {:induction false} DecisionMade(events: seq<Event>, n: nat, k: nat, outcome: Outcome)
    requires n < |events| && DecidedAt(events, n, k, outcome)
    ensures OutcomeIs(events, n + 1, k, outcome)
  {
    if k < |Run(events[..n]).calls| {
      RunDecides(events, n, k);
    } else {
      assert events[..n + 1][..n] == events[..n];
      CallBegins(Run(events[..n]), events[n], k);
    }
  }

  lemma {:induction false} DecisionStays(events: seq<Event>, i: nat, k: nat, outcome: Outcome)
    requires DecidedAt(events, i, k, outcome)
    ensures k < |Run(events).calls| && Run(events).calls[k].it.outcome == outcome
  {
    DecisionMade(events, i, k, outcome);
    assert events[..i + 1] + events[i + 1..] == events;
    OutcomeIsDecidedOnce(events[..i + 1], events[i + 1..], k);
  }

  lemma {:induction false} DecisionFound(events: seq<Event>, n: nat, k: nat) returns (i: nat)
    requires n <= |events| && k < |Run(events[..n]).calls| && !Run(events[..n]).calls[k].it.outcome.Undecided?
    ensures DecidedAt(events, i, k, Run(events[..n]).calls[k].it.outcome)
  {
    assert events[..0] == [] && n > 0;
    var c := Run(events[..n - 1]);
    assert events[..n][..n - 1] == events[..n - 1];
    i := n - 1;
    if k >= |c.calls| {
      CallBegins(c, events[n - 1], k);
    } else {
      RunDecides(events, n - 1, k);
      if !c.calls[k].it.outcome.Undecided? {
        i := DecisionFound(events, n - 1, k);
      }
    }
  }

  /**
   In every run, the outcome of a cancellation is what the first event that decided it decided: nothing was requested
   if the call had ended; the request was not sent if writing it failed; cancelling is unsupported if it was written
   to a worker that cannot; and otherwise it is the broker's answer, or the connection closed.
   */
  lemma {:induction false} OutcomeIff(events: seq<Event>, k: nat, outcome: Outcome)
    requires k < |Run(events).calls| && !outcome.Undecided?
    ensures Run(events).calls[k].it.outcome == outcome <==> exists i: nat :: DecidedAt(events, i, k, outcome)
  {
    assert events[..|events|] == events;
    forall i: nat | DecidedAt(events, i, k, outcome) ensures Run(events).calls[k].it.outcome == outcome {
      DecisionStays(events, i, k, outcome);
    }
    if Run(events).calls[k].it.outcome == outcome {
      var i := DecisionFound(events, |events|, k);
    }
  }

  // ---------- Where the buffers go ----------

  /** A call takes a buffer from the pool while there is one, and else a new one. */
  lemma StartTakesBuffer(c: Client, supportsCancellation: bool)
    requires Sound(c)
    ensures var n := Step(c, Start(supportsCancellation, false));
            && |n.calls| == |c.calls| + 1 && |c.calls| in n.pending && n.calls[|c.calls|].it == NEW
            && n.calls[..|c.calls|] == c.calls
            && if c.pool == [] then n.buffersMade == c.buffersMade + 1 && n.pending[|c.calls|] == c.buffersMade
               else n.buffersMade == c.buffersMade && n.pool + [n.pending[|c.calls|]] == c.pool
  {
  }

  /** The end of a call that was not cancelled returns its buffer, unless the pool is full. */
  lemma EndReturnsBuffer(c: Client, e: Event, k: nat)
    requires Sound(c) && k < |c.calls| && !e.Disconnect? && !CauseOf(c, e, k).NoEnd?
    ensures Step(c, e).pool == if |c.pool| < POOL_LIMIT then c.pool + [c.calls[k].buffer] else c.pool
  {
    assert CallOk(c, k);
  }

  // ---------- A reader that waits ----------

  lemma WaitingReaderTold(c: Client, e: Event, k: nat)
    requires Sound(c) && k < |c.calls| && c.calls[k].it.waiting
    ensures var it, n := c.calls[k].it, Step(c, e).calls[k].it;
            && k < |Step(c, e).calls|
            && (CauseOf(c, e, k).StreamEnded? ==>
                  !n.waiting && if e.body == [] then n.reported else n.delivered == it.delivered + [e.body])
            && (CauseOf(c, e, k).FailedWith? ==> n.rejecting && !n.waiting)
            && (CancelledWith(c, e, k).Because? && !e.NextCalled? ==> n.reported && !n.waiting)
  {
    assert CallOk(c, k) && Whole(c.calls[k].it);
    if e.Disconnect? {
      FailPendingEnds(c, |c.calls|, k);
    }
    if e.Start? {
      StartKeeps(c, e.supportsCancellation, e.aborted, k);
    }
  }

  /**
   In every run, a reader that waits when its call ends is given the frame that came with the end, or told the end at
   once, or the failure in a later turn; by then every frame received was handed out.
   */
  lemma {:induction false} ReaderIsTold(events: seq<Event>, k: nat, e: Event)
    requires k < |Run(events).calls|
    ensures var it, n := Run(events).calls[k].it, Run(events + [ReaderRejected(k)]).calls[k].it;
            it.rejecting ==> n.reported && !n.rejecting && n.delivered == n.received && n.reason.Because?
    ensures k < |Run(events + [e]).calls|
    ensures var it, n := Run(events).calls[k].it, Run(events + [e]).calls[k].it;
            it.waiting && !CauseOf(Run(events), e, k).NoEnd? ==>
              && !n.waiting
              && (CauseOf(Run(events), e, k).FailedWith? ==> n.rejecting)
              && (CauseOf(Run(events), e, k).StreamEnded? ==>
                    if e.body == [] then n.reported else n.delivered == it.delivered + [e.body])
  {
    RunSound(events);
    Appended(events, ReaderRejected(k));
    Appended(events, e);
    StepExtends(Run(events), e);
    assert Whole(Run(events).calls[k].it);
    if Run(events).calls[k].it.waiting {
      WaitingReaderTold(Run(events), e, k);
    }
  }
}
