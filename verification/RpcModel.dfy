/**
 RPC calls from the caller's side: the response iterator, cancellation, and the pool of correlation
 buffers. A call is named by its position in `calls`, which stands for its fresh correlation key. A step
 is one callback of the connection, the timers or the consumer, with the continuations it settles.
 */
module RpcModel {

  type Frame = seq<bv8>

  /** Why the frames stopped. `AbortError` is what next throws without looking at the buffer first. */
  datatype Failure = AbortError | OtherError

  datatype Outcome =
    | Undecided
    | NotRequested
    | RequestNotSent
    | Unsupported
    | Unconfirmed
    | ConnectionClosed
    | Answered(status: nat)

  datatype Reason = NoFailure | Because(failure: Failure)

  /**
   `waiting`: a reader waits; `rejecting`: it waited when the call failed, and is told in a later turn.
   `received` and `delivered` record every frame accepted and handed out, `reported` that the end was told.
   */
  datatype Iterator = Iterator(
    buffer: seq<Frame>, done: bool, cancelled: bool, reason: Reason, waiting: bool, rejecting: bool, outcome: Outcome,
    received: seq<Frame>, delivered: seq<Frame>, reported: bool)

  datatype Next = Value(frame: Frame) | Finished | Throws(failure: Failure) | Waits

  // ---------- The iterator ----------

  const NEW := Iterator([], false, false, NoFailure, false, false, Undecided, [], [], false)

  function Decide(it: Iterator, outcome: Outcome): Iterator {
    if it.outcome.Undecided? then it.(outcome := outcome) else it
  }

  function Push(it: Iterator, frame: Frame): Iterator {
    if it.done then it
    else if it.waiting then
      it.(waiting := false, received := it.received + [frame], delivered := it.delivered + [frame])
    else it.(buffer := it.buffer + [frame], received := it.received + [frame])
  }

  function End(it: Iterator): Iterator {
    (if it.cancelled then it else Decide(it, NotRequested)).(done := true, waiting := false, reported := it.reported || it.waiting)
  }

  function Fail(it: Iterator, failure: Failure): Iterator {
    if it.done then it
    else Decide(it, NotRequested).(done := true, reason := Because(failure), waiting := false, rejecting := it.waiting)
  }

  /** The turn in which the reader that waited at a failure is rejected. */
  function RejectReader(it: Iterator): Iterator {
    if it.rejecting then it.(rejecting := false, reported := true) else it
  }

  /** What that reader is told: an abort of the signal since then takes precedence. */
  function Told(reason: Failure, aborted: bool): Failure {
    if aborted then AbortError else reason
  }

  function Cancel(it: Iterator, failure: Failure): Iterator {
    if it.done then it
    else it.(cancelled := true, done := true, buffer := [], reason := Because(failure), waiting := false,
             reported := it.reported || it.waiting)
  }

  function NextResult(it: Iterator): Next {
    if it.reason == Because(AbortError) then Throws(AbortError)
    else if it.buffer != [] then Value(it.buffer[0])
    else if it.reason.Because? then Throws(it.reason.failure)
    else if it.done then Finished
    else Waits
  }

  function AfterNext(it: Iterator): Iterator {
    match NextResult(it)
    case Value(frame) =>
      it.(buffer := if it.buffer == [] then [] else it.buffer[1..], delivered := it.delivered + [frame])
    case Waits => it.(waiting := true)
    case _ => it.(reported := true)
  }

  /** Nothing accepted is lost or reordered unless the call was cancelled. */
  ghost predicate Whole(it: Iterator) {
    && (!it.cancelled ==> it.received == it.delivered + it.buffer)
    && (it.waiting ==> it.buffer == [] && !it.done)
    && (it.reason.Because? || it.reported ==> it.done)
    && (it.rejecting ==> it.reason.Because? && it.buffer == [] && !it.cancelled)
    && (it.reported && !it.cancelled && it.reason != Because(AbortError) ==> it.buffer == [])
    && (!it.cancelled && it.done ==> it.outcome == NotRequested)
    && (it.cancelled ==> it.done && it.outcome != NotRequested)
    && (!it.done ==> it.outcome.Undecided?)
  }

  lemma PushWhole(it: Iterator, frame: Frame)
    requires Whole(it)
    ensures Whole(Push(it, frame))
    ensures !it.done ==> Push(it, frame).received == it.received + [frame]
  {
    assert it.delivered + (it.buffer + [frame]) == (it.delivered + it.buffer) + [frame];
  }

  lemma EndsWhole(it: Iterator, failure: Failure)
    requires Whole(it)
    ensures Whole(End(it)) && Whole(Fail(it, failure)) && Whole(Cancel(it, failure))
  {
  }

  lemma NextWhole(it: Iterator)
    requires Whole(it)
    ensures Whole(AfterNext(it))
  {
    if NextResult(it).Value? {
      assert it.delivered + it.buffer == (it.delivered + [it.buffer[0]]) + it.buffer[1..];
    }
  }

  /** A reader that waited at a failure is told of it in its turn, after every frame received was handed out. */
  lemma RejectWhole(it: Iterator)
    requires Whole(it)
    ensures Whole(RejectReader(it))
    ensures it.rejecting ==> it.reason.Because? && RejectReader(it).reported && it.delivered == it.received
  {
  }

  /** A buffered frame of a call that failed is handed out next if and only if the failure is not an AbortError. */
  lemma BufferedFrameSurvivesIff(it: Iterator, failure: Failure)
    requires Whole(it) && !it.done && it.buffer != []
    ensures NextResult(Fail(it, failure)) == Value(it.buffer[0]) <==> failure != AbortError
  {
  }

  // ---------- The client ----------

  /** Whether the request frame was written. */
  datatype Sending = InFlight | Written(ok: bool)

  /** `buffer` is the correlation buffer; `awaiting`: its cancellation waits to learn whether the request was sent. */
  datatype Call = Call(buffer: nat, supportsCancellation: bool, sending: Sending, awaiting: bool, it: Iterator)

  /** `pending` and `cancellations` map a call to its buffer; `pool` holds buffers free to be taken. */
  datatype Client = Client(
    calls: seq<Call>, pending: map<nat, nat>, cancellations: map<nat, nat>, abandoned: set<nat>,
    pool: seq<nat>, buffersMade: nat)

  datatype Event =
    | Start(supportsCancellation: bool, aborted: bool)
    | RequestWritten(k: nat)
    | RequestFailed(k: nat, failure: Failure)
    | Response(k: nat, body: Frame, streamEnd: bool)
    | TerminalError(k: nat)
    | Cancelled(k: nat, failure: Failure)
    | NextCalled(k: nat, aborted: bool)
    | ReaderRejected(k: nat)
    | CancellationSettled(k: nat, outcome: Outcome)
    | Disconnect

  const IDLE := Client([], map[], map[], {}, [], 0)
  const POOL_LIMIT := 64

  function SetIt(c: Client, k: nat, it: Iterator): (n: Client)
    requires k < |c.calls|
    ensures |n.calls| == |c.calls|
  {
    c.(calls := c.calls[k := c.calls[k].(it := it)])
  }

  /** Gives up a pending call; its buffer goes back to the pool unless the call was abandoned. */
  function Cleanup(c: Client, k: nat, buffer: nat): (n: Client)
    ensures |n.calls| == |c.calls|
  {
    if k !in c.pending then c
    else if k in c.abandoned then c.(pending := c.pending - {k}, abandoned := c.abandoned - {k})
    else c.(pending := c.pending - {k}, pool := if |c.pool| >= POOL_LIMIT then c.pool else c.pool + [buffer])
  }

  function FailCall(c: Client, k: nat, failure: Failure): (n: Client)
    requires k < |c.calls|
    ensures |n.calls| == |c.calls|
  {
    if c.calls[k].it.done then c
    else Cleanup(SetIt(c, k, Fail(c.calls[k].it, failure)), k, c.calls[k].buffer)
  }

  /** The rest of a cancellation once it is known whether the request was sent. */
  function Abandon(c: Client, k: nat, sent: bool): (n: Client)
    requires k < |c.calls|
    ensures |n.calls| == |c.calls|
  {
    var call := c.calls[k];
    var c1 := c.(calls := c.calls[k := call.(awaiting := false)]);
    if !sent then SetIt(Cleanup(c1, k, call.buffer), k, Decide(call.it, RequestNotSent))
    else if !call.supportsCancellation then SetIt(Cleanup(c1, k, call.buffer), k, Decide(call.it, Unsupported))
    else c1.(cancellations := c1.cancellations[k := call.buffer])
  }

  function CancelCall(c: Client, k: nat, failure: Failure): (n: Client)
    requires k < |c.calls|
    ensures |n.calls| == |c.calls|
  {
    var call := c.calls[k];
    if call.it.done then c
    else
      var c1 := c.(calls := c.calls[k := call.(it := Cancel(call.it, failure), awaiting := true)], abandoned := c.abandoned + {k});
      if call.sending.Written? then Abandon(c1, k, call.sending.ok) else c1
  }

  function RequestDone(c: Client, k: nat, ok: bool): (n: Client)
    requires k < |c.calls|
    ensures |n.calls| == |c.calls|
  {
    var c1 := c.(calls := c.calls[k := c.calls[k].(sending := Sending.Written(ok))]);
    if c1.calls[k].awaiting then Abandon(c1, k, ok) else c1
  }

  function Take(c: Client): (r: (nat, Client)) {
    if c.pool == [] then (c.buffersMade, c.(buffersMade := c.buffersMade + 1))
    else (c.pool[|c.pool| - 1], c.(pool := c.pool[..|c.pool| - 1]))
  }

  /** The call as it is registered, with a buffer of its own. */
  function Registered(c: Client, supportsCancellation: bool): Client {
    var (buffer, c1) := Take(c);
    c1.(calls := c1.calls + [Call(buffer, supportsCancellation, InFlight, false, NEW)],
        pending := c1.pending[|c.calls| := buffer])
  }

  function StartCall(c: Client, supportsCancellation: bool, aborted: bool): Client {
    var started := Registered(c, supportsCancellation);
    if aborted then RequestDone(CancelCall(started, |c.calls|, AbortError), |c.calls|, false) else started
  }

  function Respond(c: Client, k: nat, body: Frame, streamEnd: bool): (n: Client)
    requires k < |c.calls|
    ensures |n.calls| == |c.calls|
  {
    if k !in c.pending then c
    else if !streamEnd then SetIt(c, k, Push(c.calls[k].it, body))
    else
      var pushed := if body == [] then c.calls[k].it else Push(c.calls[k].it, body);
      Cleanup(SetIt(c, k, End(pushed)), k, c.calls[k].buffer)
  }

  /** A call of next; if the signal is found aborted, the call is cancelled first. */
  function CallNext(c: Client, k: nat, aborted: bool): (n: Client)
    requires k < |c.calls|
    ensures |n.calls| == |c.calls|
  {
    var c1 := if aborted then CancelCall(c, k, AbortError) else c;
    SetIt(c1, k, AfterNext(c1.calls[k].it))
  }

  function SettleCancellation(c: Client, k: nat, outcome: Outcome): (n: Client)
    requires k < |c.calls|
    ensures |n.calls| == |c.calls|
  {
    if k !in c.cancellations then c
    else Cleanup(SetIt(c.(cancellations := c.cancellations - {k}), k, Decide(c.calls[k].it, outcome)), k, c.cancellations[k])
  }

  function FailIfPending(c: Client, k: nat): (n: Client)
    requires k < |c.calls|
    ensures |n.calls| == |c.calls|
  {
    if k in c.pending then FailCall(c, k, OtherError) else c
  }

  function FailPending(c: Client, k: nat): Client
    requires k <= |c.calls|
    ensures |FailPending(c, k).calls| == |c.calls|
  {
    if k == 0 then c else FailIfPending(FailPending(c, k - 1), k - 1)
  }

  function CloseCancellations(c: Client): (n: Client)
    ensures |n.calls| == |c.calls|
  {
    c.(calls := seq(|c.calls|, k requires 0 <= k < |c.calls| =>
                  if k in c.cancellations then c.calls[k].(it := Decide(c.calls[k].it, ConnectionClosed)) else c.calls[k]),
       pending := map[], abandoned := {}, cancellations := map[])
  }

  predicate Enabled(c: Client, e: Event) {
    match e
    case Start(_, _) => true
    case RequestWritten(k) => k < |c.calls| && c.calls[k].sending.InFlight?
    case RequestFailed(k, _) => k < |c.calls| && c.calls[k].sending.InFlight?
    case Response(k, _, _) => k < |c.calls|
    case TerminalError(k) => k < |c.calls|
    case Cancelled(k, _) => k < |c.calls|
    case NextCalled(k, _) => k < |c.calls|
    case ReaderRejected(k) => k < |c.calls| && c.calls[k].it.rejecting
    case CancellationSettled(k, outcome) => k < |c.calls| && !outcome.Undecided? && !outcome.NotRequested?
    case Disconnect => true
  }

  function Step(c: Client, e: Event): Client {
    if !Enabled(c, e) then c
    else match e
      case Start(supportsCancellation, aborted) => StartCall(c, supportsCancellation, aborted)
      case RequestWritten(k) => RequestDone(c, k, true)
      case RequestFailed(k, failure) => RequestDone(FailCall(c, k, failure), k, false)
      case Response(k, body, streamEnd) => Respond(c, k, body, streamEnd)
      case TerminalError(k) => if k in c.pending then FailCall(c, k, OtherError) else c
      case Cancelled(k, failure) => CancelCall(c, k, failure)
      case NextCalled(k, aborted) => CallNext(c, k, aborted)
      case ReaderRejected(k) => SetIt(c, k, RejectReader(c.calls[k].it))
      case CancellationSettled(k, outcome) => SettleCancellation(c, k, outcome)
      case Disconnect => CloseCancellations(FailPending(c, |c.calls|))
  }

  lemma NextStep(c: Client, k: nat, aborted: bool)
    requires k < |c.calls|
    ensures Step(c, NextCalled(k, aborted)) == CallNext(c, k, aborted)
  {
  }

  function Run(events: seq<Event>): Client {
    if events == [] then IDLE else Step(Run(events[..|events| - 1]), events[|events| - 1])
  }

  // ---------- What every run keeps ----------

  /** A call keeps its buffer to itself while it is pending, and for ever once it was cancelled. */
  predicate Holds(c: Client, k: nat) {
    k < |c.calls| && (k in c.pending || c.calls[k].it.cancelled)
  }

  predicate NoDuplicates(pool: seq<nat>) {
    forall i, j :: 0 <= i < j < |pool| ==> pool[i] != pool[j]
  }

  /** No buffer in the pool is in it twice or held by a call, and no two calls hold the same one. */
  ghost predicate PoolClean(c: Client) {
    && NoDuplicates(c.pool) && |c.pool| <= POOL_LIMIT
    && (forall b :: b in c.pool ==> b < c.buffersMade)
    && (forall k: nat :: Holds(c, k) ==> c.calls[k].buffer < c.buffersMade && c.calls[k].buffer !in c.pool)
    && (forall k: nat, j: nat :: Holds(c, k) && Holds(c, j) && k != j ==> c.calls[k].buffer != c.calls[j].buffer)
  }

  predicate CallOk(c: Client, k: nat)
    requires k < |c.calls|
  {
    var call := c.calls[k];
    && (!call.it.cancelled ==> (call.it.done <==> k !in c.pending) && !call.awaiting)
    && (k in c.abandoned ==> call.it.cancelled)
    && (call.it.cancelled && k in c.pending ==> k in c.abandoned)
    && (call.awaiting ==> call.sending.InFlight? && k !in c.cancellations)
    && (k in c.cancellations ==> call.it.cancelled)
    && (call.it.cancelled ==> (call.it.outcome.Undecided? <==> call.awaiting || k in c.cancellations))
    && (k in c.pending ==> c.pending[k] == call.buffer)
    && (k in c.cancellations ==> c.cancellations[k] == call.buffer)
  }

  ghost predicate CallsOk(c: Client) {
    && (forall k: nat :: k < |c.calls| ==> CallOk(c, k) && Whole(c.calls[k].it))
    && (forall k :: k in c.pending || k in c.cancellations || k in c.abandoned ==> k < |c.calls|)
  }

  ghost predicate Sound(c: Client) {
    PoolClean(c) && CallsOk(c)
  }

  lemma SameHoldersClean(c: Client, n: Client)
    requires PoolClean(c) && n.pool == c.pool && n.buffersMade == c.buffersMade && |n.calls| == |c.calls|
    requires forall k: nat :: Holds(n, k) ==> Holds(c, k) && n.calls[k].buffer == c.calls[k].buffer
    ensures PoolClean(n)
  {
  }

  lemma CleanupClean(c: Client, k: nat)
    requires PoolClean(c) && k < |c.calls| && (k in c.pending && k !in c.abandoned ==> !c.calls[k].it.cancelled)
    ensures PoolClean(Cleanup(c, k, c.calls[k].buffer))
  {
    var n := Cleanup(c, k, c.calls[k].buffer);
    if n.pool == c.pool {
      SameHoldersClean(c, n);
    } else {
      assert Holds(c, k);
      forall j: nat | Holds(n, j) ensures n.calls[j].buffer !in n.pool {
        assert j != k && Holds(c, j);
      }
    }
  }

  lemma FailCallSound(c: Client, k: nat, failure: Failure)
    requires Sound(c) && k < |c.calls|
    ensures Sound(FailCall(c, k, failure)) && (k in FailCall(c, k, failure).pending ==> c.calls[k].it.cancelled)
  {
    assert CallOk(c, k);
    EndsWhole(c.calls[k].it, failure);
    if !c.calls[k].it.done {
      var failed := SetIt(c, k, Fail(c.calls[k].it, failure));
      SameHoldersClean(c, failed);
      CleanupClean(failed, k);
      var n := FailCall(c, k, failure);
      forall j: nat | j < |n.calls| ensures CallOk(n, j) && Whole(n.calls[j].it) {
        assert CallOk(c, j);
      }
    }
  }

  /** Sound, but for a cancelled call that has just learnt whether its request was sent. */
  ghost predicate Learnt(c: Client, k: nat) {
    && PoolClean(c) && k < |c.calls|
    && (forall j: nat :: j < |c.calls| && j != k ==> CallOk(c, j) && Whole(c.calls[j].it))
    && (forall j :: j in c.pending || j in c.cancellations || j in c.abandoned ==> j < |c.calls|)
    && Whole(c.calls[k].it) && c.calls[k].it.cancelled && c.calls[k].it.outcome.Undecided?
    && k !in c.cancellations && c.calls[k].sending.Written?
    && (k in c.pending ==> k in c.abandoned && c.pending[k] == c.calls[k].buffer)
  }

  lemma AbandonSound(c: Client, k: nat, sent: bool)
    requires Learnt(c, k)
    ensures Sound(Abandon(c, k, sent))
  {
    var n := Abandon(c, k, sent);
    SameHoldersClean(c, n);
    forall j: nat | j < |n.calls| ensures CallOk(n, j) && Whole(n.calls[j].it) {
      assert j != k ==> CallOk(c, j);
    }
  }

  lemma CancelSound(c: Client, k: nat, failure: Failure)
    requires Sound(c) && k < |c.calls|
    ensures Sound(CancelCall(c, k, failure))
  {
    var call := c.calls[k];
    assert CallOk(c, k);
    if !call.it.done {
      EndsWhole(call.it, failure);
      var c1 := c.(calls := c.calls[k := call.(it := Cancel(call.it, failure), awaiting := true)], abandoned := c.abandoned + {k});
      SameHoldersClean(c, c1);
      forall j: nat | j < |c1.calls| && j != k ensures CallOk(c1, j) && Whole(c1.calls[j].it) {
        assert CallOk(c, j);
      }
      if call.sending.Written? {
        AbandonSound(c1, k, call.sending.ok);
      }
    }
  }

  lemma WrittenSound(c: Client, k: nat, ok: bool)
    requires Sound(c) && k < |c.calls| && c.calls[k].sending.InFlight?
    ensures Sound(RequestDone(c, k, ok))
  {
    var c1 := c.(calls := c.calls[k := c.calls[k].(sending := Sending.Written(ok))]);
    assert CallOk(c, k);
    SameHoldersClean(c, c1);
    forall j: nat | j < |c1.calls| && j != k ensures CallOk(c1, j) && Whole(c1.calls[j].it) {
      assert CallOk(c, j);
    }
    if c1.calls[k].awaiting {
      AbandonSound(c1, k, ok);
    }
  }

  lemma TakeClean(c: Client)
    requires PoolClean(c)
    ensures var (buffer, n) := Take(c);
            && PoolClean(n) && buffer < n.buffersMade && buffer !in n.pool
            && forall k: nat :: Holds(n, k) ==> n.calls[k].buffer != buffer
  {
    var (buffer, n) := Take(c);
    if c.pool != [] {
      assert forall b :: b in n.pool ==> b in c.pool;
      assert buffer in c.pool;
    }
    forall k: nat | Holds(n, k) ensures n.calls[k].buffer < n.buffersMade && n.calls[k].buffer !in n.pool && n.calls[k].buffer != buffer {
      assert Holds(c, k);
    }
    forall k: nat, j: nat | Holds(n, k) && Holds(n, j) && k != j ensures n.calls[k].buffer != n.calls[j].buffer {
      assert Holds(c, k) && Holds(c, j);
    }
  }

  lemma RegisteredSound(c: Client, supportsCancellation: bool)
    requires Sound(c)
    ensures Sound(Registered(c, supportsCancellation))
  {
    TakeClean(c);
    var (buffer, c1) := Take(c);
    var n := Registered(c, supportsCancellation);
    forall k: nat | Holds(n, k) && k < |c.calls| ensures Holds(c1, k) && n.calls[k] == c1.calls[k] {
    }
    forall k: nat | k < |n.calls| ensures CallOk(n, k) && Whole(n.calls[k].it) {
      assert k < |c.calls| ==> CallOk(c, k);
    }
  }

  lemma StartSound(c: Client, supportsCancellation: bool, aborted: bool)
    requires Sound(c)
    ensures Sound(StartCall(c, supportsCancellation, aborted))
  {
    RegisteredSound(c, supportsCancellation);
    if aborted {
      var started := Registered(c, supportsCancellation);
      CancelSound(started, |c.calls|, AbortError);
      WrittenSound(CancelCall(started, |c.calls|, AbortError), |c.calls|, false);
    }
  }

  lemma FrameSound(c: Client, k: nat, body: Frame)
    requires Sound(c) && k < |c.calls| && k in c.pending
    ensures Sound(SetIt(c, k, Push(c.calls[k].it, body)))
  {
    assert CallOk(c, k);
    PushWhole(c.calls[k].it, body);
    var n := SetIt(c, k, Push(c.calls[k].it, body));
    SameHoldersClean(c, n);
    forall j: nat | j < |n.calls| ensures CallOk(n, j) && Whole(n.calls[j].it) {
      assert CallOk(c, j);
    }
  }

  lemma EndSound(c: Client, k: nat)
    requires Sound(c) && k < |c.calls| && k in c.pending
    ensures Sound(Cleanup(SetIt(c, k, End(c.calls[k].it)), k, c.calls[k].buffer))
  {
    assert CallOk(c, k);
    EndsWhole(c.calls[k].it, OtherError);
    var ended := SetIt(c, k, End(c.calls[k].it));
    SameHoldersClean(c, ended);
    CleanupClean(ended, k);
    var n := Cleanup(ended, k, c.calls[k].buffer);
    forall j: nat | j < |n.calls| ensures CallOk(n, j) && Whole(n.calls[j].it) {
      assert CallOk(c, j);
    }
  }

  lemma ResponseSound(c: Client, k: nat, body: Frame, streamEnd: bool)
    requires Sound(c) && k < |c.calls|
    ensures Sound(Respond(c, k, body, streamEnd))
  {
    if k in c.pending {
      var pushed := SetIt(c, k, Push(c.calls[k].it, body));
      FrameSound(c, k, body);
      if streamEnd && body == [] {
        EndSound(c, k);
      } else if streamEnd {
        EndSound(pushed, k);
        assert SetIt(pushed, k, End(pushed.calls[k].it)) == SetIt(c, k, End(Push(c.calls[k].it, body)));
      }
    }
  }

  lemma SettleSound(c: Client, k: nat, outcome: Outcome)
    requires Sound(c) && k < |c.calls| && !outcome.Undecided? && !outcome.NotRequested?
    ensures Sound(SettleCancellation(c, k, outcome))
  {
    if k in c.cancellations {
      assert CallOk(c, k);
      var decided := SetIt(c.(cancellations := c.cancellations - {k}), k, Decide(c.calls[k].it, outcome));
      SameHoldersClean(c, decided);
      CleanupClean(decided, k);
      var n := SettleCancellation(c, k, outcome);
      forall j: nat | j < |n.calls| ensures CallOk(n, j) && Whole(n.calls[j].it) {
        assert CallOk(c, j);
      }
    }
  }

  lemma NextSound(c: Client, k: nat)
    requires Sound(c) && k < |c.calls|
    ensures Sound(SetIt(c, k, AfterNext(c.calls[k].it)))
  {
    NextWhole(c.calls[k].it);
    var n := SetIt(c, k, AfterNext(c.calls[k].it));
    SameHoldersClean(c, n);
    forall j: nat | j < |n.calls| ensures CallOk(n, j) && Whole(n.calls[j].it) {
      assert CallOk(c, j);
    }
  }

  lemma CallNextSound(c: Client, k: nat, aborted: bool)
    requires Sound(c) && k < |c.calls|
    ensures Sound(CallNext(c, k, aborted))
  {
    if aborted {
      CancelSound(c, k, AbortError);
      NextSound(CancelCall(c, k, AbortError), k);
    } else {
      NextSound(c, k);
    }
  }

  lemma RejectedSound(c: Client, k: nat)
    requires Sound(c) && k < |c.calls|
    ensures Sound(SetIt(c, k, RejectReader(c.calls[k].it)))
  {
    RejectWhole(c.calls[k].it);
    var n := SetIt(c, k, RejectReader(c.calls[k].it));
    SameHoldersClean(c, n);
    forall j: nat | j < |n.calls| ensures CallOk(n, j) && Whole(n.calls[j].it) {
      assert CallOk(c, j);
    }
  }

  /** Of the first calls only cancelled ones are still pending. */
  ghost predicate FailedUpTo(c: Client, k: nat)
    requires k <= |c.calls|
  {
    forall j: nat :: j < k && j in c.pending ==> c.calls[j].it.cancelled
  }

  ghost predicate Failing(c: Client, k: nat) {
    Sound(c) && k <= |c.calls| && FailedUpTo(c, k)
  }

  lemma FailCallKeepsFailed(c: Client, k: nat)
    requires k < |c.calls| && FailedUpTo(c, k)
    ensures FailedUpTo(FailCall(c, k, OtherError), k)
  {
  }

  lemma FailIfPendingSound(c: Client, k: nat)
    requires k < |c.calls| && Failing(c, k)
    ensures Failing(FailIfPending(c, k), k + 1)
  {
    if k in c.pending {
      FailCallSound(c, k, OtherError);
      FailCallKeepsFailed(c, k);
    }
  }

  lemma {:induction false} FailPendingSound(c: Client, k: nat)
    requires Sound(c) && k <= |c.calls|
    ensures Failing(FailPending(c, k), k)
  {
    var n := c;
    for j := 0 to k
      invariant n == FailPending(c, j) && Failing(n, j)
    {
      FailIfPendingSound(n, j);
      n := FailIfPending(n, j);
    }
  }

  lemma CloseSound(c: Client)
    requires Failing(c, |c.calls|)
    ensures Sound(CloseCancellations(c))
  {
    var n := CloseCancellations(c);
    SameHoldersClean(c, n);
    forall j: nat | j < |n.calls| ensures CallOk(n, j) && Whole(n.calls[j].it) {
      assert CallOk(c, j);
    }
  }

  lemma StepSound(c: Client, e: Event)
    requires Sound(c)
    ensures Sound(Step(c, e))
  {
    if Enabled(c, e) {
      match e
      case Start(supportsCancellation, aborted) => StartSound(c, supportsCancellation, aborted);
      case RequestWritten(k) => WrittenSound(c, k, true);
      case RequestFailed(k, failure) => FailCallSound(c, k, failure); WrittenSound(FailCall(c, k, failure), k, false);
      case Response(k, body, streamEnd) => ResponseSound(c, k, body, streamEnd);
      case TerminalError(k) => FailCallSound(c, k, OtherError);
      case Cancelled(k, failure) => CancelSound(c, k, failure);
      case NextCalled(k, aborted) => CallNextSound(c, k, aborted);
      case ReaderRejected(k) => RejectedSound(c, k);
      case CancellationSettled(k, outcome) => SettleSound(c, k, outcome);
      case Disconnect =>
        FailPendingSound(c, |c.calls|);
        CloseSound(FailPending(c, |c.calls|));
    }
  }

  lemma SettledStep(c: Client, k: nat, outcome: Outcome)
    requires Sound(c) && outcome != Undecided && outcome != NotRequested
    ensures k in c.cancellations ==>
              k < |c.calls| && Step(c, CancellationSettled(k, outcome)) == SettleCancellation(c, k, outcome)
    ensures k !in c.cancellations ==> Step(c, CancellationSettled(k, outcome)) == c
  {
  }

  lemma {:induction false} RunSound(events: seq<Event>)
    ensures Sound(Run(events))
  {
    if events != [] {
      RunSound(events[..|events| - 1]);
      StepSound(Run(events[..|events| - 1]), events[|events| - 1]);
    }
  }

  /**
   Buffers: whatever happens in whatever order, no buffer in the pool belongs to a pending call or an
   unsettled cancellation, none is in the pool twice, and no two such calls share one.
   */
  lemma {:induction false} BuffersAreNotShared(events: seq<Event>)
    ensures var c := Run(events);
            && NoDuplicates(c.pool) && |c.pool| <= POOL_LIMIT
            && (forall k :: k in c.pending ==> c.pending[k] !in c.pool)
            && (forall k :: k in c.cancellations ==> c.cancellations[k] !in c.pool)
            && (forall k, j :: k in c.pending && j in c.pending && k != j ==> c.pending[k] != c.pending[j])
            && (forall k, j :: k in c.cancellations && j in c.pending && k != j ==> c.cancellations[k] != c.pending[j])
  {
    RunSound(events);
    var c := Run(events);
    forall k | k in c.pending ensures Holds(c, k) && c.pending[k] == c.calls[k].buffer {
      assert CallOk(c, k);
    }
    forall k | k in c.cancellations ensures Holds(c, k) && c.cancellations[k] == c.calls[k].buffer {
      assert CallOk(c, k);
    }
  }

  /**
   Delivery: of a call that was not cancelled, the frames handed out and those still buffered are exactly
   the ones received, in order; and unless it failed with an AbortError, its end is told only once every
   one of them was handed out.
   */
  lemma {:induction false} UncancelledCallDelivers(events: seq<Event>, k: nat)
    requires k < |Run(events).calls| && !Run(events).calls[k].it.cancelled
    ensures var it := Run(events).calls[k].it;
            && it.received == it.delivered + it.buffer
            && (it.reported && it.reason != Because(AbortError) ==> it.delivered == it.received)
  {
    RunSound(events);
  }

  /** A cancellation is decided, or still waits for the request to be written or for its own answer. */
  lemma {:induction false} CancellationIsTracked(events: seq<Event>, k: nat)
    requires k < |Run(events).calls|
    ensures var c := Run(events);
            && (c.calls[k].it.cancelled ==>
                  (c.calls[k].it.outcome.Undecided? <==> c.calls[k].awaiting || k in c.cancellations))
            && (c.calls[k].it.outcome == NotRequested <==> c.calls[k].it.done && !c.calls[k].it.cancelled)
  {
    RunSound(events);
    assert CallOk(Run(events), k);
  }

  /** What a consumer was told is never taken back: the outcome once decided, the frames once handed out. */
  predicate Grows(it: Iterator, n: Iterator) {
    && (!it.outcome.Undecided? ==> n.outcome == it.outcome)
    && it.delivered <= n.delivered && it.received <= n.received
    && (it.cancelled ==> n.cancelled) && (it.reported ==> n.reported)
  }

  /** No call is forgotten, and every call only grows. */
  ghost predicate Extends(c: Client, n: Client) {
    && |c.calls| <= |n.calls|
    && forall k: nat :: k < |c.calls| ==> Grows(c.calls[k].it, n.calls[k].it)
  }

  lemma CloseExtends(c: Client)
    ensures Extends(c, CloseCancellations(c))
  {
  }

  lemma StartExtends(c: Client, supportsCancellation: bool, aborted: bool)
    ensures Extends(c, StartCall(c, supportsCancellation, aborted))
  {
  }

  lemma ExtendsTwice(a: Client, b: Client, c: Client)
    requires Extends(a, b) && Extends(b, c)
    ensures Extends(a, c)
  {
    forall k: nat | k < |a.calls| ensures Grows(a.calls[k].it, c.calls[k].it) {
      assert Grows(a.calls[k].it, b.calls[k].it) && Grows(b.calls[k].it, c.calls[k].it);
    }
  }

  lemma SetItExtends(c: Client, n: Client, k: nat)
    requires k < |c.calls| == |n.calls| && Grows(c.calls[k].it, n.calls[k].it)
    requires forall j: nat :: j < |c.calls| && j != k ==> n.calls[j] == c.calls[j]
    ensures Extends(c, n)
  {
  }

  lemma RespondExtends(c: Client, k: nat, body: Frame, streamEnd: bool)
    requires k < |c.calls|
    ensures Extends(c, Respond(c, k, body, streamEnd))
  {
    if k in c.pending {
      var it := c.calls[k].it;
      var pushed := if streamEnd && body == [] then it else Push(it, body);
      var handed := SetIt(c, k, if streamEnd then End(pushed) else pushed);
      SetItExtends(c, handed, k);
      assert Respond(c, k, body, streamEnd).calls == handed.calls;
    }
  }

  lemma FailCallExtends(c: Client, k: nat, failure: Failure)
    requires k < |c.calls|
    ensures Extends(c, FailCall(c, k, failure))
  {
    SetItExtends(c, FailCall(c, k, failure), k);
  }

  lemma WrittenExtends(c: Client, k: nat, ok: bool)
    requires k < |c.calls|
    ensures Extends(c, RequestDone(c, k, ok))
  {
    SetItExtends(c, RequestDone(c, k, ok), k);
  }

  lemma AbandonExtends(c: Client, k: nat, sent: bool)
    requires k < |c.calls|
    ensures Extends(c, Abandon(c, k, sent))
  {
    SetItExtends(c, Abandon(c, k, sent), k);
  }

  lemma CancelExtends(c: Client, k: nat, failure: Failure)
    requires k < |c.calls|
    ensures Extends(c, CancelCall(c, k, failure))
  {
    var call := c.calls[k];
    if !call.it.done {
      var c1 := c.(calls := c.calls[k := call.(it := Cancel(call.it, failure), awaiting := true)], abandoned := c.abandoned + {k});
      SetItExtends(c, c1, k);
      if call.sending.Written? {
        AbandonExtends(c1, k, call.sending.ok);
        ExtendsTwice(c, c1, CancelCall(c, k, failure));
      }
    }
  }

  lemma NextExtends(c: Client, k: nat)
    requires k < |c.calls|
    ensures Extends(c, SetIt(c, k, AfterNext(c.calls[k].it)))
  {
    SetItExtends(c, SetIt(c, k, AfterNext(c.calls[k].it)), k);
  }

  lemma CallNextExtends(c: Client, k: nat, aborted: bool)
    requires k < |c.calls|
    ensures Extends(c, CallNext(c, k, aborted))
  {
    if aborted {
      var c1 := CancelCall(c, k, AbortError);
      CancelExtends(c, k, AbortError);
      NextExtends(c1, k);
      ExtendsTwice(c, c1, CallNext(c, k, aborted));
    } else {
      NextExtends(c, k);
    }
  }

  lemma SettleExtends(c: Client, k: nat, outcome: Outcome)
    requires k < |c.calls|
    ensures Extends(c, SettleCancellation(c, k, outcome))
  {
    SetItExtends(c, SettleCancellation(c, k, outcome), k);
  }

  lemma FailIfPendingExtends(c: Client, k: nat)
    requires k < |c.calls|
    ensures Extends(c, FailIfPending(c, k))
  {
    FailCallExtends(c, k, OtherError);
  }

  lemma {:induction false} FailPendingExtends(c: Client, k: nat)
    requires k <= |c.calls|
    ensures Extends(c, FailPending(c, k))
  {
    var n := c;
    for j := 0 to k
      invariant n == FailPending(c, j) && Extends(c, n)
    {
      FailIfPendingExtends(n, j);
      ExtendsTwice(c, n, FailIfPending(n, j));
      n := FailIfPending(n, j);
    }
  }

  lemma DisconnectExtends(c: Client)
    ensures Extends(c, CloseCancellations(FailPending(c, |c.calls|)))
  {
    var failed := FailPending(c, |c.calls|);
    FailPendingExtends(c, |c.calls|);
    CloseExtends(failed);
    ExtendsTwice(c, failed, CloseCancellations(failed));
  }

  lemma StepExtends(c: Client, e: Event)
    ensures Extends(c, Step(c, e))
  {
    if Enabled(c, e) {
      match e
      case Start(supportsCancellation, aborted) => StartExtends(c, supportsCancellation, aborted);
      case RequestWritten(k) => WrittenExtends(c, k, true);
      case RequestFailed(k, failure) =>
        FailCallExtends(c, k, failure);
        WrittenExtends(FailCall(c, k, failure), k, false);
        ExtendsTwice(c, FailCall(c, k, failure), Step(c, e));
      case Response(k, body, streamEnd) => RespondExtends(c, k, body, streamEnd);
      case TerminalError(k) => FailCallExtends(c, k, OtherError);
      case Cancelled(k, failure) => CancelExtends(c, k, failure);
      case NextCalled(k, aborted) => CallNextExtends(c, k, aborted);
      case ReaderRejected(k) => SetItExtends(c, Step(c, e), k);
      case CancellationSettled(k, outcome) => SettleExtends(c, k, outcome);
      case Disconnect => DisconnectExtends(c);
    }
  }

  /** Each call's outcome is decided once: no later run changes it, nor takes back a frame. */
  lemma {:induction false} OutcomeIsDecidedOnce(events: seq<Event>, more: seq<Event>, k: nat)
    requires k < |Run(events).calls|
    ensures k < |Run(events + more).calls| && Grows(Run(events).calls[k].it, Run(events + more).calls[k].it)
    decreases |more|
  {
    if more == [] {
      assert events + more == events;
    } else {
      var last := |more| - 1;
      OutcomeIsDecidedOnce(events, more[..last], k);
      assert (events + more)[..|events + more| - 1] == events + more[..last];
      StepExtends(Run(events + more[..last]), more[last]);
    }
  }

  /** A response to a pending call that was not cancelled is received, whatever else goes on. */
  lemma {:induction false} ResponseIsReceived(events: seq<Event>, k: nat, body: Frame, streamEnd: bool)
    requires k in Run(events).pending && k < |Run(events).calls| && !Run(events).calls[k].it.cancelled
    ensures var it, n := Run(events).calls[k].it, Step(Run(events), Response(k, body, streamEnd)).calls[k].it;
            n.received == if streamEnd && body == [] then it.received else it.received + [body]
  {
    RunSound(events);
    assert CallOk(Run(events), k);
  }
}
