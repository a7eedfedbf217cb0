/**
 The response iterator and the caller side of the RPC client as objects. The client holds one iterator
 object for each call and settles calls by calling its methods, as the source does through its closures;
 every event takes its step of RpcModel and keeps the bookkeeping of every run.
 */
module RpcCalls {
  import opened RpcModel

  class RpcIterator {
    var buffer: seq<Frame>
    var done: bool
    var failureReason: Reason
    var nextPending: bool
    var rejectPending: bool
    var cancellationRequested: bool
    var cancellation: Outcome
    ghost var received: seq<Frame>
    ghost var delivered: seq<Frame>
    ghost var reported: bool

    constructor ()
      ensures Valid() && Model() == NEW
    {
      buffer, done, failureReason, nextPending, rejectPending := [], false, NoFailure, false, false;
      cancellationRequested, cancellation := false, Undecided;
      received, delivered, reported := [], [], false;
    }

    ghost function Model(): Iterator
      reads this
    {
      Iterator(buffer, done, cancellationRequested, failureReason, nextPending, rejectPending, cancellation,
               received, delivered, reported)
    }

    /** Unless cancelled, the frames handed out and those buffered are the frames received, in order. */
    ghost predicate Valid()
      reads this
    {
      Whole(Model())
    }

    method SettleCancellation(outcome: Outcome)
      modifies `cancellation
      ensures Model() == Decide(old(Model()), outcome)
    {
      if cancellation == Undecided {
        cancellation := outcome;
      }
    }

    method Push(frame: Frame)
      requires Valid()
      modifies this
      ensures Valid() && Model() == RpcModel.Push(old(Model()), frame)
    {
      PushWhole(Model(), frame);
      if done {
        return;
      }
      received := received + [frame];
      if nextPending {
        nextPending := false;
        delivered := delivered + [frame];
      } else {
        buffer := buffer + [frame];
      }
    }

    method End()
      requires Valid()
      modifies this
      ensures Valid() && Model() == RpcModel.End(old(Model()))
    {
      EndsWhole(Model(), OtherError);
      if !cancellationRequested {
        SettleCancellation(NotRequested);
      }
      done := true;
      if nextPending {
        nextPending := false;
        reported := true;
      }
    }

    /** The buffer stays; a reader that waits is rejected in a later turn. */
    method Fail(reason: Failure)
      requires Valid()
      modifies this
      ensures Valid() && Model() == RpcModel.Fail(old(Model()), reason)
    {
      EndsWhole(Model(), reason);
      if done {
        return;
      }
      done := true;
      failureReason := Because(reason);
      SettleCancellation(NotRequested);
      if nextPending {
        nextPending := false;
        rejectPending := true;
      }
    }

    method RejectReader(aborted: bool) returns (failure: Failure)
      requires Valid() && rejectPending
      modifies this
      ensures Valid() && Model() == RpcModel.RejectReader(old(Model()))
      ensures failure == Told(old(failureReason.failure), aborted) && delivered == received
    {
      RejectWhole(Model());
      rejectPending := false;
      reported := true;
      failure := if aborted then AbortError else failureReason.failure;
    }

    method Cancel(error: Failure)
      requires Valid()
      modifies this
      ensures Valid() && Model() == RpcModel.Cancel(old(Model()), error)
    {
      EndsWhole(Model(), error);
      if done || cancellationRequested {
        return;
      }
      cancellationRequested := true;
      done := true;
      buffer := [];
      failureReason := Because(error);
      if nextPending {
        nextPending := false;
        reported := true;
      }
    }

    method NextFrame() returns (result: Next)
      requires Valid()
      modifies this
      ensures Valid() && result == NextResult(old(Model())) && Model() == AfterNext(old(Model()))
    {
      NextWhole(Model());
      if failureReason == Because(AbortError) {
        reported := true;
        return Throws(AbortError);
      }
      if buffer != [] {
        result := Value(buffer[0]);
        delivered := delivered + [buffer[0]];
        buffer := buffer[1..];
        return;
      }
      if failureReason != NoFailure {
        reported := true;
        return Throws(failureReason.failure);
      }
      if done {
        reported := true;
        return Finished;
      }
      nextPending := true;
      return Waits;
    }
  }

  /** What the closures of one call hold besides its iterator. */
  datatype Record = Record(correlationId: nat, supportsCancellation: bool, sending: Sending, awaiting: bool)

  ghost function CallOf(record: Record, it: Iterator): Call {
    Call(record.correlationId, record.supportsCancellation, record.sending, record.awaiting, it)
  }

  ghost function CallsOf(records: seq<Record>, iterators: seq<RpcIterator>): (calls: seq<Call>)
    requires |records| == |iterators|
    reads iterators
    ensures |calls| == |iterators|
    ensures forall i :: 0 <= i < |calls| ==> calls[i] == CallOf(records[i], iterators[i].Model())
  {
    seq(|iterators|, i requires 0 <= i < |iterators| == |records| reads iterators =>
          CallOf(records[i], iterators[i].Model()))
  }

  lemma OneMoreCall(records: seq<Record>, iterators: seq<RpcIterator>, record: Record, it: RpcIterator)
    requires |records| == |iterators|
    ensures CallsOf(records + [record], iterators + [it]) == CallsOf(records, iterators) + [CallOf(record, it.Model())]
  {
  }

  class RpcClient {
    var iterators: seq<RpcIterator>
    var records: seq<Record>
    var pendingRpcs: map<nat, nat>
    var pendingCancellations: map<nat, nat>
    var abandonedCorrelationIds: set<nat>
    var correlationIdPool: seq<nat>
    var buffersMade: nat

    constructor ()
      ensures Valid() && Model() == IDLE
    {
      iterators, records := [], [];
      pendingRpcs, pendingCancellations, abandonedCorrelationIds := map[], map[], {};
      correlationIdPool, buffersMade := [], 0;
    }

    /** Each call has an iterator of its own. */
    ghost predicate Apart()
      reads `iterators, `records
    {
      |iterators| == |records| && forall i, j :: 0 <= i < j < |iterators| ==> iterators[i] != iterators[j]
    }

    ghost function Calls(): seq<Call>
      requires Apart()
      reads `iterators, `records, iterators
    {
      CallsOf(records, iterators)
    }

    ghost function Model(): Client
      requires Apart()
      reads this, iterators
    {
      Client(Calls(), pendingRpcs, pendingCancellations, abandonedCorrelationIds, correlationIdPool, buffersMade)
    }

    /** No buffer is shared or pooled while held, and every iterator hands out what it received. */
    ghost predicate Valid()
      reads this, iterators
    {
      Apart() && Sound(Model())
    }

    /** A change of one call leaves the model of the others as it was. */
    twostate lemma OneCallChanged(k: nat)
      requires old(Apart()) && iterators == old(iterators) && k < |iterators|
      requires |records| == |old(records)| && forall i :: 0 <= i < |records| && i != k ==> records[i] == old(records[i])
      requires forall i :: 0 <= i < |iterators| && i != k ==> unchanged(iterators[i])
      ensures Calls() == old(Calls())[k := CallOf(records[k], iterators[k].Model())]
    {
    }

    // ---------- The pieces the events are made of ----------

    method CleanupPendingRpc(k: nat, correlationId: nat)
      requires Apart()
      modifies `pendingRpcs, `abandonedCorrelationIds, `correlationIdPool
      ensures Apart() && Model() == Cleanup(old(Model()), k, correlationId)
    {
      if k !in pendingRpcs {
        return;
      }
      pendingRpcs := pendingRpcs - {k};
      if k in abandonedCorrelationIds {
        abandonedCorrelationIds := abandonedCorrelationIds - {k};
        return;
      }
      if |correlationIdPool| < POOL_LIMIT {
        correlationIdPool := correlationIdPool + [correlationId];
      }
    }

    method AcquirePooledCorrelationId() returns (correlationId: nat)
      requires Apart()
      modifies `correlationIdPool, `buffersMade
      ensures Apart() && (correlationId, Model()) == Take(old(Model()))
    {
      if correlationIdPool == [] {
        correlationId := buffersMade;
        buffersMade := buffersMade + 1;
      } else {
        correlationId := correlationIdPool[|correlationIdPool| - 1];
        correlationIdPool := correlationIdPool[..|correlationIdPool| - 1];
      }
    }

    method AddCall(correlationId: nat, supportsCancellation: bool)
      requires Apart()
      modifies `iterators, `records
      ensures |iterators| == old(|iterators|) + 1 && iterators[..old(|iterators|)] == old(iterators)
      ensures fresh(iterators[old(|iterators|)]) && Apart()
      ensures Calls() == old(Calls()) + [Call(correlationId, supportsCancellation, InFlight, false, NEW)]
    {
      var responses := new RpcIterator();
      var record := Record(correlationId, supportsCancellation, InFlight, false);
      OneMoreCall(records, iterators, record, responses);
      iterators := iterators + [responses];
      records := records + [record];
    }

    method Register(supportsCancellation: bool)
      requires Apart()
      modifies this
      ensures |iterators| == old(|iterators|) + 1 && iterators[..old(|iterators|)] == old(iterators)
      ensures fresh(iterators[old(|iterators|)])
      ensures Apart() && Model() == Registered(old(Model()), supportsCancellation)
    {
      var k := |iterators|;
      var correlationId := AcquirePooledCorrelationId();
      AddCall(correlationId, supportsCancellation);
      pendingRpcs := pendingRpcs[k := correlationId];
    }

    method FailCall(k: nat, failure: Failure)
      requires Apart() && k < |iterators| && iterators[k].Valid()
      modifies this, iterators[k]
      ensures iterators == old(iterators) && Apart() && Model() == RpcModel.FailCall(old(Model()), k, failure)
    {
      if iterators[k].done {
        return;
      }
      iterators[k].Fail(failure);
      OneCallChanged(k);
      CleanupPendingRpc(k, records[k].correlationId);
    }

    method SetAwaiting(k: nat, awaiting: bool)
      requires Apart() && k < |iterators|
      modifies `records
      ensures Apart() && records == old(records)[k := old(records)[k].(awaiting := awaiting)]
      ensures Model() == old(Model()).(calls := old(Calls())[k := old(Calls())[k].(awaiting := awaiting)])
    {
      records := records[k := records[k].(awaiting := awaiting)];
      OneCallChanged(k);
    }

    method Settle(k: nat, outcome: Outcome)
      requires Apart() && k < |iterators|
      modifies iterators[k]
      ensures Model() == SetIt(old(Model()), k, Decide(old(Calls())[k].it, outcome))
    {
      iterators[k].SettleCancellation(outcome);
      OneCallChanged(k);
    }

    /** A cancellation goes on once it is known whether the request was sent. */
    method ContinueAbandon(k: nat, sent: bool)
      requires Apart() && k < |iterators|
      modifies this, iterators[k]
      ensures iterators == old(iterators) && Apart() && Model() == Abandon(old(Model()), k, sent)
    {
      var record := records[k];
      SetAwaiting(k, false);
      if sent && record.supportsCancellation {
        pendingCancellations := pendingCancellations[k := record.correlationId];
        return;
      }
      CleanupPendingRpc(k, record.correlationId);
      Settle(k, if sent then Unsupported else RequestNotSent);
    }

    method CancelCall(k: nat, failure: Failure)
      requires Apart() && k < |iterators| && iterators[k].Valid()
      modifies this, iterators[k]
      ensures iterators == old(iterators) && Apart() && Model() == RpcModel.CancelCall(old(Model()), k, failure)
    {
      if iterators[k].done {
        return;
      }
      abandonedCorrelationIds := abandonedCorrelationIds + {k};
      records := records[k := records[k].(awaiting := true)];
      iterators[k].Cancel(failure);
      OneCallChanged(k);
      if records[k].sending.Written? {
        ContinueAbandon(k, records[k].sending.ok);
      }
    }

    method RequestSent(k: nat, ok: bool)
      requires Apart() && k < |iterators|
      modifies this, iterators[k]
      ensures iterators == old(iterators) && Apart() && Model() == RequestDone(old(Model()), k, ok)
    {
      records := records[k := records[k].(sending := Sending.Written(ok))];
      OneCallChanged(k);
      if records[k].awaiting {
        ContinueAbandon(k, ok);
      }
    }

    method Deliver(k: nat, body: Frame, streamEnd: bool)
      requires Apart() && k < |iterators| && iterators[k].Valid()
      modifies this, iterators[k]
      ensures iterators == old(iterators) && Apart() && Model() == Respond(old(Model()), k, body, streamEnd)
    {
      if k !in pendingRpcs {
        return;
      }
      if streamEnd {
        if body != [] {
          iterators[k].Push(body);
        }
        iterators[k].End();
        OneCallChanged(k);
        CleanupPendingRpc(k, records[k].correlationId);
      } else {
        iterators[k].Push(body);
        OneCallChanged(k);
      }
    }

    // ---------- The events ----------

    method Start(supportsCancellation: bool, aborted: bool) returns (k: nat)
      requires Valid()
      modifies this
      ensures |iterators| == k + 1 && iterators[..k] == old(iterators) && fresh(iterators[k])
      ensures Valid() && Model() == Step(old(Model()), RpcModel.Start(supportsCancellation, aborted))
    {
      StepSound(Model(), RpcModel.Start(supportsCancellation, aborted));
      RegisteredSound(Model(), supportsCancellation);
      k := |iterators|;
      Register(supportsCancellation);
      if aborted {
        assert Whole(Calls()[k].it);
        CancelCall(k, AbortError);
        RequestSent(k, false);
      }
    }

    method RequestWritten(k: nat)
      requires Valid() && Enabled(Model(), RpcModel.RequestWritten(k))
      modifies this, iterators
      ensures iterators == old(iterators) && Valid() && Model() == Step(old(Model()), RpcModel.RequestWritten(k))
    {
      StepSound(Model(), RpcModel.RequestWritten(k));
      RequestSent(k, true);
    }

    method RequestFailed(k: nat, failure: Failure)
      requires Valid() && Enabled(Model(), RpcModel.RequestFailed(k, failure))
      modifies this, iterators
      ensures iterators == old(iterators) && Valid() && Model() == Step(old(Model()), RpcModel.RequestFailed(k, failure))
    {
      StepSound(Model(), RpcModel.RequestFailed(k, failure));
      assert Whole(Calls()[k].it);
      FailCall(k, failure);
      RequestSent(k, false);
    }

    /** A response frame; `terminalError`: it ends the stream and its body decodes as an error. */
    method HandleRpcResponse(k: nat, body: Frame, streamEnd: bool, terminalError: bool)
      requires Valid() && (terminalError ==> streamEnd)
      modifies this, iterators
      ensures iterators == old(iterators) && Valid()
      ensures Model() == Step(old(Model()), if terminalError then TerminalError(k) else Response(k, body, streamEnd))
      ensures k < |iterators| && old(k in pendingRpcs && !iterators[k].done) ==>
                && iterators[k].done == streamEnd
                && iterators[k].failureReason == if terminalError then Because(OtherError) else NoFailure
    {
      StepSound(Model(), if terminalError then TerminalError(k) else Response(k, body, streamEnd));
      if k !in pendingRpcs {
        return;
      }
      assert Whole(Calls()[k].it);
      if terminalError {
        FailCall(k, OtherError);
      } else {
        Deliver(k, body, streamEnd);
      }
    }

    /** The signal of the call is aborted, its deadline passes, or its consumer returns. */
    method Cancel(k: nat, failure: Failure)
      requires Valid() && k < |iterators|
      modifies this, iterators
      ensures iterators == old(iterators) && Valid() && Model() == Step(old(Model()), Cancelled(k, failure))
    {
      StepSound(Model(), Cancelled(k, failure));
      assert Whole(Calls()[k].it);
      CancelCall(k, failure);
    }

    method CallNext(k: nat, aborted: bool) returns (result: Next)
      requires Valid() && k < |iterators|
      modifies this, iterators
      ensures iterators == old(iterators) && Valid() && Model() == Step(old(Model()), NextCalled(k, aborted))
      ensures result == if aborted && !old(iterators[k].done) then Throws(AbortError) else NextResult(old(iterators[k].Model()))
    {
      StepSound(Model(), NextCalled(k, aborted));
      NextStep(Model(), k, aborted);
      if aborted {
        result := CancelThenRead(k);
      } else {
        result := ReadNext(k);
      }
    }

    method CancelThenRead(k: nat) returns (result: Next)
      requires Valid() && k < |iterators|
      modifies this, iterators[k]
      ensures iterators == old(iterators) && Apart() && Model() == RpcModel.CallNext(old(Model()), k, true)
      ensures result == if old(iterators[k].done) then NextResult(old(iterators[k].Model())) else Throws(AbortError)
    {
      CancelAborted(k);
      result := ReadNext(k);
    }

    method CancelAborted(k: nat)
      requires Valid() && k < |iterators|
      modifies this, iterators[k]
      ensures iterators == old(iterators) && Valid() && Model() == RpcModel.CancelCall(old(Model()), k, AbortError)
      ensures NextResult(iterators[k].Model()) ==
              if old(iterators[k].done) then NextResult(old(iterators[k].Model())) else Throws(AbortError)
    {
      CancelSound(Model(), k, AbortError);
      assert Whole(Calls()[k].it);
      CancelCall(k, AbortError);
      assert iterators[k].Model() == Calls()[k].it;
    }

    method ReadNext(k: nat) returns (result: Next)
      requires Valid() && k < |iterators|
      modifies iterators[k]
      ensures Model() == RpcModel.CallNext(old(Model()), k, false)
      ensures result == NextResult(old(iterators[k].Model()))
    {
      assert Whole(Calls()[k].it);
      result := iterators[k].NextFrame();
      OneCallChanged(k);
    }

    method RejectReader(k: nat, aborted: bool) returns (failure: Failure)
      requires Valid() && Enabled(Model(), ReaderRejected(k))
      modifies this, iterators
      ensures iterators == old(iterators) && Valid() && Model() == Step(old(Model()), ReaderRejected(k))
      ensures exists reason :: old(iterators[k].failureReason) == Because(reason) && failure == Told(reason, aborted)
    {
      StepSound(Model(), ReaderRejected(k));
      assert Whole(Calls()[k].it);
      failure := iterators[k].RejectReader(aborted);
      OneCallChanged(k);
    }

    method SettleCancellationResult(k: nat, result: Outcome)
      requires Valid() && result != Undecided && result != NotRequested
      modifies this, iterators
      ensures iterators == old(iterators) && Valid() && Model() == Step(old(Model()), CancellationSettled(k, result))
    {
      StepSound(Model(), CancellationSettled(k, result));
      SettledStep(Model(), k, result);
      if k in pendingCancellations {
        ResolveCancellation(k, result);
      }
    }

    method ResolveCancellation(k: nat, result: Outcome)
      requires Apart() && k < |iterators| && k in pendingCancellations
      modifies this, iterators[k]
      ensures iterators == old(iterators) && Apart() && Model() == SettleCancellation(old(Model()), k, result)
    {
      var correlationId := pendingCancellations[k];
      pendingCancellations := pendingCancellations - {k};
      Settle(k, result);
      CleanupPendingRpc(k, correlationId);
    }

    method FailIfPending(k: nat)
      requires Valid() && k < |iterators|
      modifies this, iterators[k]
      ensures iterators == old(iterators) && Apart() && Model() == RpcModel.FailIfPending(old(Model()), k)
    {
      if k in pendingRpcs {
        assert Whole(Calls()[k].it);
        FailCall(k, OtherError);
      }
    }

    method FailPendingRpcs()
      requires Valid()
      modifies this, iterators
      ensures iterators == old(iterators) && Apart() && Model() == FailPending(old(Model()), |iterators|)
    {
      ghost var before := Model();
      for k := 0 to |iterators|
        invariant iterators == old(iterators) && Apart()
        invariant Model() == FailPending(before, k)
      {
        FailPendingSound(before, k);
        FailIfPending(k);
      }
    }

    method CloseIfCancelling(k: nat)
      requires Apart() && k < |iterators|
      modifies iterators[k]
      ensures Calls() == old(Calls())[k := CloseCancellations(old(Model())).calls[k]]
    {
      if k in pendingCancellations {
        Settle(k, ConnectionClosed);
      }
    }

    method ClosePendingCancellations()
      requires Apart()
      modifies this, iterators
      ensures iterators == old(iterators) && Apart() && Model() == CloseCancellations(old(Model()))
    {
      pendingRpcs := map[];
      abandonedCorrelationIds := {};
      ghost var before := Model();
      for k := 0 to |iterators|
        invariant iterators == old(iterators) && Apart()
        invariant Model() == before.(calls := Calls())
        invariant forall j :: k <= j < |iterators| ==> Calls()[j] == before.calls[j]
        invariant forall j :: 0 <= j < k ==> Calls()[j] == CloseCancellations(before).calls[j]
      {
        assert Calls()[k] == before.calls[k];
        CloseIfCancelling(k);
      }
      assert Calls() == CloseCancellations(before).calls;
      pendingCancellations := map[];
    }

    method Disconnected()
      requires Valid()
      modifies this, iterators
      ensures iterators == old(iterators) && Valid() && Model() == Step(old(Model()), Disconnect)
    {
      StepSound(Model(), Disconnect);
      assert Step(Model(), Disconnect) == CloseCancellations(FailPending(Model(), |iterators|));
      FailPendingRpcs();
      ClosePendingCancellations();
    }
  }
}
