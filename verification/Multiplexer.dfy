/**
 The correlated path of the request multiplexer as it is written: a table by correlation, records in
 the deadline heap, one shared timer, the gauge. Every operation is proved to take exactly the step
 of MuxModel, and to leave the heap holding exactly the requests not yet settled, under a timer armed
 no later than any of their deadlines.
 */
module Multiplexers {
  import opened Requests
  import opened TimeoutHeaps
  import opened MuxModel

  /** A moment the timer is armed for; Never is the source's Infinity. */
  datatype Moment = At(time: int) | Never {
    predicate NoLaterThan(t: int) {
      At? && time <= t
    }
  }

  class Multiplexer {
    const heap: TimeoutHeap
    /** Per call, in issue order: its record, its promise and identity, and its discard mark. */
    var records: seq<PendingRequest>
    var calls: seq<Call>
    var discardResponse: seq<bool>
    var pendingByCorrelation: map<nat, nat>
    var nextCorrelationId: nat
    var epoch: nat
    var online: bool
    var timerArmed: bool
    var nextTimeoutDeadline: Moment
    var requestsInFlight: int
    /** Sends rejected since the last disconnect: the gauge is not lowered for them. */
    ghost var unaccounted: nat

    /** The state of MuxModel these fields are in. */
    ghost function Model(): State
      reads `calls, `pendingByCorrelation, `epoch, `nextCorrelationId, `online
    {
      State(calls, pendingByCorrelation, epoch, nextCorrelationId, online)
    }

    /** The heap holds exactly the records of the waiting calls, each at its own deadline. */
    ghost predicate HeapHoldsWaiting()
      reads `records, `calls, heap, heap.members`deadline
    {
      && |records| == |calls|
      && (forall c :: 0 <= c < |calls| ==>
            records[c].call == c && (calls[c].outcome == Waiting ==> records[c] in heap.members))
      && (forall r :: r in heap.members ==>
            && r.call < |records| && records[r.call] == r
            && calls[r.call].outcome == Waiting && r.deadline == calls[r.call].due)
    }

    /** A non-empty heap has the timer armed no later than any deadline in it. */
    ghost predicate TimerCovers()
      reads `timerArmed, `nextTimeoutDeadline, heap, heap.members`deadline
    {
      forall r :: r in heap.members ==> timerArmed && nextTimeoutDeadline.NoLaterThan(r.deadline)
    }

    /** A table entry is marked to be discarded exactly when its call has settled. */
    ghost predicate MarksSettled()
      reads `calls, `discardResponse, `pendingByCorrelation
    {
      Marked(calls, discardResponse, pendingByCorrelation)
    }

    /** The gauge counts the waiting calls and, on top, every send rejected since the last disconnect. */
    ghost predicate GaugeHolds()
      reads `requestsInFlight, `unaccounted, heap
    {
      requestsInFlight == |heap.entries| + unaccounted
    }

    /** Everything but the timer. */
    ghost predicate Consistent()
      reads `records, `calls, `discardResponse, `pendingByCorrelation, `requestsInFlight, `unaccounted
      reads heap, heap.entries, heap.members
    {
      heap.Valid() && HeapHoldsWaiting() && MarksSettled() && GaugeHolds()
    }

    ghost predicate Valid()
      reads this, heap, heap.entries, heap.members
    {
      Consistent() && TimerCovers()
    }

    constructor ()
      ensures Valid() && Model() == Init() && fresh(heap) && records == []
    {
      heap := new TimeoutHeap();
      records, calls, discardResponse := [], [], [];
      pendingByCorrelation := map[];
      nextCorrelationId := 1;
      epoch := 0;
      online := false;
      timerArmed := false;
      nextTimeoutDeadline := Never;
      requestsInFlight := 0;
      unaccounted := 0;
    }

    /** An identifier, or 0 when those of this session are used up. */
    method AllocateCorrelationId() returns (id: nat)
      requires Valid()
      modifies `nextCorrelationId
      ensures Valid() && id == old(nextCorrelationId) && Model() == Step(old(Model()), Allocate)
    {
      id := nextCorrelationId;
      if id != 0 {
        nextCorrelationId := if id == MAX_CORRELATION then 0 else id + 1;
      }
    }

    method ScheduleTimeout(deadline: int)
      modifies `timerArmed, `nextTimeoutDeadline
      ensures timerArmed && nextTimeoutDeadline.NoLaterThan(deadline)
      ensures old(timerArmed) && old(nextTimeoutDeadline).At? ==>
        nextTimeoutDeadline.NoLaterThan(old(nextTimeoutDeadline).time)
    {
      if timerArmed && nextTimeoutDeadline.NoLaterThan(deadline) {
        return;
      }
      nextTimeoutDeadline := At(deadline);
      timerArmed := true;
    }

    /** Issues a request; nothing is made when the signal is already aborted or the identifiers are used up. */
    method Issue(due: int, aborted: bool) returns (made: bool)
      requires Valid()
      modifies this, heap, heap.members`timeoutIndex
      ensures Valid() && made == (!aborted && old(nextCorrelationId) != 0)
      ensures Model() == if aborted then old(Model()) else Step(old(Model()), Event.Issue(due))
    {
      made := false;
      if !aborted {
        var id := AllocateCorrelationId();
        if id != 0 {
          Register(id, due);
          made := true;
        }
      }
    }

    /** Enters a request in the table, the heap and the gauge. */
    method Register(id: nat, due: int)
      requires Valid()
      modifies this, heap, heap.members`timeoutIndex
      ensures Valid() && nextCorrelationId == old(nextCorrelationId)
      ensures Model() == old(Model()).(calls := old(calls) + [Call(epoch, id, due, Waiting)],
                                       table := old(pendingByCorrelation)[id := old(|calls|)])
    {
      IssuedMarked(calls, discardResponse, pendingByCorrelation, Call(epoch, id, due, Waiting));
      Push(id, due);
      pendingByCorrelation := pendingByCorrelation[id := |calls| - 1];
      discardResponse := discardResponse + [false];
      requestsInFlight := requestsInFlight + 1;
    }

    /** Makes the record, pushes it on the heap and arms the timer for it. */
    method Push(id: nat, due: int)
      requires heap.Valid() && HeapHoldsWaiting() && TimerCovers()
      modifies `records, `calls, `timerArmed, `nextTimeoutDeadline
      modifies heap, heap.members`timeoutIndex
      ensures heap.Valid() && HeapHoldsWaiting() && TimerCovers()
      ensures |heap.entries| == old(|heap.entries|) + 1
      ensures calls == old(calls) + [Call(epoch, id, due, Waiting)]
    {
      MakeRecord(id, due);
      ScheduleTimeout(due);
    }

    method MakeRecord(id: nat, due: int)
      requires heap.Valid() && HeapHoldsWaiting()
      modifies `records, `calls, heap, heap.members`timeoutIndex
      ensures heap.Valid() && HeapHoldsWaiting()
      ensures |heap.entries| == old(|heap.entries|) + 1
      ensures calls == old(calls) + [Call(epoch, id, due, Waiting)]
      ensures forall r :: r in heap.members ==> r in old(heap.members) || r.deadline == due
    {
      var r := new PendingRequest(|calls|, due, |heap.entries|);
      heap.Insert(r);
      records := records + [r];
      calls := calls + [Call(epoch, id, due, Waiting)];
    }

    /**
     Takes the record of a call out of the heap. A response overwrites the deadline first, so the record is
     then removed from a heap that may be out of order at it.
     */
    method Unschedule(c: nat, answered: bool)
      requires heap.Valid() && c < |records| && records[c] in heap.members
      modifies heap, heap.members`timeoutIndex, {records[c]}`deadline
      ensures heap.Valid() && heap.members == old(heap.members) - {records[c]}
      ensures |heap.entries| == old(|heap.entries|) - 1
    {
      if answered {
        heap.Overwrite(records[c]);
      } else {
        HeapIsOrderedAround(heap.entries, records[c].timeoutIndex);
      }
      heap.Remove(records[c]);
      records[c].deadline := -1;
    }

    /** Settles a waiting call. */
    method Finalize(c: nat, outcome: Outcome)
      requires heap.Valid() && HeapHoldsWaiting() && c < |calls| && calls[c].outcome == Waiting && outcome != Waiting
      modifies heap, heap.members`timeoutIndex, {records[c]}`deadline, `calls
      ensures heap.Valid() && HeapHoldsWaiting() && heap.members == old(heap.members) - {records[c]}
      ensures |heap.entries| == old(|heap.entries|) - 1
      ensures calls == old(calls)[c := old(calls)[c].(outcome := outcome)]
      ensures old(TimerCovers()) ==> TimerCovers()
    {
      Unschedule(c, outcome.Resolved?);
      calls := calls[c := calls[c].(outcome := outcome)];
    }

    /** A request that fails while its frame may be on the wire stays in the table as a tombstone. */
    method FailRequest(c: nat, why: Failure)
      requires Consistent() && c < |calls|
      modifies `calls, `discardResponse, `requestsInFlight, heap, heap.members`timeoutIndex, heap.members`deadline
      ensures Consistent() && Model() == Settle(old(Model()), c, Failed(why))
      ensures heap.members == old(heap.members) - {records[c]}
      ensures |heap.entries| == old(|heap.entries|) - (if old(calls)[c].outcome == Waiting then 1 else 0)
      ensures old(TimerCovers()) ==> TimerCovers()
    {
      if calls[c].outcome == Waiting {
        Finalize(c, Failed(why));
        discardResponse := discardResponse[c := true];
        requestsInFlight := requestsInFlight - 1;
      }
    }

    method Abort(c: nat)
      requires Valid() && c < |calls|
      modifies this, heap, heap.members`timeoutIndex, heap.members`deadline
      ensures Valid() && Model() == Step(old(Model()), Event.Abort(c))
      ensures Judged(old(Model()), Event.Abort(c), calls)
    {
      MarkedJudges(Model(), discardResponse, Event.Abort(c));
      FailRequest(c, Aborted);
    }

    /** The transport's send throws before it returns a promise. */
    method SendThrew(c: nat)
      requires Valid() && c < |calls|
      modifies this, heap, heap.members`timeoutIndex, heap.members`deadline
      ensures Valid() && Model() == Step(old(Model()), Event.SendThrew(c))
      ensures Judged(old(Model()), Event.SendThrew(c), calls)
    {
      MarkedJudges(Model(), discardResponse, Event.SendThrew(c));
      FailRequest(c, SendFailed);
    }

    method SendResolved(c: nat)
      requires Valid() && c < |calls|
      modifies this, heap, heap.members`timeoutIndex, heap.members`deadline
      ensures Valid() && Model() == Step(old(Model()), Event.SendResolved(c))
      ensures Judged(old(Model()), Event.SendResolved(c), calls)
    {
      MarkedJudges(Model(), discardResponse, Event.SendResolved(c));
      if !online {
        FailRequest(c, ConnectionReset);
      }
    }

    /** A rejected send unregisters the request; the gauge keeps counting it. */
    method SendRejected(c: nat)
      requires Valid() && c < |calls|
      modifies this, heap, heap.members`timeoutIndex, heap.members`deadline
      ensures Valid() && Model() == Step(old(Model()), Event.SendRejected(c))
      ensures Judged(old(Model()), Event.SendRejected(c), calls)
      ensures unaccounted == old(unaccounted) + (if Live(old(Model()), c) then 1 else 0)
    {
      MarkedJudges(Model(), discardResponse, Event.SendRejected(c));
      if calls[c].outcome == Waiting {
        Unregister(c);
      }
    }

    method Unregister(c: nat)
      requires Valid() && c < |calls| && calls[c].outcome == Waiting
      modifies this, heap, heap.members`timeoutIndex, heap.members`deadline
      ensures Valid() && unaccounted == old(unaccounted) + 1
      ensures Model() == Settle(old(Model()), c, Failed(SendFailed)).(table := old(pendingByCorrelation) - {old(calls)[c].id})
    {
      RemovedMarked(calls, discardResponse, pendingByCorrelation, c, Failed(SendFailed));
      Finalize(c, Failed(SendFailed));
      pendingByCorrelation := pendingByCorrelation - {calls[c].id};
      unaccounted := unaccounted + 1;
    }

    /**
     A frame that carries a correlation. It throws for an unknown one; a tombstone swallows it; a final
     frame overwrites the deadline with -1 while the record is still in the heap, and resolves the call.
     */
    method Dispatch(id: nat, payload: Bytes, final: bool) returns (unexpected: bool)
      requires Valid()
      modifies this, heap, heap.members`timeoutIndex, heap.members`deadline
      ensures Valid() && Model() == Step(old(Model()), Frame(id, payload, final))
      ensures unexpected <==> id !in old(pendingByCorrelation)
      ensures !final || unexpected ==> calls == old(calls) && pendingByCorrelation == old(pendingByCorrelation)
      ensures final && !unexpected ==>
                && pendingByCorrelation == old(pendingByCorrelation) - {id}
                && calls == Answered(old(calls), old(pendingByCorrelation)[id], payload)
    {
      unexpected := id !in pendingByCorrelation;
      if unexpected {
        return;
      }
      var c := pendingByCorrelation[id];
      if discardResponse[c] {
        if final {
          pendingByCorrelation := pendingByCorrelation - {id};
        }
      } else if final {
        Resolve(c, id, payload);
      }
    }

    method Resolve(c: nat, id: nat, payload: Bytes)
      requires Valid() && id in pendingByCorrelation && pendingByCorrelation[id] == c && !discardResponse[c]
      modifies this, heap, heap.members`timeoutIndex, heap.members`deadline
      ensures Valid() && Model() == Settle(old(Model()), c, Resolved(payload)).(table := old(pendingByCorrelation) - {id})
    {
      RemovedMarked(calls, discardResponse, pendingByCorrelation, c, Resolved(payload));
      pendingByCorrelation := pendingByCorrelation - {id};
      requestsInFlight := requestsInFlight - 1;
      Finalize(c, Resolved(payload));
    }

    /**
     The timer fires: every waiting call whose deadline has come fails, and becomes a tombstone; the
     timer is armed again for the earliest deadline left.
     */
    method HandleTimeouts(now: int)
      requires Valid()
      modifies this, heap, heap.members`timeoutIndex, heap.members`deadline
      ensures Valid() && Model() == Step(old(Model()), Timeouts(now))
      ensures Judged(old(Model()), Timeouts(now), calls)
    {
      MarkedJudges(Model(), discardResponse, Timeouts(now));
      timerArmed := false;
      nextTimeoutDeadline := Never;
      ExpireAndRearm(now);
    }

    method ExpireAndRearm(now: int)
      requires Consistent()
      modifies `calls, `discardResponse, `requestsInFlight, `timerArmed, `nextTimeoutDeadline
      modifies heap, heap.members`timeoutIndex, heap.members`deadline
      ensures Valid() && Model() == Step(old(Model()), Timeouts(now))
    {
      ghost var s := Model();
      ExpireDue(now);
      Rearm(now);
      AllExpired(s, calls, now);
    }

    method ExpireDue(now: int)
      requires Consistent()
      modifies `calls, `discardResponse, `requestsInFlight, heap, heap.members`timeoutIndex, heap.members`deadline
      ensures Consistent() && SomeExpired(old(calls), calls, now)
      ensures heap.entries != [] ==> now < heap.entries[0].deadline
    {
      while |heap.entries| > 0 && heap.entries[0].deadline <= now
        invariant Consistent() && SomeExpired(old(calls), calls, now)
        invariant heap.members <= old(heap.members)
        decreases |heap.entries|
      {
        FailRequest(heap.entries[0].call, TimedOut);
      }
    }

    method Rearm(ghost now: int)
      requires Consistent() && (heap.entries != [] ==> now < heap.entries[0].deadline)
      modifies `timerArmed, `nextTimeoutDeadline
      ensures TimerCovers()
      ensures forall i :: 0 <= i < |calls| && calls[i].outcome == Waiting ==> now < calls[i].due
    {
      if |heap.entries| > 0 {
        nextTimeoutDeadline := At(heap.entries[0].deadline);
        timerArmed := true;
      }
      forall r | r in heap.members
        ensures timerArmed && nextTimeoutDeadline.NoLaterThan(r.deadline) && now < r.deadline
      {
        RootIsLeast(heap.entries, r.timeoutIndex);
      }
    }

    /**
     Ends the session: everything in the table is rejected and dropped, and the timer is disarmed. The
     heap is emptied as well, so it still holds what waits if every waiting call was in the table, which
     is so in each orderly run (MuxModel.RunCovered).
     */
    method SetDisconnected()
      requires Valid()
      modifies this, heap, heap.members`timeoutIndex, heap.members`deadline
      ensures Model() == Step(old(Model()), Disconnect) && Judged(old(Model()), Disconnect, calls)
      ensures heap.entries == [] && requestsInFlight == 0
      ensures old(Entered(calls, pendingByCorrelation)) ==> Valid()
    {
      MarkedJudges(Model(), discardResponse, Disconnect);
      online := false;
      StopAndCancel();
    }

    method StopAndCancel()
      requires Consistent()
      modifies `calls, `pendingByCorrelation, `requestsInFlight, `unaccounted, `timerArmed, `nextTimeoutDeadline
      modifies heap, heap.members`timeoutIndex, heap.members`deadline
      ensures heap.entries == [] && requestsInFlight == 0
      ensures pendingByCorrelation == map[] && calls == Step(old(Model()), Disconnect).calls
      ensures old(Entered(calls, pendingByCorrelation)) ==> Valid()
    {
      timerArmed := false;
      nextTimeoutDeadline := Never;
      CancelAll();
    }

    method CancelAll()
      requires Consistent()
      modifies `calls, `pendingByCorrelation, `requestsInFlight, `unaccounted
      modifies heap, heap.members`timeoutIndex, heap.members`deadline
      ensures heap.entries == [] && heap.members == {} && requestsInFlight == 0
      ensures pendingByCorrelation == map[] && calls == Step(old(Model()), Disconnect).calls
      ensures old(Entered(calls, pendingByCorrelation)) ==> Consistent()
    {
      ghost var s := Model();
      var requestsToCancel := pendingByCorrelation.Values;
      pendingByCorrelation := map[];
      RejectAll(requestsToCancel);
      NoneWaitsAfterCancel(s, calls);
      heap.Clear();
      requestsInFlight := 0;
      unaccounted := 0;
    }

    method RejectAll(requestsToCancel: set<nat>)
      requires heap.Valid() && HeapHoldsWaiting()
      requires forall c :: c in requestsToCancel ==> c < |calls|
      modifies `calls, heap, heap.members`timeoutIndex, heap.members`deadline
      ensures heap.Valid() && HeapHoldsWaiting()
      ensures SomeRejected(old(calls), calls, requestsToCancel)
    {
      var left := requestsToCancel;
      while left != {}
        invariant heap.Valid() && HeapHoldsWaiting() && left <= requestsToCancel
        invariant SomeRejected(old(calls), calls, requestsToCancel - left)
        invariant heap.members <= old(heap.members)
        decreases left
      {
        var c :| c in left;
        left := left - {c};
        if calls[c].outcome == Waiting {
          Finalize(c, Failed(ConnectionReset));
        }
      }
    }

    /** A session begins and identifiers start again at 1. */
    method SetConnected()
      requires Valid()
      modifies this
      ensures Valid() && Model() == Step(old(Model()), Connect)
    {
      online := true;
      nextCorrelationId := 1;
      epoch := epoch + 1;
    }
  }

  /** The calls after this one, if it waited, was resolved with the payload. */
  function Answered(calls: seq<Call>, c: nat, payload: Bytes): seq<Call> {
    if c < |calls| && calls[c].outcome == Waiting then calls[c := calls[c].(outcome := Resolved(payload))] else calls
  }

  lemma MarkedJudges(s: State, discard: seq<bool>, e: Event)
    requires Marked(s.calls, discard, s.table)
    ensures Judged(s, e, Step(s, e).calls)
  {
    StepJudges(s, e);
  }

  ghost predicate Marked(calls: seq<Call>, discard: seq<bool>, table: map<nat, nat>) {
    && |discard| == |calls|
    && forall id :: id in table ==>
         && table[id] < |calls| && calls[table[id]].id == id && discard[table[id]] == (calls[table[id]].outcome != Waiting)
  }

  lemma IssuedMarked(calls: seq<Call>, discard: seq<bool>, table: map<nat, nat>, call: Call)
    requires Marked(calls, discard, table) && call.outcome == Waiting
    ensures Marked(calls + [call], discard + [false], table[call.id := |calls|])
  {
  }

  /** A call that leaves the table may settle unmarked. */
  lemma RemovedMarked(calls: seq<Call>, discard: seq<bool>, table: map<nat, nat>, c: nat, outcome: Outcome)
    requires Marked(calls, discard, table) && c < |calls|
    ensures Marked(calls[c := calls[c].(outcome := outcome)], discard, table - {calls[c].id})
  {
  }

  /** Between `before` and `after` nothing happened but that some overdue calls timed out. */
  ghost predicate SomeExpired(before: seq<Call>, after: seq<Call>, now: int) {
    && |after| == |before|
    && forall i :: 0 <= i < |before| ==>
         after[i] == before[i] || (before[i].due <= now && after[i] == FailIf(before[i], true, TimedOut))
  }

  /** Exactly the calls in `those` that were waiting have been rejected. */
  ghost predicate SomeRejected(before: seq<Call>, after: seq<Call>, those: set<nat>) {
    && |after| == |before|
    && forall i :: 0 <= i < |before| ==> after[i] == FailIf(before[i], i in those, ConnectionReset)
  }

  lemma AllExpired(s: State, after: seq<Call>, now: int)
    requires SomeExpired(s.calls, after, now)
    requires forall i :: 0 <= i < |after| && after[i].outcome == Waiting ==> now < after[i].due
    ensures s.(calls := after) == Step(s, Timeouts(now))
  {
  }

  /** If every waiting call is in the table, none waits after everything in the table was rejected. */
  lemma NoneWaitsAfterCancel(s: State, after: seq<Call>)
    requires SomeRejected(s.calls, after, s.table.Values)
    ensures after == Step(s, Disconnect).calls
    ensures Entered(s.calls, s.table) ==> forall i :: 0 <= i < |after| ==> after[i].outcome != Waiting
  {
    if Entered(s.calls, s.table) {
      forall i | 0 <= i < |s.calls| && Live(s, i) ensures i in s.table.Values {
        assert s.table[s.calls[i].id] == i;
      }
    }
  }
}
