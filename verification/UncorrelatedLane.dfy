/**
 The uncorrelated path of the multiplexer for one message type as an object: the lane's map entry and the
 chains of promises behind it, over the ring buffer object. Every method takes the step of the same name
 in Lanes and keeps its invariant, so the queue of waiting requests is a plain first-in first-out queue.
 */
module UncorrelatedLanes {
  import opened RingQueues
  import opened Lanes
  import opened PendingQueues

  class UncorrelatedLane {
    var pending: PendingQueue
    var correlationEnabled: bool
    var chains: seq<Chain>
    var lane: Entry
    var withdrawn: set<nat>
    var calls: nat
    ghost var queue: seq<nat>
    ghost var taken: seq<nat>
    ghost var resolved: seq<nat>

    constructor ()
      ensures Valid() && Model() == IDLE && fresh(pending) && fresh(pending.queue)
    {
      pending := new PendingQueue(map[]);
      correlationEnabled, chains, lane, withdrawn, calls := true, [], NoEntry, {}, 0;
      queue, taken, resolved := [], [], [];
      new;
      CreatedIsEmpty(map[]);
    }

    ghost function Model(): Lane
      reads this, pending, pending.queue
    {
      Lane(pending.Model(), queue, correlationEnabled, chains, lane, withdrawn, calls, taken, resolved)
    }

    /** At most one request waits, it is the last in the ring, and the ring holds what a plain queue would. */
    ghost predicate Valid()
      reads this, pending, pending.queue
    {
      Good(Model())
    }

    /** The promise of chain i has settled: the next call that was not withdrawn begins. */
    method Continue(i: nat, queued: seq<nat>)
      requires pending.Bounded() && i < |chains|
      modifies this, pending, pending.queue
      ensures pending.Bounded() && Model() == Launch(old(Model()), i, queued)
      ensures pending == old(pending) && (pending.queue == old(pending.queue) || fresh(pending.queue))
    {
      var rest := queued;
      while rest != [] && rest[0] in withdrawn
        invariant Model() == old(Model()) && pending == old(pending) && pending.queue == old(pending.queue)
        invariant Launch(Model(), i, rest) == Launch(old(Model()), i, queued)
        decreases |rest|
      {
        rest := rest[1..];
      }
      if rest == [] {
        chains := chains[i := Ended];
        if lane == Tail(i) {
          lane := NoEntry;
        }
      } else {
        if !correlationEnabled {
          pending.EnqueuePendingRequest(rest[0]);
          queue := queue + [rest[0]];
        }
        chains := chains[i := Running(rest[0], !correlationEnabled, rest[1..])];
      }
    }

    method SetCapabilities(correlated: bool)
      requires Valid()
      modifies `correlationEnabled
      ensures Valid() && Model() == Step(old(Model()), Negotiate(correlated))
    {
      StepGood(Model(), Negotiate(correlated));
      correlationEnabled := correlated;
    }

    method BeginCall()
      requires pending.Bounded()
      modifies this, pending, pending.queue
      ensures pending.Bounded() && Model() == Call(old(Model()))
    {
      var call := calls;
      calls := calls + 1;
      if lane.Tail? && lane.chain < |chains| && chains[lane.chain].Running? {
        var previous := chains[lane.chain];
        chains := chains[lane.chain := previous.(queued := previous.queued + [call])];
      } else {
        var i := |chains|;
        chains := chains + [Ended];
        lane := Tail(i);
        Continue(i, [call]);
      }
    }

    /** A request of this type; with correlation it does not come this way. */
    method Request()
      requires Valid()
      modifies this, pending, pending.queue
      ensures Valid() && Model() == Step(old(Model()), Lanes.Request)
    {
      StepGood(Model(), Lanes.Request);
      if !correlationEnabled {
        BeginCall();
      }
    }

    /** The signal of a call that has not begun is aborted. */
    method Withdraw(call: nat)
      requires Valid()
      modifies `withdrawn
      ensures Valid() && Model() == Step(old(Model()), Lanes.Withdraw(call))
    {
      StepGood(Model(), Lanes.Withdraw(call));
      if call < calls {
        withdrawn := withdrawn + {call};
      }
    }

    method DropIfEmpty()
      requires pending.Bounded()
      modifies `pending
      ensures pending.Bounded() && pending.Model() == Renewed(old(pending.Model()))
      ensures pending == old(pending) || (fresh(pending) && fresh(pending.queue))
    {
      if pending.size == 0 {
        pending := new PendingQueue(pending.queueIndex);
      }
    }

    method TakeOldest()
      requires Dense(pending.Model()) && pending.size > 0 && queue != []
      modifies this, pending, pending.queue
      ensures pending.Bounded() && Model() == Respond(old(Model()))
    {
      FirstMatched(pending.Model());
      var slot := pending.DequeuePendingRequest();
      DropIfEmpty();
      queue := queue[1..];
      taken := taken + [slot.request];
      var i := ChainOf(chains, slot.request);
      if i < |chains| {
        resolved := resolved + [slot.request];
        Continue(i, chains[i].queued);
      }
    }

    /** A response without correlation goes to the oldest request, or is swallowed if that was given up. */
    method Dispatch() returns (matched: bool)
      requires Valid()
      modifies this, pending, pending.queue
      ensures Valid() && Model() == Step(old(Model()), Response)
      ensures matched == (old(queue) != [])
    {
      StepGood(Model(), Response);
      RingHoldsQueue(Model());
      matched := pending.size > 0;
      if matched {
        TakeOldest();
      }
    }

    /** A running request times out, is aborted or answered with correlation; in the ring it leaves its slot. */
    method Settled(i: nat)
      requires Valid() && Runs(Model(), i)
      modifies this, pending, pending.queue
      ensures Valid() && Model() == Step(old(Model()), GivenUp(i))
    {
      StepGood(Model(), GivenUp(i));
      Continue(i, chains[i].queued);
    }

    method TakeOut(chain: Chain)
      requires pending.Bounded() && chain.Running?
      modifies this, pending, pending.queue
      ensures pending.Bounded() && Model() == Lanes.TakeOut(old(Model()), chain)
      ensures pending == old(pending) || fresh(pending)
      ensures pending.queue == old(pending.queue) || fresh(pending.queue)
    {
      if chain.inRing {
        pending.UnregisterRequest(chain.call);
        DropIfEmpty();
        queue := Without(queue, chain.call);
      }
    }

    /** A send that is rejected takes its request out of the ring. */
    method SendRejected(i: nat)
      requires Valid() && Runs(Model(), i)
      modifies this, pending, pending.queue
      ensures Valid() && Model() == Step(old(Model()), Lanes.SendRejected(i))
    {
      StepGood(Model(), Lanes.SendRejected(i));
      var queued := chains[i].queued;
      TakeOut(chains[i]);
      Continue(i, queued);
    }

    method Forget()
      modifies this
      ensures pending.Bounded() && Model() == Reset(old(Model())) && fresh(pending) && fresh(pending.queue)
    {
      lane := NoEntry;
      correlationEnabled := true;
      pending := new PendingQueue(pending.queueIndex);
      queue := [];
    }

    /** Every running call is rejected, which starts the call behind it. */
    method RejectRunning()
      requires pending.Bounded()
      modifies this, pending, pending.queue
      ensures pending.Bounded() && Model() == SettleAll(old(Model()), old(|chains|))
    {
      ghost var reset := Model();
      for i := 0 to |chains|
        invariant |chains| == |reset.chains| && pending.Bounded()
        invariant pending == old(pending) && (pending.queue == old(pending.queue) || fresh(pending.queue))
        invariant Model() == SettleAll(reset, i)
      {
        if chains[i].Running? {
          Continue(i, chains[i].queued);
        }
      }
    }

    /**
     The lane's map entry goes, the ring is dropped, and every running call is rejected, which starts the
     call behind it. The invariant survives if at most one call waited behind each.
     */
    method SetDisconnected()
      requires Valid()
      modifies this, pending, pending.queue
      ensures Model() == Step(old(Model()), Disconnect)
      ensures old(Behind(Model(), 1)) ==> Valid()
    {
      if Behind(Model(), 1) {
        StepGood(Model(), Disconnect);
      }
      Forget();
      RejectRunning();
    }
  }
}
