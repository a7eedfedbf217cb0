/**
 No call of the lane is forgotten: each runs, waits behind one that runs, was settled by an event while it ran, or was
 withdrawn before its turn; and what waits behind a call runs once that has settled.
 */
module LaneProgress {
  import opened Lanes
  import opened RingQueues

  /** The event settles the running call of chain i. */
  predicate Settles(l: Lane, e: Event, i: nat)
    requires InBounds(l.ring)
  {
    Runs(l, i) &&
    match e
    case GivenUp(j) => j == i
    case SendRejected(j) => j == i
    case Disconnect => true
    case Response => Matched(l) == Holds(l.chains[i].call) && ChainOf(l.chains, l.chains[i].call) == i
    case _ => false
  }

  /** The slot a response is matched with. */
  function Matched(l: Lane): Slot
    requires InBounds(l.ring)
  {
    Dequeue(l.ring, |l.ring.slots|).0
  }

  /** After its running call settled, the chain runs the first call behind it that was not withdrawn, or has ended. */
  ghost predicate Advanced(before: Chain, after: Chain, withdrawn: set<nat>, correlated: bool) {
    && before.Running?
    && var waiters := Waiters(before.queued, withdrawn);
       if waiters == [] then after.Ended?
       else && after.Running? && after.call == waiters[0] && after.inRing == !correlated
            && Waiters(after.queued, withdrawn) == waiters[1..]
  }

  lemma {:induction false} LaunchAdvances(l: Lane, i: nat, queued: seq<nat>, call: nat, inRing: bool)
    requires InBounds(l.ring) && i < |l.chains|
    ensures Advanced(Running(call, inRing, queued), Launch(l, i, queued).chains[i], l.withdrawn, l.correlated)
    decreases |queued|
  {
    if queued != [] && queued[0] in l.withdrawn {
      LaunchAdvances(l, i, queued[1..], call, inRing);
    }
  }

  lemma {:induction false} LaunchKeeps(l: Lane, i: nat, queued: seq<nat>)
    requires InBounds(l.ring) && i < |l.chains|
    ensures var n := Launch(l, i, queued); n.withdrawn == l.withdrawn && n.correlated == l.correlated && n.next == l.next
    decreases |queued|
  {
    if queued != [] && queued[0] in l.withdrawn {
      LaunchKeeps(l, i, queued[1..]);
    }
  }

  lemma {:induction false} SettleAllKeeps(l: Lane, n: nat)
    requires InBounds(l.ring) && n <= |l.chains|
    ensures var m := SettleAll(l, n); m.withdrawn == l.withdrawn && m.correlated == l.correlated && m.next == l.next
  {
    if n > 0 {
      SettleAllKeeps(l, n - 1);
      var m := SettleAll(l, n - 1);
      if m.chains[n - 1].Running? {
        LaunchKeeps(m, n - 1, m.chains[n - 1].queued);
      }
    }
  }

  /**
   A chain advances exactly when the event settles its running call; otherwise it stays as it is, but for a new call
   that joins its end.
   */
  lemma ChainAdvances(l: Lane, e: Event, i: nat)
    requires InBounds(l.ring) && i < |l.chains|
    ensures var n := Step(l, e);
            i < |n.chains| &&
            if Settles(l, e, i) then Advanced(l.chains[i], n.chains[i], l.withdrawn, if e.Disconnect? then true else l.correlated)
            else || n.chains[i] == l.chains[i]
                 || (e.Request? && Runs(l, i) && n.chains[i] == l.chains[i].(queued := l.chains[i].queued + [l.next]))
  {
    match e
    case GivenUp(j) => if Runs(l, j) { LaunchAdvances(l, j, l.chains[j].queued, l.chains[j].call, l.chains[j].inRing); }
    case SendRejected(j) =>
      if Runs(l, j) {
        LaunchAdvances(TakeOut(l, l.chains[j]), j, l.chains[j].queued, l.chains[j].call, l.chains[j].inRing);
      }
    case Disconnect => DisconnectAt(l, i);
    case Response => ResponseAdvances(l, i);
    case Request =>
    case _ =>
  }

  lemma ResponseAdvances(l: Lane, i: nat)
    requires InBounds(l.ring) && i < |l.chains|
    ensures var n := Respond(l);
            |n.chains| == |l.chains| &&
            if Settles(l, Response, i) then Advanced(l.chains[i], n.chains[i], l.withdrawn, l.correlated)
            else n.chains[i] == l.chains[i]
  {
    var (slot, ring) := Dequeue(l.ring, |l.ring.slots|);
    if slot.Holds? {
      var j := ChainOf(l.chains, slot.request);
      if j < |l.chains| {
        var taken := l.(ring := Renewed(ring), queue := if l.queue == [] then [] else l.queue[1..], taken := l.taken + [slot.request]);
        LaunchAdvances(taken.(resolved := l.resolved + [slot.request]), j, l.chains[j].queued, l.chains[j].call, l.chains[j].inRing);
      }
    }
  }

  // ---------- No call is forgotten ----------

  predicate InChain(l: Lane, i: nat, c: nat) {
    Runs(l, i) && (l.chains[i].call == c || c in l.chains[i].queued)
  }

  lemma {:induction false} WaitersAre(queued: seq<nat>, withdrawn: set<nat>, c: nat)
    ensures c in Waiters(queued, withdrawn) <==> c in queued && c !in withdrawn
  {
    if queued != [] {
      WaitersAre(queued[1..], withdrawn, c);
      assert c in queued <==> c == queued[0] || c in queued[1..];
    }
  }

  /** A call leaves its chain only as the running call that is settled, or withdrawn when its turn comes. */
  predicate Leaves(l: Lane, e: Event, i: nat, c: nat)
    requires InBounds(l.ring)
  {
    InChain(l, i, c) && Settles(l, e, i) && (l.chains[i].call == c || c in l.withdrawn)
  }

  lemma StepKeepsCall(l: Lane, e: Event, i: nat, c: nat)
    requires InBounds(l.ring) && InChain(l, i, c)
    ensures InChain(Step(l, e), i, c) || Leaves(l, e, i, c)
  {
    ChainAdvances(l, e, i);
    if Settles(l, e, i) && l.chains[i].call != c && c !in l.withdrawn {
      var waiters := Waiters(l.chains[i].queued, l.withdrawn);
      var after := Step(l, e).chains[i];
      WaitersAre(l.chains[i].queued, l.withdrawn, c);
      assert c == waiters[0] || c in waiters[1..];
      WaitersAre(after.queued, l.withdrawn, c);
    }
  }

  /** Without correlation a call joins the end of the chain in the map, or begins a chain and waits in the ring. */
  lemma CallTakesPlace(l: Lane)
    requires InBounds(l.ring) && l.next !in l.withdrawn
    ensures var n := Step(l, Request);
            if l.correlated then n == l
            else && n.next == l.next + 1
                 && if l.entry.Tail? && Runs(l, l.entry.chain)
                    then var i := l.entry.chain;
                         n.chains == l.chains[i := l.chains[i].(queued := l.chains[i].queued + [l.next])] && n.entry == l.entry
                    else && n.chains == l.chains + [Running(l.next, true, [])] && n.entry == Tail(|l.chains|)
                         && n.queue == l.queue + [l.next]
  {
    var began := l.chains + [Ended];
    assert began[|l.chains| := Running(l.next, true, [])] == l.chains + [Running(l.next, true, [])];
    assert [l.next][1..] == [];
  }

  lemma StepNumbersCalls(l: Lane, e: Event)
    requires InBounds(l.ring) && forall x :: x in l.withdrawn ==> x < l.next
    ensures var n := Step(l, e);
            && (forall x :: x in n.withdrawn ==> x < n.next)
            && n.next == l.next + (if e.Request? && !l.correlated then 1 else 0)
  {
    match e
    case Request => CallTakesPlace(l); CallKeepsWithdrawn(l);
    case Response => ResponseKeeps(l);
    case GivenUp(i) => if Runs(l, i) { LaunchKeeps(l, i, l.chains[i].queued); }
    case SendRejected(i) => if Runs(l, i) { LaunchKeeps(TakeOut(l, l.chains[i]), i, l.chains[i].queued); }
    case Disconnect => SettleAllKeeps(Reset(l), |l.chains|);
    case _ =>
  }

  lemma CallKeepsWithdrawn(l: Lane)
    requires InBounds(l.ring)
    ensures Call(l).withdrawn == l.withdrawn
  {
    LaunchKeeps(l.(next := l.next + 1, chains := l.chains + [Ended], entry := Tail(|l.chains|)), |l.chains|, [l.next]);
  }

  lemma ResponseKeeps(l: Lane)
    requires InBounds(l.ring)
    ensures Respond(l).withdrawn == l.withdrawn && Respond(l).next == l.next
  {
    var (slot, ring) := Dequeue(l.ring, |l.ring.slots|);
    if slot.Holds? {
      var j := ChainOf(l.chains, slot.request);
      if j < |l.chains| {
        var taken := l.(ring := Renewed(ring), queue := if l.queue == [] then [] else l.queue[1..], taken := l.taken + [slot.request]);
        LaunchKeeps(taken.(resolved := l.resolved + [slot.request]), j, l.chains[j].queued);
      }
    }
  }

  lemma {:induction false} RunNumbersCalls(events: seq<Event>)
    ensures forall x :: x in Run(events).withdrawn ==> x < Run(events).next
  {
    if events != [] {
      RunNumbersCalls(events[..|events| - 1]);
      StepNumbersCalls(Run(events[..|events| - 1]), events[|events| - 1]);
    }
  }

  predicate LeftAt(events: seq<Event>, k: nat, i: nat, c: nat) {
    k < |events| && Leaves(Run(events[..k]), events[k], i, c)
  }

  ghost predicate Left(events: seq<Event>, c: nat) {
    exists k: nat, i: nat :: LeftAt(events, k, i, c)
  }

  ghost predicate Pending(l: Lane, c: nat) {
    exists i: nat :: InChain(l, i, c)
  }

  lemma {:induction false} StillLeft(events: seq<Event>, c: nat)
    requires events != [] && Left(events[..|events| - 1], c)
    ensures Left(events, c)
  {
    var k: nat, i: nat :| LeftAt(events[..|events| - 1], k, i, c);
    assert events[..|events| - 1][..k] == events[..k];
    assert LeftAt(events, k, i, c);
  }

  /**
   In every run, disconnects included, every call made without correlation runs or waits behind one that does, or it
   ran until an event settled it, or it was withdrawn when its turn came.
   */
  lemma {:induction false} NoCallIsForgotten(events: seq<Event>, c: nat)
    requires c < Run(events).next
    ensures Pending(Run(events), c) || Left(events, c)
  {
    assert events != [];
    var n := |events| - 1;
    var l, e := Run(events[..n]), events[n];
    RunNumbersCalls(events[..n]);
    StepNumbersCalls(l, e);
    if c < l.next {
      NoCallIsForgotten(events[..n], c);
      if Left(events[..n], c) {
        StillLeft(events, c);
      } else {
        var i: nat :| InChain(l, i, c);
        StepKeepsCall(l, e, i, c);
        assert Leaves(l, e, i, c) ==> LeftAt(events, n, i, c);
      }
    } else {
      CallTakesPlace(l);
      assert InChain(Run(events), if l.entry.Tail? && Runs(l, l.entry.chain) then l.entry.chain else |l.chains|, c);
    }
  }

  /**
   In every run within the bounds of `RingRefinesFifo`, a response settles the chain whose call has waited longest in
   the ring, if that call still waits.
   */
  lemma {:induction false} ResponseSettlesOldest(events: seq<Event>, i: nat)
    requires Gentle(IDLE, events) && Runs(Run(events), i) && Run(events).chains[i].inRing
    ensures Run(events).queue != []
    ensures Settles(Run(events), Response, i) <==> Run(events).queue[0] == Run(events).chains[i].call
  {
    var l := Run(events);
    CreatedIsEmpty(map[]);
    RunFromGood(IDLE, events);
    GoodMeansOne(l);
    RingHoldsQueue(l);
    FirstMatched(l.ring);
    var j := ChainOf(l.chains, l.chains[i].call);
    assert j < |l.chains| ==> j == i;
  }

  // ---------- Withdrawing ----------

  lemma StepWithdraws(l: Lane, e: Event, c: nat)
    requires InBounds(l.ring)
    ensures c in Step(l, e).withdrawn <==> c in l.withdrawn || (e == Withdraw(c) && c < l.next)
  {
    match e
    case Request => CallKeepsWithdrawn(l);
    case Response => ResponseKeeps(l);
    case GivenUp(i) => if Runs(l, i) { LaunchKeeps(l, i, l.chains[i].queued); }
    case SendRejected(i) => if Runs(l, i) { LaunchKeeps(TakeOut(l, l.chains[i]), i, l.chains[i].queued); }
    case Disconnect => SettleAllKeeps(Reset(l), |l.chains|);
    case _ =>
  }

  predicate WithdrawnAt(events: seq<Event>, k: nat, c: nat) {
    k < |events| && events[k] == Withdraw(c) && c < Run(events[..k]).next
  }

  /** In every run, a call is withdrawn exactly if it was withdrawn after it was made; it then never runs if it waited. */
  lemma {:induction false} WithdrawnIff(events: seq<Event>, c: nat)
    ensures c in Run(events).withdrawn <==> exists k: nat :: WithdrawnAt(events, k, c)
  {
    if events != [] {
      var n := |events| - 1;
      WithdrawnIff(events[..n], c);
      StepWithdraws(Run(events[..n]), events[n], c);
      forall k: nat | k < n ensures WithdrawnAt(events, k, c) <==> WithdrawnAt(events[..n], k, c) {
        assert events[..n][..k] == events[..k];
      }
      assert WithdrawnAt(events, n, c) <==> events[n] == Withdraw(c) && c < Run(events[..n]).next;
    }
  }

  /** A chain never runs a withdrawn call that waited in it. */
  lemma WithdrawnNeverRuns(l: Lane, e: Event, i: nat)
    requires InBounds(l.ring) && Runs(l, i) && Settles(l, e, i)
    ensures Runs(Step(l, e), i) ==> Step(l, e).chains[i].call in l.chains[i].queued && Step(l, e).chains[i].call !in l.withdrawn
  {
    ChainAdvances(l, e, i);
    if Runs(Step(l, e), i) {
      WaitersAre(l.chains[i].queued, l.withdrawn, Step(l, e).chains[i].call);
    }
  }
}
