/**
 The lane of one message type: calls made while the broker cannot correlate are chained, each started when
 the promise of the one before it settles, and a map entry remembers the last promise of the chain. A
 disconnect clears the map entry but not the chain. A step is one call, one settlement together with the
 call it starts, or one change of the session.
 */
module Lanes {
  import opened RingQueues

  /** A chain of promises: the call that runs, whether it waits in the ring, and the calls behind it. */
  datatype Chain = Ended | Running(call: nat, inRing: bool, queued: seq<nat>)

  /** The map entry for this message type: nothing, or the promise at the end of a chain. */
  datatype Entry = NoEntry | Tail(chain: nat)

  /**
   `withdrawn`: calls whose signal was aborted before their turn. `queue` is what a plain queue would hold
   in place of the ring, `taken` the requests that responses were matched with, and `resolved` those of
   them still waiting then.
   */
  datatype Lane = Lane(
    ring: Ring, queue: seq<nat>, correlated: bool, chains: seq<Chain>, entry: Entry, withdrawn: set<nat>,
    next: nat, taken: seq<nat>, resolved: seq<nat>)

  datatype Event =
    | Negotiate(correlated: bool)
    | Request
    | Withdraw(call: nat)
    | Response
    | GivenUp(chain: nat)
    | SendRejected(chain: nat)
    | Disconnect

  const IDLE := Lane(Created(map[]), [], true, [], NoEntry, {}, 0, [], [])

  // ---------- The code ----------

  /** What the promise of chain i starts once the call before has settled: the next call not withdrawn, if any. */
  function Launch(l: Lane, i: nat, queued: seq<nat>): (n: Lane)
    requires InBounds(l.ring) && i < |l.chains|
    ensures InBounds(n.ring) && |n.chains| == |l.chains|
    ensures forall j :: 0 <= j < |l.chains| && j != i ==> n.chains[j] == l.chains[j]
    decreases |queued|
  {
    if queued == [] then l.(chains := l.chains[i := Ended], entry := if l.entry == Tail(i) then NoEntry else l.entry)
    else if queued[0] in l.withdrawn then Launch(l, i, queued[1..])
    else if l.correlated then l.(chains := l.chains[i := Running(queued[0], false, queued[1..])])
    else l.(ring := Enqueue(l.ring, queued[0]), queue := l.queue + [queued[0]],
            chains := l.chains[i := Running(queued[0], true, queued[1..])])
  }

  predicate Runs(l: Lane, i: nat) {
    i < |l.chains| && l.chains[i].Running?
  }

  /** Without correlation a call goes behind the promise in the map, or runs at once and becomes the entry. */
  function Call(l: Lane): (n: Lane)
    requires InBounds(l.ring)
    ensures InBounds(n.ring)
  {
    var called := l.(next := l.next + 1);
    if l.entry.Tail? && Runs(l, l.entry.chain) then
      var chain := l.chains[l.entry.chain];
      called.(chains := l.chains[l.entry.chain := chain.(queued := chain.queued + [l.next])])
    else
      Launch(called.(chains := l.chains + [Ended], entry := Tail(|l.chains|)), |l.chains|, [l.next])
  }

  /** The chain whose running call waits in the ring as the given request, or none. */
  function ChainOf(chains: seq<Chain>, request: nat): (i: nat)
    ensures i <= |chains|
    ensures i < |chains| ==> chains[i].Running? && chains[i].inRing && chains[i].call == request
    ensures i == |chains| ==> forall j :: 0 <= j < |chains| && chains[j].Running? && chains[j].inRing ==> chains[j].call != request
  {
    if chains == [] then 0
    else if chains[0].Running? && chains[0].inRing && chains[0].call == request then 0
    else 1 + ChainOf(chains[1..], request)
  }

  /** A response is matched with the oldest request in the ring; one given up swallows it. */
  function Respond(l: Lane): (n: Lane)
    requires InBounds(l.ring)
    ensures InBounds(n.ring)
  {
    var (slot, ring) := Dequeue(l.ring, |l.ring.slots|);
    if slot.Empty? then l
    else
      var taken := l.(ring := Renewed(ring), queue := if l.queue == [] then [] else l.queue[1..], taken := l.taken + [slot.request]);
      var i := ChainOf(l.chains, slot.request);
      if i == |l.chains| then taken
      else Launch(taken.(resolved := l.resolved + [slot.request]), i, l.chains[i].queued)
  }

  function Without(queue: seq<nat>, request: nat): seq<nat> {
    if queue == [] then []
    else if queue[|queue| - 1] == request then queue[..|queue| - 1]
    else Without(queue[..|queue| - 1], request) + [queue[|queue| - 1]]
  }

  /** The request in the ring is taken out of it; one with correlation has no slot there. */
  function TakeOut(l: Lane, chain: Chain): (n: Lane)
    requires InBounds(l.ring) && chain.Running?
    ensures InBounds(n.ring) && n == l.(ring := n.ring, queue := n.queue)
  {
    if !chain.inRing then l
    else l.(ring := Renewed(Unregister(l.ring, chain.call)), queue := Without(l.queue, chain.call))
  }

  /** Every running call has been rejected, and whatever waited for it starts. */
  function SettleAll(l: Lane, n: nat): (m: Lane)
    requires InBounds(l.ring) && n <= |l.chains|
    ensures InBounds(m.ring) && |m.chains| == |l.chains|
    ensures forall j :: n <= j < |l.chains| ==> m.chains[j] == l.chains[j]
  {
    if n == 0 then l
    else
      var m := SettleAll(l, n - 1);
      if m.chains[n - 1].Running? then Launch(m, n - 1, m.chains[n - 1].queued) else m
  }

  /** The queue is dropped, the map cleared and correlation assumed again; then the rejected calls settle. */
  function Reset(l: Lane): Lane {
    l.(ring := Created(l.ring.places), queue := [], correlated := true, entry := NoEntry)
  }

  function Step(l: Lane, e: Event): (n: Lane)
    requires InBounds(l.ring)
    ensures InBounds(n.ring)
  {
    match e
    case Negotiate(correlated) => l.(correlated := correlated)
    case Request => if l.correlated then l else Call(l)
    case Withdraw(call) => if call < l.next then l.(withdrawn := l.withdrawn + {call}) else l
    case Response => Respond(l)
    case GivenUp(i) => if Runs(l, i) then Launch(l, i, l.chains[i].queued) else l
    case SendRejected(i) => if Runs(l, i) then Launch(TakeOut(l, l.chains[i]), i, l.chains[i].queued) else l
    case Disconnect => SettleAll(Reset(l), |l.chains|)
  }

  function RunFrom(l: Lane, events: seq<Event>): (n: Lane)
    requires InBounds(l.ring)
    ensures InBounds(n.ring)
  {
    if events == [] then l else Step(RunFrom(l, events[..|events| - 1]), events[|events| - 1])
  }

  function Run(events: seq<Event>): (n: Lane)
    ensures InBounds(n.ring)
  {
    RunFrom(IDLE, events)
  }

  // ---------- Calls behind the lane ----------

  /** The queued calls that will run when their turn comes. */
  function Waiters(queued: seq<nat>, withdrawn: set<nat>): seq<nat> {
    if queued == [] then []
    else if queued[0] in withdrawn then Waiters(queued[1..], withdrawn)
    else [queued[0]] + Waiters(queued[1..], withdrawn)
  }

  /** At most n calls wait behind each running one. */
  ghost predicate Behind(l: Lane, n: nat) {
    forall i: nat :: Runs(l, i) ==> |Waiters(l.chains[i].queued, l.withdrawn)| <= n
  }

  predicate Ascending(s: seq<nat>) {
    forall i, j :: 0 <= i < j < |s| ==> s[i] < s[j]
  }

  /** The chain the map points to: numbered in order, behind everything that was in the ring before. */
  ghost predicate CurrentOk(l: Lane, i: nat) {
    && Runs(l, i)
    && var chain := l.chains[i];
      && Ascending([chain.call] + chain.queued)
      && (forall x :: x in chain.queued ==> chain.call < x < l.next)
      && chain.call < l.next
      && (chain.inRing ==> l.queue != [] && l.queue[|l.queue| - 1] == chain.call)
      && (!chain.inRing ==> forall x :: x in l.taken + l.queue ==> x < chain.call)
  }

  /** A chain the map has forgotten never reaches the ring: its last call runs with correlation. */
  predicate ForgottenOk(l: Lane, i: nat) {
    Runs(l, i) ==> !l.chains[i].inRing && Waiters(l.chains[i].queued, l.withdrawn) == []
  }

  ghost predicate QueueOk(l: Lane) {
    && Dense(l.ring) && Contents(l.ring) == l.queue
    && Ascending(l.taken + l.queue)
    && (forall x :: x in l.taken + l.queue ==> x < l.next)
    && (forall x :: x in l.resolved ==> x in l.taken)
    && (forall x :: x in l.withdrawn ==> x < l.next)
  }

  /** A response finds a request in the ring if and only if one waits; otherwise it changes nothing. */
  lemma RingHoldsQueue(l: Lane)
    requires QueueOk(l)
    ensures Dense(l.ring) && (l.ring.size > 0 <==> l.queue != []) && (l.queue == [] ==> Respond(l) == l)
  {
    assert |Contents(l.ring)| == l.ring.size;
  }

  ghost predicate Good(l: Lane) {
    && QueueOk(l)
    && (l.entry.Tail? ==> CurrentOk(l, l.entry.chain))
    && (forall i: nat :: i < |l.chains| && l.entry != Tail(i) ==> ForgottenOk(l, i))
  }

  ghost predicate OthersForgotten(l: Lane, k: nat) {
    forall i: nat :: i < |l.chains| && i != k ==> ForgottenOk(l, i)
  }

  /** The calls of a chain come after everything the ring has seen. */
  ghost predicate After(l: Lane, queued: seq<nat>) {
    && Ascending(queued)
    && (forall x :: x in queued ==> x < l.next)
    && (forall x, y :: x in queued && y in l.taken + l.queue ==> y < x)
  }

  lemma Regroup(a: seq<nat>, b: seq<nat>, c: seq<nat>)
    ensures (a + b) + c == a + (b + c)
  {
  }

  lemma AppendAscending(s: seq<nat>, x: nat)
    requires Ascending(s) && forall y :: y in s ==> y < x
    ensures Ascending(s + [x])
  {
    assert forall i :: 0 <= i < |s| ==> s[i] in s;
  }

  lemma AfterTail(l: Lane, queued: seq<nat>)
    requires After(l, queued) && queued != []
    ensures After(l, queued[1..]) && forall x :: x in queued[1..] ==> x in queued && queued[0] < x
  {
    var rest := queued[1..];
    forall x | x in rest ensures x in queued && queued[0] < x {
      var k :| 0 <= k < |rest| && rest[k] == x;
      assert queued[k + 1] == x;
    }
  }

  /** The request goes into the ring behind everything it has seen. */
  lemma PutInRing(l: Lane, call: nat)
    requires QueueOk(l) && call < l.next && forall y :: y in l.taken + l.queue ==> y < call
    ensures QueueOk(l.(ring := Enqueue(l.ring, call), queue := l.queue + [call]))
  {
    assert forall y :: y in l.queue ==> y in l.taken + l.queue;
    EnqueueAppends(l.ring, call);
    AppendAscending(l.taken + l.queue, call);
    assert l.taken + (l.queue + [call]) == (l.taken + l.queue) + [call];
  }

  lemma StartCurrent(l: Lane, i: nat, queued: seq<nat>)
    requires QueueOk(l) && l.entry == Tail(i) && i < |l.chains| && OthersForgotten(l, i) && After(l, queued)
    requires queued != [] && queued[0] !in l.withdrawn
    ensures Good(Launch(l, i, queued))
  {
    var n := Launch(l, i, queued);
    AfterTail(l, queued);
    assert queued[0] in queued && [queued[0]] + queued[1..] == queued;
    if !l.correlated {
      PutInRing(l, queued[0]);
    }
    assert CurrentOk(n, i);
    forall j: nat | j < |n.chains| && j != i ensures ForgottenOk(n, j) {
      assert ForgottenOk(l, j);
    }
  }

  lemma {:induction false} LaunchCurrent(l: Lane, i: nat, queued: seq<nat>)
    requires QueueOk(l) && l.entry == Tail(i) && i < |l.chains| && OthersForgotten(l, i) && After(l, queued)
    ensures Good(Launch(l, i, queued))
    decreases |queued|
  {
    if queued == [] {
      var n := Launch(l, i, queued);
      forall j: nat | j < |n.chains| ensures ForgottenOk(n, j) {
        assert j != i ==> ForgottenOk(l, j);
      }
    } else if queued[0] in l.withdrawn {
      AfterTail(l, queued);
      LaunchCurrent(l, i, queued[1..]);
    } else {
      StartCurrent(l, i, queued);
    }
  }

  /** Behind a forgotten chain no call is left to run: it ends. */
  lemma {:induction false} LaunchForgotten(l: Lane, i: nat, queued: seq<nat>)
    requires Good(l) && i < |l.chains| && l.entry != Tail(i) && Waiters(queued, l.withdrawn) == []
    ensures Launch(l, i, queued) == l.(chains := l.chains[i := Ended]) && Good(Launch(l, i, queued))
    decreases |queued|
  {
    if queued == [] {
      var n := Launch(l, i, queued);
      forall j: nat | j < |n.chains| && n.entry != Tail(j) ensures ForgottenOk(n, j) {
        assert ForgottenOk(l, j);
      }
    } else {
      LaunchForgotten(l, i, queued[1..]);
    }
  }

  lemma TailAscending(x: nat, s: seq<nat>)
    requires Ascending([x] + s)
    ensures Ascending(s)
  {
    forall i, j | 0 <= i < j < |s| ensures s[i] < s[j] {
      assert ([x] + s)[i + 1] == s[i] && ([x] + s)[j + 1] == s[j];
    }
  }

  lemma CurrentAfter(l: Lane, i: nat)
    requires Good(l) && l.entry == Tail(i)
    ensures OthersForgotten(l, i) && After(l, l.chains[i].queued)
  {
    var chain, all := l.chains[i], l.taken + l.queue;
    assert CurrentOk(l, i);
    TailAscending(chain.call, chain.queued);
    if chain.inRing {
      assert all[|all| - 1] == chain.call;
    }
    forall y | y in all ensures y <= chain.call {
      var k :| 0 <= k < |all| && all[k] == y;
    }
  }

  lemma LaunchGood(l: Lane, i: nat)
    requires Good(l) && Runs(l, i)
    ensures Good(Launch(l, i, l.chains[i].queued))
  {
    if l.entry == Tail(i) {
      CurrentAfter(l, i);
      LaunchCurrent(l, i, l.chains[i].queued);
    } else {
      assert ForgottenOk(l, i);
      LaunchForgotten(l, i, l.chains[i].queued);
    }
  }

  // ---------- One step ----------

  lemma JoinGood(l: Lane)
    requires Good(l) && l.entry.Tail?
    ensures Good(Call(l))
  {
    var n, i := Call(l), l.entry.chain;
    var chain := l.chains[i];
    assert CurrentOk(l, i);
    AppendAscending([chain.call] + chain.queued, l.next);
    Regroup([chain.call], chain.queued, [l.next]);
    assert CurrentOk(n, i);
    forall j: nat | j < |n.chains| && j != i ensures ForgottenOk(n, j) {
      assert ForgottenOk(l, j);
    }
  }

  lemma CallGood(l: Lane)
    requires Good(l)
    ensures Good(Call(l))
  {
    if l.entry.Tail? {
      JoinGood(l);
    } else {
      var begun := l.(next := l.next + 1, chains := l.chains + [Ended], entry := Tail(|l.chains|));
      forall j: nat | j < |begun.chains| && j != |l.chains| ensures ForgottenOk(begun, j) {
        assert ForgottenOk(l, j);
      }
      LaunchCurrent(begun, |l.chains|, [l.next]);
    }
  }

  /** The ring and the plain queue lose their first request together. */
  function Taken(l: Lane): (n: Lane)
    requires InBounds(l.ring)
    ensures InBounds(n.ring)
  {
    var (slot, ring) := Dequeue(l.ring, |l.ring.slots|);
    if slot.Empty? || l.queue == [] then l
    else l.(ring := Renewed(ring), queue := l.queue[1..], taken := l.taken + [slot.request])
  }

  lemma TakenOk(l: Lane)
    requires QueueOk(l) && l.queue != []
    ensures QueueOk(Taken(l)) && Dequeue(l.ring, |l.ring.slots|).0 == Holds(l.queue[0])
    ensures Taken(l).taken + Taken(l).queue == l.taken + l.queue && l.queue[0] in Taken(l).taken
  {
    FirstMatched(l.ring);
    var first, rest := l.queue[0], l.queue[1..];
    assert l.queue == [first] + rest;
    Regroup(l.taken, [first], rest);
    assert forall x :: x in l.resolved ==> x in l.taken + [first];
  }

  /** The one waiting request is the last in the ring; when it is also the first, nothing else is there. */
  lemma WaitingIsLast(l: Lane, i: nat)
    requires Good(l) && Runs(l, i) && l.chains[i].inRing
    ensures l.entry == Tail(i) && l.queue != [] && l.queue[|l.queue| - 1] == l.chains[i].call
    ensures l.queue[0] == l.chains[i].call ==> |l.queue| == 1
  {
    assert l.entry != Tail(i) ==> ForgottenOk(l, i);
    assert CurrentOk(l, i);
    var all := l.taken + l.queue;
    assert all[|l.taken|] == l.queue[0] && all[|all| - 1] == l.queue[|l.queue| - 1];
  }

  lemma SwallowedGood(l: Lane)
    requires Good(l) && l.queue != [] && ChainOf(l.chains, l.queue[0]) == |l.chains|
    ensures Good(Taken(l))
  {
    TakenOk(l);
    var n := Taken(l);
    if l.entry.Tail? {
      var i := l.entry.chain;
      assert CurrentOk(l, i);
      assert n.taken + n.queue == l.taken + l.queue;
      if l.chains[i].inRing {
        WaitingIsLast(l, i);
      }
      assert CurrentOk(n, i);
    }
    forall j: nat | j < |n.chains| && n.entry != Tail(j) ensures ForgottenOk(n, j) {
      assert ForgottenOk(l, j);
    }
  }

  lemma ResolvedGood(l: Lane, i: nat)
    requires Good(l) && l.queue != [] && Runs(l, i) && l.chains[i].inRing && l.chains[i].call == l.queue[0]
    ensures Good(Launch(Taken(l).(resolved := l.resolved + [l.queue[0]]), i, l.chains[i].queued))
  {
    WaitingIsLast(l, i);
    TakenOk(l);
    CurrentAfter(l, i);
    var n := Taken(l).(resolved := l.resolved + [l.queue[0]]);
    assert n.taken + n.queue == l.taken + l.queue;
    forall j: nat | j < |n.chains| && j != i ensures ForgottenOk(n, j) {
      assert ForgottenOk(l, j);
    }
    LaunchCurrent(n, i, l.chains[i].queued);
  }

  lemma RespondGood(l: Lane)
    requires Good(l)
    ensures Good(Respond(l))
  {
    if l.queue != [] {
      TakenOk(l);
      var i := ChainOf(l.chains, l.queue[0]);
      if i == |l.chains| {
        SwallowedGood(l);
      } else {
        ResolvedGood(l, i);
      }
    }
  }

  lemma ShorterQueueOk(l: Lane, ring: Ring)
    requires QueueOk(l) && l.queue != [] && Dense(ring) && Contents(ring) == l.queue[..|l.queue| - 1]
    ensures QueueOk(l.(ring := ring, queue := l.queue[..|l.queue| - 1]))
  {
    var all, rest := l.taken + l.queue, l.queue[..|l.queue| - 1];
    assert l.taken + rest == all[..|all| - 1];
    PrefixSeen(all, |all| - 1);
  }

  lemma TakeOutLast(l: Lane, i: nat)
    requires Good(l) && Runs(l, i) && l.chains[i].inRing
    ensures l.queue != [] && QueueOk(TakeOut(l, l.chains[i])) && TakeOut(l, l.chains[i]).queue == l.queue[..|l.queue| - 1]
  {
    WaitingIsLast(l, i);
    LastTakenOut(l.ring);
    WithoutLast(l.queue);
    ShorterQueueOk(l, Renewed(Unregister(l.ring, l.chains[i].call)));
  }

  lemma WithoutLast(queue: seq<nat>)
    requires queue != []
    ensures Without(queue, queue[|queue| - 1]) == queue[..|queue| - 1]
  {
  }

  lemma PrefixSeen(s: seq<nat>, k: nat)
    requires k <= |s|
    ensures forall x :: x in s[..k] ==> x in s
    ensures Ascending(s) ==> Ascending(s[..k])
  {
  }

  lemma SendRejectedGood(l: Lane, i: nat)
    requires Good(l) && Runs(l, i)
    ensures Good(Step(l, SendRejected(i)))
  {
    if l.chains[i].inRing {
      WaitingIsLast(l, i);
      TakeOutLast(l, i);
      CurrentAfter(l, i);
      var n := TakeOut(l, l.chains[i]);
      assert forall x :: x in n.taken + n.queue ==> x in l.taken + l.queue;
      forall j: nat | j < |n.chains| && j != i ensures ForgottenOk(n, j) {
        assert ForgottenOk(l, j);
      }
      LaunchCurrent(n, i, l.chains[i].queued);
    } else {
      LaunchGood(l, i);
    }
  }

  lemma {:induction false} FewerWaiters(queued: seq<nat>, withdrawn: set<nat>, more: set<nat>)
    requires withdrawn <= more
    ensures |Waiters(queued, more)| <= |Waiters(queued, withdrawn)|
  {
    if queued != [] {
      FewerWaiters(queued[1..], withdrawn, more);
    }
  }

  lemma FlagsGood(l: Lane, e: Event)
    requires Good(l) && (e.Negotiate? || e.Withdraw?)
    ensures Good(Step(l, e))
  {
    var n := Step(l, e);
    if l.entry.Tail? {
      assert CurrentOk(l, l.entry.chain);
      assert CurrentOk(n, l.entry.chain);
    }
    forall j: nat | j < |n.chains| && n.entry != Tail(j) ensures ForgottenOk(n, j) {
      assert ForgottenOk(l, j);
      if Runs(l, j) {
        FewerWaiters(l.chains[j].queued, l.withdrawn, n.withdrawn);
      }
    }
  }

  // ---------- Disconnect ----------

  /** With correlation the next waiter runs outside the ring, and the rest wait behind it. */
  lemma {:induction false} LaunchCorrelated(l: Lane, i: nat, queued: seq<nat>)
    requires l.correlated && InBounds(l.ring) && i < |l.chains| && l.entry == NoEntry
    ensures var n, waiters := Launch(l, i, queued), Waiters(queued, l.withdrawn);
            && n == l.(chains := n.chains)
            && if waiters == [] then n.chains[i] == Ended
               else n.chains[i].Running? && n.chains[i].call == waiters[0] && !n.chains[i].inRing
                    && Waiters(n.chains[i].queued, l.withdrawn) == waiters[1..]
    decreases |queued|
  {
    if queued != [] && queued[0] in l.withdrawn {
      LaunchCorrelated(l, i, queued[1..]);
    }
  }

  lemma {:induction false} SettleAllAt(l: Lane, n: nat, i: nat)
    requires l.correlated && InBounds(l.ring) && n <= |l.chains| && l.entry == NoEntry
    ensures var m := SettleAll(l, n);
            && m == l.(chains := m.chains)
            && (i < n && Runs(l, i) ==> m.chains[i] == Launch(l, i, l.chains[i].queued).chains[i])
            && (i < n && !Runs(l, i) ==> m.chains[i] == Ended)
  {
    if n > 0 {
      SettleAllAt(l, n - 1, i);
      var m := SettleAll(l, n - 1);
      if m.chains[n - 1].Running? {
        LaunchCorrelated(m, n - 1, m.chains[n - 1].queued);
        LaunchCorrelated(l, n - 1, l.chains[n - 1].queued);
        SameLaunch(l, m, n - 1, l.chains[n - 1].queued);
      }
    }
  }

  lemma {:induction false} SameLaunch(l: Lane, m: Lane, i: nat, queued: seq<nat>)
    requires l.correlated && InBounds(l.ring) && i < |l.chains| == |m.chains| && m == l.(chains := m.chains)
    ensures Launch(m, i, queued).chains[i] == Launch(l, i, queued).chains[i]
    decreases |queued|
  {
    if queued != [] && queued[0] in l.withdrawn {
      SameLaunch(l, m, i, queued[1..]);
    }
  }

  /** After a disconnect each chain runs its first waiter with correlation, with the others behind it. */
  lemma DisconnectAt(l: Lane, i: nat)
    requires InBounds(l.ring) && i < |l.chains|
    ensures var n := Step(l, Disconnect);
            && n == Reset(l).(chains := n.chains) && |n.chains| == |l.chains|
            && var waiters := if Runs(l, i) then Waiters(l.chains[i].queued, l.withdrawn) else [];
               if waiters == [] then n.chains[i] == Ended
               else n.chains[i].Running? && n.chains[i].call == waiters[0] && !n.chains[i].inRing
                    && Waiters(n.chains[i].queued, l.withdrawn) == waiters[1..]
  {
    SettleAllAt(Reset(l), |l.chains|, i);
    if Runs(l, i) {
      LaunchCorrelated(Reset(l), i, l.chains[i].queued);
    }
  }

  lemma DisconnectGood(l: Lane)
    requires Good(l) && Behind(l, 1)
    ensures Good(Step(l, Disconnect))
  {
    var n := Step(l, Disconnect);
    SettleAllAt(Reset(l), |l.chains|, 0);
    CreatedIsEmpty(l.ring.places);
    var all := l.taken + l.queue;
    assert n.taken + n.queue == all[..|l.taken|];
    assert forall x :: x in n.taken + n.queue ==> x in all;
    forall i: nat | i < |n.chains| ensures ForgottenOk(n, i) {
      DisconnectAt(l, i);
    }
  }

  // ---------- Runs ----------

  lemma StepGood(l: Lane, e: Event)
    requires Good(l) && (e.Disconnect? ==> Behind(l, 1))
    ensures Good(Step(l, e))
  {
    match e
    case Negotiate(_) => FlagsGood(l, e);
    case Withdraw(_) => FlagsGood(l, e);
    case Request => if !l.correlated { CallGood(l); }
    case Response => RespondGood(l);
    case GivenUp(i) => if Runs(l, i) { LaunchGood(l, i); }
    case SendRejected(i) => if Runs(l, i) { SendRejectedGood(l, i); }
    case Disconnect => DisconnectGood(l);
  }

  /** From l on, no disconnect of the run finds more than one call waiting behind a running one. */
  ghost predicate Gentle(l: Lane, events: seq<Event>)
    requires InBounds(l.ring)
  {
    forall k :: 0 <= k < |events| && events[k].Disconnect? ==> Behind(RunFrom(l, events[..k]), 1)
  }

  lemma GentlePrefix(l: Lane, events: seq<Event>, n: nat)
    requires InBounds(l.ring) && Gentle(l, events) && n <= |events|
    ensures Gentle(l, events[..n])
  {
    forall k | 0 <= k < n && events[..n][k].Disconnect? ensures Behind(RunFrom(l, events[..n][..k]), 1) {
      assert events[..n][..k] == events[..k] && events[k].Disconnect?;
    }
  }

  lemma {:induction false} RunFromGood(l: Lane, events: seq<Event>)
    requires Good(l) && Gentle(l, events)
    ensures Good(RunFrom(l, events))
  {
    if events != [] {
      var n := |events| - 1;
      GentlePrefix(l, events, n);
      RunFromGood(l, events[..n]);
      assert events[n].Disconnect? ==> Behind(RunFrom(l, events[..n]), 1);
      StepGood(RunFrom(l, events[..n]), events[n]);
    }
  }

  /** At most one call waits in the ring, and it is the last there. */
  ghost predicate OneWaitsLast(l: Lane) {
    && (forall i: nat, j: nat :: Runs(l, i) && l.chains[i].inRing && Runs(l, j) && l.chains[j].inRing ==> i == j)
    && (forall i: nat :: Runs(l, i) && l.chains[i].inRing ==> l.queue != [] && l.queue[|l.queue| - 1] == l.chains[i].call)
  }

  lemma GoodMeansOne(l: Lane)
    requires Good(l)
    ensures OneWaitsLast(l)
  {
    forall i: nat | Runs(l, i) && l.chains[i].inRing ensures l.entry == Tail(i) {
      WaitingIsLast(l, i);
    }
    forall i: nat | Runs(l, i) && l.chains[i].inRing ensures l.queue != [] && l.queue[|l.queue| - 1] == l.chains[i].call {
      WaitingIsLast(l, i);
    }
  }

  /**
   The ring buffer is a plain queue in every run whose disconnects find at most one call waiting behind a
   running one: no hole, no request lost, responses matched in the order of the calls, and at most one
   request still waiting, which is the last.
   */
  lemma {:induction false} RingRefinesFifo(events: seq<Event>)
    requires Gentle(IDLE, events)
    ensures var l := Run(events);
            Dense(l.ring) && Contents(l.ring) == l.queue && Ascending(l.taken + l.queue) && OneWaitsLast(l)
  {
    CreatedIsEmpty(map[]);
    RunFromGood(IDLE, events);
    GoodMeansOne(Run(events));
  }

  predicate NoDisconnect(events: seq<Event>) {
    forall k :: 0 <= k < |events| ==> !events[k].Disconnect?
  }

  /** Whatever follows within the session, at most one call waits in the ring, and it is the last there. */
  ghost predicate KeepsOne(l: Lane)
    requires InBounds(l.ring)
  {
    forall more :: NoDisconnect(more) ==> OneWaitsLast(RunFrom(l, more))
  }

  lemma {:induction false} RunOn(l: Lane, events: seq<Event>, e: Event)
    requires InBounds(l.ring)
    ensures RunFrom(l, events + [e]) == Step(RunFrom(l, events), e)
  {
    assert (events + [e])[..|events|] == events;
  }

  lemma RunNewCall(l: Lane)
    requires InBounds(l.ring)
    ensures RunFrom(l, [Negotiate(false), Request]) == Step(Step(l, Negotiate(false)), Request)
  {
    RunOn(l, [], Negotiate(false));
    RunOn(l, [Negotiate(false)], Request);
    assert [] + [Negotiate(false)] == [Negotiate(false)];
    assert [Negotiate(false)] + [Request] == [Negotiate(false), Request];
  }

  lemma RunNewCallThenEnd(l: Lane, i: nat)
    requires InBounds(l.ring)
    ensures RunFrom(l, [Negotiate(false), Request, GivenUp(i)]) == Step(Step(Step(l, Negotiate(false)), Request), GivenUp(i))
  {
    RunNewCall(l);
    RunOn(l, [Negotiate(false), Request], GivenUp(i));
    assert [Negotiate(false), Request] + [GivenUp(i)] == [Negotiate(false), Request, GivenUp(i)];
  }

  /** The next session without correlation, a new call, and the end of the first call left over. */
  function Overtaken(l: Lane, i: nat): (n: Lane)
    requires InBounds(l.ring)
    ensures InBounds(n.ring)
  {
    Step(Step(Step(Step(l, Disconnect), Negotiate(false)), Request), GivenUp(i))
  }

  lemma {:induction false} LaunchInRing(l: Lane, i: nat, queued: seq<nat>)
    requires InBounds(l.ring) && !l.correlated && i < |l.chains| && Waiters(queued, l.withdrawn) != []
    ensures var n := Launch(l, i, queued); Runs(n, i) && n.chains[i].inRing && n.chains[i].call == Waiters(queued, l.withdrawn)[0]
    decreases |queued|
  {
    if queued[0] in l.withdrawn {
      LaunchInRing(l, i, queued[1..]);
    }
  }

  /** With two calls waiting behind chain i at the disconnect, the second and the new call end up in the ring together. */
  lemma TwoWaitTogether(l: Lane, i: nat)
    requires Good(l) && Runs(l, i) && |Waiters(l.chains[i].queued, l.withdrawn)| > 1
    ensures var n := Overtaken(l, i);
            && Runs(n, i) && n.chains[i].inRing && n.chains[i].call == Waiters(l.chains[i].queued, l.withdrawn)[1]
            && Runs(n, |l.chains|) && n.chains[|l.chains|].inRing && n.chains[|l.chains|].call == l.next
  {
    DisconnectAt(l, i);
    var d := Step(Step(l, Disconnect), Negotiate(false));
    var r := Step(d, Request);
    assert forall x :: x in l.withdrawn ==> x < l.next;
    LaunchInRing(r, i, r.chains[i].queued);
  }

  /**
   A disconnect keeps the ring in order for the session that follows if and only if no two calls wait
   behind one running call when it happens.
   */
  lemma {:induction false} DisconnectKeepsOneIff(events: seq<Event>)
    requires Gentle(IDLE, events)
    ensures KeepsOne(Step(Run(events), Disconnect)) <==> Behind(Run(events), 1)
  {
    var l := Run(events);
    var d := Step(l, Disconnect);
    CreatedIsEmpty(map[]);
    RunFromGood(IDLE, events);
    if Behind(l, 1) {
      DisconnectGood(l);
      forall more | NoDisconnect(more) ensures OneWaitsLast(RunFrom(d, more)) {
        RunFromGood(d, more);
        GoodMeansOne(RunFrom(d, more));
      }
    } else {
      var i: nat :| Runs(l, i) && |Waiters(l.chains[i].queued, l.withdrawn)| > 1;
      TwoWaitTogether(l, i);
      RunNewCallThenEnd(d, i);
      var more := [Negotiate(false), Request, GivenUp(i)];
      assert RunFrom(d, more) == Overtaken(l, i) && NoDisconnect(more);
      assert !OneWaitsLast(Overtaken(l, i));
    }
  }

  // ---------- One call at a time ----------

  /** Only the chain the map points to has a call running. */
  ghost predicate Sole(l: Lane) {
    forall i: nat :: Runs(l, i) ==> l.entry == Tail(i)
  }

  lemma SameChainsSole(l: Lane, n: Lane)
    requires Sole(l) && n.chains == l.chains && n.entry == l.entry
    ensures Sole(n)
  {
    forall i: nat | Runs(n, i) ensures n.entry == Tail(i) {
      assert Runs(l, i);
    }
  }

  lemma {:induction false} LaunchSole(l: Lane, i: nat, queued: seq<nat>)
    requires InBounds(l.ring) && i < |l.chains| && l.entry == Tail(i) && Sole(l)
    ensures Sole(Launch(l, i, queued))
    decreases |queued|
  {
    if queued != [] && queued[0] in l.withdrawn {
      LaunchSole(l, i, queued[1..]);
    } else {
      forall j: nat | Runs(Launch(l, i, queued), j) ensures Launch(l, i, queued).entry == Tail(j) {
        assert j != i ==> Runs(l, j);
      }
    }
  }

  lemma CallSole(l: Lane)
    requires InBounds(l.ring) && Sole(l)
    ensures Sole(Call(l))
  {
    if l.entry.Tail? && Runs(l, l.entry.chain) {
      forall j: nat | Runs(Call(l), j) ensures Call(l).entry == Tail(j) {
        assert Runs(l, j);
      }
    } else {
      var begun := l.(next := l.next + 1, chains := l.chains + [Ended], entry := Tail(|l.chains|));
      forall j: nat | Runs(begun, j) ensures false {
        assert Runs(l, j);
      }
      LaunchSole(begun, |l.chains|, [l.next]);
    }
  }

  lemma RespondSole(l: Lane)
    requires InBounds(l.ring) && Sole(l)
    ensures Sole(Respond(l))
  {
    var (slot, ring) := Dequeue(l.ring, |l.ring.slots|);
    if slot.Holds? {
      var i := ChainOf(l.chains, slot.request);
      var n := l.(ring := Renewed(ring), queue := if l.queue == [] then [] else l.queue[1..], taken := l.taken + [slot.request]);
      SameChainsSole(l, n);
      if i < |l.chains| {
        assert Runs(l, i);
        SameChainsSole(l, n.(resolved := l.resolved + [slot.request]));
        LaunchSole(n.(resolved := l.resolved + [slot.request]), i, l.chains[i].queued);
      }
    }
  }

  lemma StepSole(l: Lane, e: Event)
    requires InBounds(l.ring) && Sole(l) && (e.Disconnect? ==> Behind(l, 0))
    ensures Sole(Step(l, e))
  {
    match e
    case Negotiate(_) => SameChainsSole(l, Step(l, e));
    case Withdraw(_) => SameChainsSole(l, Step(l, e));
    case Request => if !l.correlated { CallSole(l); }
    case Response => RespondSole(l);
    case GivenUp(i) => if Runs(l, i) { LaunchSole(l, i, l.chains[i].queued); }
    case SendRejected(i) =>
      if Runs(l, i) {
        SameChainsSole(l, TakeOut(l, l.chains[i]));
        LaunchSole(TakeOut(l, l.chains[i]), i, l.chains[i].queued);
      }
    case Disconnect =>
      SettleAllAt(Reset(l), |l.chains|, 0);
      forall i: nat | i < |l.chains| ensures !Runs(Step(l, e), i) {
        DisconnectAt(l, i);
      }
  }

  /** No disconnect of the run finds a call waiting behind a running one. */
  ghost predicate Unqueued(l: Lane, events: seq<Event>)
    requires InBounds(l.ring)
  {
    forall k :: 0 <= k < |events| && events[k].Disconnect? ==> Behind(RunFrom(l, events[..k]), 0)
  }

  lemma {:induction false} RunFromSole(l: Lane, events: seq<Event>)
    requires InBounds(l.ring) && Sole(l) && Unqueued(l, events)
    ensures Sole(RunFrom(l, events))
  {
    if events != [] {
      var n := |events| - 1;
      forall k | 0 <= k < n && events[..n][k].Disconnect? ensures Behind(RunFrom(l, events[..n][..k]), 0) {
        assert events[..n][..k] == events[..k] && events[k].Disconnect?;
      }
      RunFromSole(l, events[..n]);
      assert events[n].Disconnect? ==> Behind(RunFrom(l, events[..n]), 0);
      StepSole(RunFrom(l, events[..n]), events[n]);
    }
  }

  ghost predicate OneRuns(l: Lane) {
    forall i: nat, j: nat :: Runs(l, i) && Runs(l, j) ==> i == j
  }

  ghost predicate KeepsSole(l: Lane)
    requires InBounds(l.ring)
  {
    forall more :: NoDisconnect(more) ==> OneRuns(RunFrom(l, more))
  }

  /**
   A disconnect keeps one call at a time in flight for the session that follows if and only if no call
   waits behind a running one when it happens.
   */
  lemma {:induction false} DisconnectKeepsSoleIff(events: seq<Event>)
    requires Unqueued(IDLE, events)
    ensures OneRuns(Run(events))
    ensures KeepsSole(Step(Run(events), Disconnect)) <==> Behind(Run(events), 0)
  {
    var l := Run(events);
    var d := Step(l, Disconnect);
    RunFromSole(IDLE, events);
    if Behind(l, 0) {
      StepSole(l, Disconnect);
      forall more | NoDisconnect(more) ensures OneRuns(RunFrom(d, more)) {
        RunFromSole(d, more);
      }
    } else {
      var i: nat :| Runs(l, i) && |Waiters(l.chains[i].queued, l.withdrawn)| > 0;
      UnqueuedNumbers(events);
      NextRunsBesideWaiter(l, i);
      RunNewCall(d);
      var more := [Negotiate(false), Request];
      assert RunFrom(d, more) == NextSession(l) && NoDisconnect(more);
      assert !OneRuns(NextSession(l));
    }
  }

  function NextSession(l: Lane): (n: Lane)
    requires InBounds(l.ring)
    ensures InBounds(n.ring)
  {
    Step(Step(Step(l, Disconnect), Negotiate(false)), Request)
  }

  /** The call that waited behind chain i runs on, and a new call finds no lane and runs as well. */
  lemma NextRunsBesideWaiter(l: Lane, i: nat)
    requires InBounds(l.ring) && Runs(l, i) && |Waiters(l.chains[i].queued, l.withdrawn)| > 0
    requires forall x :: x in l.withdrawn ==> x < l.next
    ensures Runs(NextSession(l), i) && Runs(NextSession(l), |l.chains|)
  {
    DisconnectAt(l, i);
  }

  /** Only calls that were made are withdrawn. */
  lemma {:induction false} UnqueuedNumbers(events: seq<Event>)
    ensures forall x :: x in Run(events).withdrawn ==> x < Run(events).next
  {
    if events != [] {
      UnqueuedNumbers(events[..|events| - 1]);
      StepNumbers(Run(events[..|events| - 1]), events[|events| - 1]);
    }
  }

  lemma {:induction false} LaunchNumbers(l: Lane, i: nat, queued: seq<nat>)
    requires InBounds(l.ring) && i < |l.chains|
    ensures Launch(l, i, queued).next == l.next && Launch(l, i, queued).withdrawn == l.withdrawn
    decreases |queued|
  {
    if queued != [] && queued[0] in l.withdrawn {
      LaunchNumbers(l, i, queued[1..]);
    }
  }

  lemma StepNumbers(l: Lane, e: Event)
    requires InBounds(l.ring) && forall x :: x in l.withdrawn ==> x < l.next
    ensures forall x :: x in Step(l, e).withdrawn ==> x < Step(l, e).next
  {
    match e
    case Request =>
      if !l.correlated && !(l.entry.Tail? && Runs(l, l.entry.chain)) {
        LaunchNumbers(l.(next := l.next + 1, chains := l.chains + [Ended], entry := Tail(|l.chains|)), |l.chains|, [l.next]);
      }
    case Response =>
      var (slot, ring) := Dequeue(l.ring, |l.ring.slots|);
      if slot.Holds? {
        var i := ChainOf(l.chains, slot.request);
        if i < |l.chains| {
          LaunchNumbers(l.(ring := Renewed(ring), queue := if l.queue == [] then [] else l.queue[1..],
                           taken := l.taken + [slot.request], resolved := l.resolved + [slot.request]), i, l.chains[i].queued);
        }
      }
    case GivenUp(i) => if Runs(l, i) { LaunchNumbers(l, i, l.chains[i].queued); }
    case SendRejected(i) => if Runs(l, i) { LaunchNumbers(TakeOut(l, l.chains[i]), i, l.chains[i].queued); }
    case Disconnect => SettleAllAt(Reset(l), |l.chains|, 0);
    case _ =>
  }

  // ---------- The failing run ----------

  /** Three calls of a session without correlation: two wait behind the first. */
  lemma ThreeCallsQueue()
    ensures var b := Step(Step(IDLE, Negotiate(false)), Request);
            var l := Step(Step(b, Request), Request);
            l.chains == [Running(0, true, [1, 2])] && !Behind(l, 1)
  {
    var a := Step(IDLE, Negotiate(false));
    assert a.chains + [Ended] == [Ended] && [0][1..] == [];
    var b := Step(a, Request);
    assert b.chains == [Running(0, true, [])] && b.entry == Tail(0);
    var c := Step(b, Request);
    assert [] + [1] == [1] && c.chains == [Running(0, true, [1])];
    var l := Step(c, Request);
    assert [1] + [2] == [1, 2] && l.chains == [Running(0, true, [1, 2])];
    assert [1, 2][1..] == [2] && [2][1..] == [];
    assert Runs(l, 0) && Waiters([1, 2], {}) == [1, 2];
  }

  lemma RunThreeCalls()
    ensures Run([Negotiate(false), Request, Request, Request]) ==
            Step(Step(Step(Step(IDLE, Negotiate(false)), Request), Request), Request)
  {
    RunNewCall(IDLE);
    RunOn(IDLE, [Negotiate(false), Request], Request);
    assert [Negotiate(false), Request] + [Request] == [Negotiate(false), Request, Request];
    RunOn(IDLE, [Negotiate(false), Request, Request], Request);
    assert [Negotiate(false), Request, Request] + [Request] == [Negotiate(false), Request, Request, Request];
  }

  /**
   The failing run of the multiplexer: three calls, a disconnect, a new session without correlation, a new
   call, and the end of the first call left over. Two requests wait in the ring.
   */
  lemma ThreeCallsThenDisconnect()
    ensures var events := [Negotiate(false), Request, Request, Request];
            Gentle(IDLE, events) && !KeepsOne(Step(Run(events), Disconnect))
  {
    var events := [Negotiate(false), Request, Request, Request];
    RunThreeCalls();
    ThreeCallsQueue();
    DisconnectKeepsOneIff(events);
  }
}
