/**
 The response queue of one message type without correlation: a growing ring buffer of requests whose
 records point back to their slots.
 */
module RingQueues {

  datatype Slot = Empty | Holds(request: nat)

  /** `places` is the back-pointer each request's record keeps. */
  datatype Ring = Ring(slots: seq<Slot>, head: nat, tail: nat, size: nat, places: map<nat, nat>)

  const FIRST_CAPACITY := 128

  // ---------- The code on values ----------

  lemma RemainderPastEnd(x: nat, n: nat)
    requires n <= x < 2 * n
    ensures x % n == x - n
  {
    var q, r := x / n, x % n;
    assert x == n * q + r;
    assert q >= 2 ==> n * q >= n * 2;
    assert q <= 0 ==> n * q <= 0;
  }

  /** An index that has run past the end at most once begins anew: the remainder, by `WrapIsRemainder`. */
  function Wrap(x: nat, n: nat): (r: nat)
    requires x < 2 * n
    ensures r < n
  {
    if x < n then x else x - n
  }

  lemma WrapIsRemainder(x: nat, n: nat)
    requires x < 2 * n
    ensures Wrap(x, n) == x % n
  {
    if x >= n {
      RemainderPastEnd(x, n);
    }
  }

  /** The indices lie in the buffer. */
  predicate InBounds(r: Ring) {
    r.size <= |r.slots| && r.head < |r.slots| && r.tail < |r.slots|
  }

  function Created(places: map<nat, nat>): Ring {
    Ring(seq(FIRST_CAPACITY, _ => Empty), 0, 0, 0, places)
  }

  /** The slot i places after the head. */
  function Slotted(r: Ring, i: nat): Slot
    requires InBounds(r) && i < |r.slots|
  {
    r.slots[Wrap(r.head + i, |r.slots|)]
  }

  /** The back-pointers after the first n requests moved to the front. */
  function Moved(r: Ring, n: nat): map<nat, nat>
    requires InBounds(r) && n <= r.size
  {
    if n == 0 then r.places
    else if Slotted(r, n - 1).Empty? then Moved(r, n - 1)
    else Moved(r, n - 1)[Slotted(r, n - 1).request := n - 1]
  }

  function Grow(r: Ring): (n: Ring)
    requires InBounds(r)
    ensures InBounds(n) && n.size < |n.slots|
  {
    Ring(seq(if |r.slots| * 2 < 16 then 16 else |r.slots| * 2, i requires 0 <= i => if i < r.size then Slotted(r, i) else Empty),
         0, r.size, r.size, Moved(r, r.size))
  }

  function Put(r: Ring, request: nat): (n: Ring)
    requires InBounds(r) && r.size < |r.slots|
    ensures InBounds(n)
  {
    r.(slots := r.slots[r.tail := Holds(request)], tail := Wrap(r.tail + 1, |r.slots|), size := r.size + 1,
       places := r.places[request := r.tail])
  }

  function Enqueue(r: Ring, request: nat): (n: Ring)
    requires InBounds(r)
    ensures InBounds(n)
  {
    Put(if r.size >= |r.slots| then Grow(r) else r, request)
  }

  /** Takes the request at the head, skipping empty slots. */
  function Dequeue(r: Ring, tries: nat): (result: (Slot, Ring))
    requires InBounds(r)
    ensures InBounds(result.1)
    decreases tries
  {
    if r.size == 0 || tries == 0 then (Empty, r)
    else
      var next := r.(slots := r.slots[r.head := Empty], head := Wrap(r.head + 1, |r.slots|));
      if r.slots[r.head].Holds? then (r.slots[r.head], next.(size := r.size - 1)) else Dequeue(next, tries - 1)
  }

  function SkipEmpty(r: Ring, tries: nat): (n: Ring)
    requires InBounds(r)
    ensures InBounds(n) && n == r.(head := n.head)
    decreases tries
  {
    if r.size == 0 || tries == 0 || r.slots[r.head].Holds? then r
    else SkipEmpty(r.(head := Wrap(r.head + 1, |r.slots|)), tries - 1)
  }

  /** Whether the slot a request's record points to still holds it. */
  predicate InPlace(r: Ring, request: nat) {
    request in r.places && r.places[request] < |r.slots| && r.slots[r.places[request]] == Holds(request)
  }

  /** Takes a request out of its slot, wherever that is. */
  function Unregister(r: Ring, request: nat): (n: Ring)
    requires InBounds(r)
    ensures InBounds(n)
  {
    if r.size == 0 || !InPlace(r, request) then r
    else
      var index := r.places[request];
      var out := r.(slots := r.slots[index := Empty], size := r.size - 1);
      if index == r.head then SkipEmpty(out, |r.slots|)
      else if index == (if r.tail == 0 then |r.slots| - 1 else r.tail - 1) then out.(tail := index)
      else out
  }

  // ---------- As a plain sequence ----------

  /** No holes: the occupied slots are the `size` ones from the head on, and each request points to its own. */
  ghost predicate Dense(r: Ring) {
    && InBounds(r)
    && r.tail == Wrap(r.head + r.size, |r.slots|)
    && (forall i: nat :: i < |r.slots| ==> (Slotted(r, i).Holds? <==> i < r.size))
    && (forall i: nat :: i < r.size ==> PointsBack(r, i))
  }

  predicate PointsBack(r: Ring, i: nat)
    requires InBounds(r) && i < |r.slots|
  {
    Slotted(r, i).Holds? && Slotted(r, i).request in r.places
    && r.places[Slotted(r, i).request] == Wrap(r.head + i, |r.slots|)
  }

  ghost function Contents(r: Ring): (c: seq<nat>)
    requires Dense(r)
    ensures |c| == r.size && forall i :: 0 <= i < |c| ==> Slotted(r, i) == Holds(c[i])
  {
    seq(r.size, i requires 0 <= i < r.size => assert PointsBack(r, i); Slotted(r, i).request)
  }

  lemma CreatedIsEmpty(places: map<nat, nat>)
    ensures Dense(Created(places)) && Contents(Created(places)) == []
  {
  }

  /** Distinct places hold distinct requests. */
  lemma ContentsDistinct(r: Ring)
    requires Dense(r)
    ensures forall i, j :: 0 <= i < j < r.size ==> Contents(r)[i] != Contents(r)[j]
  {
    forall i, j | 0 <= i < j < r.size ensures Contents(r)[i] != Contents(r)[j] {
      assert PointsBack(r, i) && PointsBack(r, j);
    }
  }

  lemma {:induction false} MovedPoints(r: Ring, n: nat)
    requires Dense(r) && n <= r.size
    ensures forall i: nat :: i < n ==> Contents(r)[i] in Moved(r, n) && Moved(r, n)[Contents(r)[i]] == i
  {
    if n > 0 {
      MovedPoints(r, n - 1);
      ContentsDistinct(r);
      assert Slotted(r, n - 1) == Holds(Contents(r)[n - 1]);
    }
  }

  /** Growing moves the requests to the front of a larger buffer, in order, with their back-pointers. */
  lemma GrowDense(r: Ring)
    requires Dense(r)
    ensures Dense(Grow(r)) && Contents(Grow(r)) == Contents(r) && Grow(r).size < |Grow(r).slots|
  {
    MovedPoints(r, r.size);
    var g := Grow(r);
    forall i: nat | i < |g.slots| ensures (Slotted(g, i).Holds? <==> i < g.size) && (i < g.size ==> PointsBack(g, i)) {
      assert Slotted(g, i) == g.slots[i];
      if i < r.size {
        assert Slotted(r, i) == Holds(Contents(r)[i]);
      }
    }
  }

  lemma PutDense(r: Ring, request: nat)
    requires Dense(r) && r.size < |r.slots| && request !in Contents(r)
    ensures Dense(Put(r, request)) && Contents(Put(r, request)) == Contents(r) + [request]
  {
    var p := Put(r, request);
    forall i: nat | i < |p.slots| ensures (Slotted(p, i).Holds? <==> i < p.size) && (i < p.size ==> PointsBack(p, i)) {
      if i == r.size {
        assert Slotted(p, i) == p.slots[r.tail] == Holds(request);
      } else {
        assert Wrap(r.head + i, |r.slots|) != r.tail;
        assert Slotted(p, i) == Slotted(r, i);
        if i < r.size {
          assert PointsBack(r, i) && Contents(r)[i] != request;
        }
      }
    }
    assert forall i :: 0 <= i < r.size ==> Contents(p)[i] == Contents(r)[i];
  }

  /** A request is put behind the others, and overwrites none, also when the buffer was full. */
  lemma EnqueueAppends(r: Ring, request: nat)
    requires Dense(r) && request !in Contents(r)
    ensures Dense(Enqueue(r, request)) && Contents(Enqueue(r, request)) == Contents(r) + [request]
  {
    if r.size >= |r.slots| {
      GrowDense(r);
      PutDense(Grow(r), request);
    } else {
      PutDense(r, request);
    }
  }

  /** The first request is taken, at the first try. */
  lemma DequeueTakesFirst(r: Ring, tries: nat)
    requires Dense(r) && r.size > 0 && tries > 0
    ensures var (slot, n) := Dequeue(r, tries);
            slot == Holds(Contents(r)[0]) && Dense(n) && Contents(n) == Contents(r)[1..]
  {
    var (slot, n) := Dequeue(r, tries);
    assert Slotted(r, 0) == r.slots[r.head];
    forall i: nat | i < |n.slots| ensures (Slotted(n, i).Holds? <==> i < n.size) && (i < n.size ==> PointsBack(n, i)) {
      if i + 1 < |r.slots| {
        assert Slotted(n, i) == Slotted(r, i + 1);
        if i + 1 < r.size {
          assert PointsBack(r, i + 1);
        }
      }
    }
    forall i | 0 <= i < n.size ensures Contents(n)[i] == Contents(r)[i + 1] {
      assert Slotted(n, i) == Slotted(r, i + 1);
    }
  }

  /** Holes or not: the first occupied slot from the head on is emptied and its request taken. */
  lemma {:induction false} DequeueFindsFirst(r: Ring, tries: nat, k: nat)
    requires InBounds(r) && r.size > 0 && k < tries && k < |r.slots|
    requires Slotted(r, k).Holds? && forall i: nat :: i < k ==> Slotted(r, i).Empty?
    ensures Dequeue(r, tries) ==
            (Slotted(r, k), r.(slots := r.slots[Wrap(r.head + k, |r.slots|) := Empty], size := r.size - 1,
                               head := Wrap(r.head + k + 1, |r.slots|)))
    decreases k
  {
    assert Slotted(r, 0) == r.slots[r.head];
    if k > 0 {
      var next := r.(slots := r.slots[r.head := Empty], head := Wrap(r.head + 1, |r.slots|));
      assert next.slots == r.slots;
      forall i: nat | i < k ensures Slotted(next, i) == Slotted(r, i + 1) {
      }
      DequeueFindsFirst(next, tries - 1, k - 1);
    }
  }

  /** After the first request was taken out of its place, the head moves to the first occupied slot. */
  lemma {:induction false} SkipFindsFirst(r: Ring, tries: nat, k: nat)
    requires InBounds(r) && r.size > 0 && k <= tries && k < |r.slots|
    requires Slotted(r, k).Holds? && forall i: nat :: i < k ==> Slotted(r, i).Empty?
    ensures SkipEmpty(r, tries) == r.(head := Wrap(r.head + k, |r.slots|))
    decreases k
  {
    assert Slotted(r, 0) == r.slots[r.head];
    if k > 0 {
      var next := r.(head := Wrap(r.head + 1, |r.slots|));
      forall i: nat | i < k ensures Slotted(next, i) == Slotted(r, i + 1) {
      }
      SkipFindsFirst(next, tries - 1, k - 1);
    }
  }

  // ---------- Taking a request out ----------

  lemma PlaceIsIndex(r: Ring, k: nat)
    requires Dense(r) && k < r.size
    ensures InPlace(r, Contents(r)[k]) && r.places[Contents(r)[k]] == Wrap(r.head + k, |r.slots|)
  {
    assert PointsBack(r, k) && Slotted(r, k) == Holds(Contents(r)[k]);
  }

  /** The last request leaves the others as they were. */
  lemma UnregisterLast(r: Ring)
    requires Dense(r) && r.size > 1
    ensures var n := Unregister(r, Contents(r)[r.size - 1]);
            Dense(n) && Contents(n) == Contents(r)[..r.size - 1]
  {
    var last := r.size - 1;
    PlaceIsIndex(r, last);
    var n := Unregister(r, Contents(r)[last]);
    assert n == r.(slots := r.slots[Wrap(r.head + last, |r.slots|) := Empty], size := last, tail := Wrap(r.head + last, |r.slots|));
    forall i: nat | i < |n.slots| ensures (Slotted(n, i).Holds? <==> i < n.size) && (i < n.size ==> PointsBack(n, i)) {
      assert i != last ==> Slotted(n, i) == Slotted(r, i);
      if i < last {
        assert PointsBack(r, i);
      }
    }
  }

  /** The first of several moves the head to the next. */
  lemma UnregisterFirst(r: Ring)
    requires Dense(r) && r.size > 1
    ensures var n := Unregister(r, Contents(r)[0]);
            Dense(n) && Contents(n) == Contents(r)[1..]
  {
    PlaceIsIndex(r, 0);
    var out := r.(slots := r.slots[r.head := Empty], size := r.size - 1);
    var next := out.(head := Wrap(r.head + 1, |r.slots|));
    assert Slotted(r, 1) == next.slots[next.head];
    assert SkipEmpty(next, |r.slots| - 1) == next;
    DequeueTakesFirst(r, 1);
  }

  /** Holes or not: a request leaves the slot its record points to if that still holds it, and every other slot stays. */
  lemma UnregisterLeavesOthers(r: Ring, request: nat, i: nat)
    requires InBounds(r) && i < |r.slots|
    ensures var n := Unregister(r, request);
            var own := r.size > 0 && r.slots[i] == Holds(request) && request in r.places && r.places[request] == i;
            && |n.slots| == |r.slots| && n.slots[i] == (if own then Empty else r.slots[i]) && n.places == r.places
            && (own ==> n.size == r.size - 1)
  {
  }

  /** The only request leaves an empty buffer, which is given up. */
  lemma UnregisterOnly(r: Ring)
    requires Dense(r) && r.size == 1
    ensures Unregister(r, Contents(r)[0]).size == 0
  {
    PlaceIsIndex(r, 0);
  }

  /** A request between the first and the last leaves a hole. */
  lemma UnregisterBetween(r: Ring, k: nat)
    requires Dense(r) && 0 < k < r.size - 1
    ensures var n := Unregister(r, Contents(r)[k]);
            n == r.(slots := r.slots[Wrap(r.head + k, |r.slots|) := Empty], size := r.size - 1) && !Dense(n)
  {
    PlaceIsIndex(r, k);
    var n := Unregister(r, Contents(r)[k]);
    assert Slotted(n, k) == Empty;
  }

  /** Taking a request out keeps the queue dense if and only if it is the first or the last. */
  lemma UnregisterDenseIff(r: Ring, k: nat)
    requires Dense(r) && k < r.size && r.size > 1
    ensures Dense(Unregister(r, Contents(r)[k])) <==> k == 0 || k == r.size - 1
  {
    if k == 0 {
      UnregisterFirst(r);
    } else if k == r.size - 1 {
      UnregisterLast(r);
    } else {
      UnregisterBetween(r, k);
    }
  }

  /** What the hole would cost: from a full buffer, the next request overwrites the first one. */
  lemma HoleLosesFirst(r: Ring, k: nat, request: nat)
    requires Dense(r) && 0 < k < r.size - 1 && r.size == |r.slots| && request !in Contents(r)
    ensures var n := Enqueue(Unregister(r, Contents(r)[k]), request);
            Holds(Contents(r)[0]) !in n.slots
  {
    UnregisterBetween(r, k);
    var out := Unregister(r, Contents(r)[k]);
    var n := Enqueue(out, request);
    assert r.tail == r.head && n.slots == out.slots[r.head := Holds(request)];
    ContentsDistinct(r);
    forall j | 0 <= j < |n.slots| ensures n.slots[j] != Holds(Contents(r)[0]) {
      var i := if j >= r.head then j - r.head else j + |r.slots| - r.head;
      assert Slotted(r, i) == r.slots[j] == Holds(Contents(r)[i]);
    }
  }

  /** A queue that has become empty is dropped, and made anew for the next request. */
  function Renewed(r: Ring): (n: Ring)
    requires InBounds(r)
    ensures InBounds(n)
  {
    if r.size == 0 then Created(r.places) else r
  }

  lemma RenewedKeeps(r: Ring)
    requires Dense(r)
    ensures Dense(Renewed(r)) && Contents(Renewed(r)) == Contents(r)
  {
    CreatedIsEmpty(r.places);
  }

  /** With the last request taken out, what is left, if anything, is the queue without it. */
  lemma LastTakenOut(r: Ring)
    requires Dense(r) && r.size > 0
    ensures var n := Renewed(Unregister(r, Contents(r)[r.size - 1]));
            Dense(n) && Contents(n) == Contents(r)[..r.size - 1]
  {
    if r.size == 1 {
      UnregisterOnly(r);
      CreatedIsEmpty(Unregister(r, Contents(r)[0]).places);
    } else {
      UnregisterLast(r);
      RenewedKeeps(Unregister(r, Contents(r)[r.size - 1]));
    }
  }

  /** The first request is matched, and what is left is the queue without it. */
  lemma FirstMatched(r: Ring)
    requires Dense(r) && r.size > 0
    ensures var (slot, n) := Dequeue(r, |r.slots|);
            slot == Holds(Contents(r)[0]) && Dense(Renewed(n)) && Contents(Renewed(n)) == Contents(r)[1..]
  {
    DequeueTakesFirst(r, |r.slots|);
    RenewedKeeps(Dequeue(r, |r.slots|).1);
  }
}
