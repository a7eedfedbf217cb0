/**
 The indexed binary min-heap of request deadlines. Every request stores its own
 position (`timeoutIndex`), so it can be taken out of the middle of the heap.
 */
module TimeoutHeaps {
  import opened Requests

  /** Position i is not earlier than its parent. */
  ghost predicate InOrder(e: seq<PendingRequest>, i: int)
    requires 1 <= i < |e|
    reads e`deadline
  {
    e[(i - 1) / 2].deadline <= e[i].deadline
  }

  ghost predicate Ordered(e: seq<PendingRequest>)
    reads e`deadline
  {
    forall i | 1 <= i < |e| :: InOrder(e, i)
  }

  /** The children of k are not earlier than the parent of k. */
  ghost predicate BridgesOver(e: seq<PendingRequest>, k: int)
    requires 0 <= k < |e|
    reads e`deadline
  {
    forall c | 1 <= c < |e| && (c - 1) / 2 == k && 1 <= k :: e[(k - 1) / 2].deadline <= e[c].deadline
  }

  /** A heap as far as every position but k is concerned: nothing is said about the key at k. */
  ghost predicate OrderedAround(e: seq<PendingRequest>, k: int)
    requires 0 <= k < |e|
    reads e`deadline
  {
    && (forall i | 1 <= i < |e| && i != k && (i - 1) / 2 != k :: InOrder(e, i))
    && BridgesOver(e, k)
  }

  ghost predicate OrderedButAt(e: seq<PendingRequest>, k: int)
    requires 0 <= k < |e|
    reads e`deadline
  {
    && (forall i | 1 <= i < |e| && i != k :: InOrder(e, i))
    && BridgesOver(e, k)
  }

  /** While the entry that started at k sinks, it is at position i. */
  ghost predicate Sinking(e: seq<PendingRequest>, k: int, i: int)
    requires 0 <= k < |e| && 0 <= i < |e|
    reads e`deadline
  {
    && (forall j | 1 <= j < |e| && j != k && (j - 1) / 2 != i :: InOrder(e, j))
    && BridgesOver(e, i)
    && (i != k && 1 <= k ==> InOrder(e, k))
  }

  /** In a heap the root is a minimum. */
  lemma {:induction false} RootIsLeast(e: seq<PendingRequest>, i: nat)
    requires Ordered(e) && i < |e|
    ensures e[0].deadline <= e[i].deadline
    decreases i
  {
    if i > 0 {
      RootIsLeast(e, (i - 1) / 2);
      assert InOrder(e, i);
    }
  }

  /** Overwriting the key at k, whatever the new value, leaves the rest of the heap ordered around k. */
  lemma HeapIsOrderedAround(e: seq<PendingRequest>, k: nat)
    requires Ordered(e) && k < |e|
    ensures OrderedAround(e, k)
  {
    forall c | 1 <= c < |e| && (c - 1) / 2 == k && 1 <= k
      ensures e[(k - 1) / 2].deadline <= e[c].deadline
    {
      assert InOrder(e, c) && InOrder(e, k);
    }
  }

  class TimeoutHeap {
    var entries: seq<PendingRequest>
    ghost var members: set<PendingRequest>

    /** Each entry is found at the position its back-pointer names; `members` are exactly the entries. */
    ghost predicate Indexed()
      reads this, entries`timeoutIndex, members`timeoutIndex
    {
      && (forall i :: 0 <= i < |entries| ==> entries[i] in members && entries[i].timeoutIndex == i)
      && (forall r :: r in members ==> 0 <= r.timeoutIndex < |entries| && entries[r.timeoutIndex] == r)
    }

    ghost predicate Valid()
      reads this, entries`timeoutIndex, members`timeoutIndex, entries`deadline
    {
      Indexed() && Ordered(entries)
    }

    constructor ()
      ensures Valid() && entries == [] && members == {}
    {
      entries := [];
      members := {};
    }

    /** Forgets every entry without touching the requests. */
    method Clear()
      modifies this
      ensures Valid() && entries == [] && members == {}
    {
      entries := [];
      members := {};
    }

    method Swap(left: nat, right: nat)
      requires left < |entries| && right < |entries| && left != right
      requires Indexed()
      modifies `entries, members`timeoutIndex
      ensures entries == old(entries)[left := old(entries)[right]][right := old(entries)[left]]
      ensures Indexed()
    {
      var l, r := entries[left], entries[right];
      entries := entries[left := r][right := l];
      l.timeoutIndex := right;
      r.timeoutIndex := left;
    }

    /** Lifts the entry at `index` to its place. */
    method HeapifyUp(index: nat)
      requires index < |entries| && Indexed() && OrderedButAt(entries, index)
      modifies `entries, members`timeoutIndex
      ensures Valid() && |entries| == old(|entries|)
    {
      var i := index;
      while i > 0
        invariant 0 <= i < |entries| == old(|entries|) && Indexed() && OrderedButAt(entries, i)
      {
        var parent := (i - 1) / 2;
        if entries[i].deadline >= entries[parent].deadline {
          assert InOrder(entries, i);
          return;
        }
        ghost var before := entries;
        Swap(i, parent);
        LiftStep(before, entries, i);
        i := parent;
      }
    }

    /** The earliest of a position and its children; the position itself unless a child is strictly earlier. */
    method Smallest(i: nat) returns (smallest: nat)
      requires i < |entries|
      ensures i <= smallest < |entries| && (smallest != i ==> (smallest - 1) / 2 == i)
      ensures smallest != i ==> entries[smallest].deadline < entries[i].deadline
      ensures forall c | 1 <= c < |entries| && (c - 1) / 2 == i :: entries[smallest].deadline <= entries[c].deadline
    {
      var left, right := i * 2 + 1, i * 2 + 2;
      smallest := i;
      if left < |entries| && entries[left].deadline < entries[smallest].deadline {
        smallest := left;
      }
      if right < |entries| && entries[right].deadline < entries[smallest].deadline {
        smallest := right;
      }
      forall c | 1 <= c < |entries| && (c - 1) / 2 == i
        ensures entries[smallest].deadline <= entries[c].deadline
      {
        assert c == left || c == right;
      }
    }

    /** Sinks the entry at `index` until neither child is earlier. */
    method HeapifyDown(index: nat)
      requires index < |entries| && Indexed() && OrderedAround(entries, index)
      modifies `entries, members`timeoutIndex
      ensures Indexed() && |entries| == old(|entries|)
      ensures OrderedButAt(entries, index)
    {
      var length := |entries|;
      var i := index;
      while true
        invariant index <= i < |entries| == length == old(|entries|) && Indexed() && Sinking(entries, index, i)
        decreases length - i
      {
        var smallest := Smallest(i);
        if smallest == i {
          SunkToPlace(entries, index, i);
          return;
        }
        ghost var before := entries;
        Swap(i, smallest);
        SinkStep(before, entries, index, i, smallest);
        i := smallest;
      }
    }

    /** Pushes a request, which must already point at the end of the heap, and lifts it. */
    method Insert(request: PendingRequest)
      requires Valid() && request.timeoutIndex == |entries| && request !in members
      modifies `entries, `members, members`timeoutIndex, request`timeoutIndex
      ensures Valid() && members == old(members) + {request}
      ensures |entries| == old(|entries|) + 1
    {
      ghost var before := entries;
      entries := entries + [request];
      members := members + {request};
      forall i | 1 <= i < |entries| && i != |before| ensures InOrder(entries, i) {
        assert InOrder(before, i);
      }
      HeapifyUp(request.timeoutIndex);
    }

    /** Overwrites the deadline of a request that is still in the heap, which may break the order at it. */
    method Overwrite(request: PendingRequest)
      requires Valid() && request in members
      modifies request`deadline
      ensures request.deadline == -1
      ensures Indexed() && OrderedAround(entries, request.timeoutIndex)
    {
      ghost var k := request.timeoutIndex;
      HeapIsOrderedAround(entries, k);
      request.deadline := -1;
      forall i | 1 <= i < |entries| && i != k && (i - 1) / 2 != k ensures InOrder(entries, i) {
        assert old(InOrder(entries, i));
      }
    }

    /**
     Takes `request` out, wherever it is. The heap may have lost its order at the position of
     `request`, which is how a caller leaves it after overwriting that request's deadline.
     */
    method Remove(request: PendingRequest)
      requires Indexed()
      requires request in members ==> OrderedAround(entries, request.timeoutIndex)
      requires request !in members ==> request.timeoutIndex == -1 && Ordered(entries)
      modifies `entries, `members, members`timeoutIndex
      ensures Valid() && members == old(members) - {request} && request.timeoutIndex == -1
      ensures |entries| == old(|entries|) - (if request in old(members) then 1 else 0)
    {
      var index := request.timeoutIndex;
      if index < 0 || index >= |entries| {
        return;
      }
      Vacate(request);
      if index < |entries| {
        HeapifyDown(index);
        HeapifyUp(index);
      }
    }

    /** Pops the last entry and, when it is another one, puts it where `request` was. */
    method Vacate(request: PendingRequest)
      requires Indexed() && request in members && OrderedAround(entries, request.timeoutIndex)
      modifies `entries, `members, members`timeoutIndex
      ensures Indexed() && members == old(members) - {request} && request.timeoutIndex == -1
      ensures |entries| == old(|entries|) - 1
      ensures var k := old(request.timeoutIndex);
        if k == |entries| then Ordered(entries) else OrderedAround(entries, k)
    {
      ghost var before := entries;
      var index := request.timeoutIndex;
      var last := entries[|entries| - 1];
      entries := entries[..|entries| - 1];
      members := members - {request};
      if index < |entries| {
        entries := entries[index := last];
        last.timeoutIndex := index;
      }
      request.timeoutIndex := -1;
      forall i | 1 <= i < |entries| && i != index && (i - 1) / 2 != index ensures InOrder(entries, i) {
        assert InOrder(before, i);
      }
    }
  }

  lemma LiftStep(before: seq<PendingRequest>, after: seq<PendingRequest>, i: nat)
    requires 0 < i < |before| && OrderedButAt(before, i)
    requires before[i].deadline < before[(i - 1) / 2].deadline
    requires after == before[i := before[(i - 1) / 2]][(i - 1) / 2 := before[i]]
    ensures OrderedButAt(after, (i - 1) / 2)
  {
    var p := (i - 1) / 2;
    forall j | 1 <= j < |after| && j != p ensures InOrder(after, j) {
      assert j != i ==> InOrder(before, j);
    }
    forall c | 1 <= c < |after| && (c - 1) / 2 == p && 1 <= p
      ensures after[(p - 1) / 2].deadline <= after[c].deadline
    {
      assert InOrder(before, p);
      assert c != i ==> InOrder(before, c);
    }
  }

  lemma SinkStep(before: seq<PendingRequest>, after: seq<PendingRequest>, k: nat, i: nat, s: nat)
    requires k <= i < s < |before| && (s - 1) / 2 == i
    requires Sinking(before, k, i) && before[s].deadline < before[i].deadline
    requires forall c | 1 <= c < |before| && (c - 1) / 2 == i :: before[s].deadline <= before[c].deadline
    requires after == before[i := before[s]][s := before[i]]
    ensures Sinking(after, k, s)
  {
    forall j | 1 <= j < |after| && j != k && (j - 1) / 2 != s ensures InOrder(after, j) {
      if j != i && (j - 1) / 2 != i {
        assert InOrder(before, j);
      }
    }
    forall c | 1 <= c < |after| && (c - 1) / 2 == s && 1 <= s
      ensures after[(s - 1) / 2].deadline <= after[c].deadline
    {
      if c != k {
        assert InOrder(before, c);
      }
    }
    if s != k && 1 <= k {
      assert i != k ==> InOrder(before, k);
    }
  }

  lemma SunkToPlace(e: seq<PendingRequest>, k: nat, i: nat)
    requires k < |e| && i < |e| && Sinking(e, k, i)
    requires forall c | 1 <= c < |e| && (c - 1) / 2 == i :: InOrder(e, c)
    ensures OrderedButAt(e, k)
  {
    forall c | 1 <= c < |e| && (c - 1) / 2 == k && 1 <= k && i != k
      ensures e[(k - 1) / 2].deadline <= e[c].deadline
    {
      assert InOrder(e, c) && InOrder(e, k);
    }
  }
}
