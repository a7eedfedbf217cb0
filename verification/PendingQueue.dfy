/** The ring buffer as an object over an array, each method proved to do what RingQueues says. */
module PendingQueues {
  import opened RingQueues

  class PendingQueue {
    var queue: array<Slot>
    var head: nat
    var tail: nat
    var size: nat
    var queueIndex: map<nat, nat>

    constructor (queueIndex: map<nat, nat>)
      ensures Bounded() && Model() == Created(queueIndex) && fresh(queue)
    {
      queue := new Slot[FIRST_CAPACITY](_ => Empty);
      head, tail, size := 0, 0, 0;
      this.queueIndex := queueIndex;
      new;
      assert queue[..] == Created(queueIndex).slots;
    }

    ghost function Model(): Ring
      reads this, queue
    {
      Ring(queue[..], head, tail, size, queueIndex)
    }

    ghost predicate Bounded()
      reads this, queue
    {
      InBounds(Model())
    }

    method SlotAhead(i: nat) returns (entry: Slot)
      requires Bounded() && i < queue.Length
      ensures entry == Slotted(Model(), i)
    {
      WrapIsRemainder(head + i, queue.Length);
      entry := queue[(head + i) % queue.Length];
    }

    /** Copies the requests in order to the front of another buffer, and points their records there. */
    method MoveInto(newQueue: array<Slot>)
      requires Bounded() && newQueue != queue && size <= newQueue.Length
      modifies newQueue, `queueIndex
      ensures Model() == old(Model()).(places := Moved(old(Model()), size))
      ensures forall j :: 0 <= j < newQueue.Length ==>
                newQueue[j] == if j < size then Slotted(old(Model()), j) else old(newQueue[j])
    {
      ghost var r := Model();
      for i := 0 to size
        invariant Model() == r.(places := Moved(r, i))
        invariant forall j :: 0 <= j < newQueue.Length ==> newQueue[j] == if j < i then Slotted(r, j) else old(newQueue[j])
      {
        var entry := SlotAhead(i);
        newQueue[i] := entry;
        if entry.Holds? {
          queueIndex := queueIndex[entry.request := i];
        }
      }
    }

    method GrowPendingQueue()
      requires Bounded()
      modifies this
      ensures Model() == Grow(old(Model())) && fresh(queue)
    {
      ghost var r := Model();
      var newCapacity := if queue.Length * 2 < 16 then 16 else queue.Length * 2;
      var newQueue := new Slot[newCapacity](_ => Empty);
      MoveInto(newQueue);
      queue := newQueue;
      head := 0;
      tail := size;
      assert queue[..] == Grow(r).slots;
    }

    method EnqueuePendingRequest(request: nat)
      requires Bounded()
      modifies this, queue
      ensures Bounded() && Model() == Enqueue(old(Model()), request) && (queue == old(queue) || fresh(queue))
    {
      if size >= queue.Length {
        GrowPendingQueue();
      }
      queueIndex := queueIndex[request := tail];
      queue[tail] := Holds(request);
      tail := Wrap(tail + 1, queue.Length);
      size := size + 1;
    }

    method DequeuePendingRequest() returns (request: Slot)
      requires Bounded()
      modifies this, queue
      ensures Bounded() && queue == old(queue) && (request, Model()) == Dequeue(old(Model()), queue.Length)
    {
      var tries: nat := queue.Length;
      while size > 0 && tries > 0
        invariant Bounded() && queue == old(queue)
        invariant Dequeue(Model(), tries) == Dequeue(old(Model()), queue.Length)
        decreases tries
      {
        ghost var r := Model();
        request := queue[head];
        queue[head] := Empty;
        head := Wrap(head + 1, queue.Length);
        assert Model() == r.(slots := r.slots[r.head := Empty], head := Wrap(r.head + 1, |r.slots|));
        if request.Holds? {
          size := size - 1;
          return;
        }
        tries := tries - 1;
      }
      return Empty;
    }

    method UnregisterRequest(request: nat)
      requires Bounded()
      modifies this, queue
      ensures Bounded() && queue == old(queue) && Model() == Unregister(old(Model()), request)
    {
      if size == 0 {
        return;
      }
      if request !in queueIndex || queueIndex[request] >= queue.Length {
        return;
      }
      var index := queueIndex[request];
      if queue[index] != Holds(request) {
        return;
      }
      ghost var r := Model();
      queue[index] := Empty;
      size := size - 1;
      assert Model() == r.(slots := r.slots[index := Empty], size := r.size - 1);
      if index == head {
        SkipHead();
      } else {
        var expectedTailIndex := if tail == 0 then queue.Length - 1 else tail - 1;
        if index == expectedTailIndex {
          tail := index;
        }
      }
    }

    method SkipHead()
      requires Bounded()
      modifies `head
      ensures Bounded() && Model() == SkipEmpty(old(Model()), queue.Length)
    {
      var tries: nat := queue.Length;
      while size > 0 && tries > 0 && queue[head] == Empty
        invariant Bounded()
        invariant SkipEmpty(Model(), tries) == SkipEmpty(old(Model()), queue.Length)
        decreases tries
      {
        head := Wrap(head + 1, queue.Length);
        tries := tries - 1;
      }
    }
  }
}
