/** The queue itself, updated in place. A `Put` or `Get` here is what happens between the end of the wait loop
    and the unlock; the waiting is in `QueueProtocol`. */
module Queue {
  import R = Ring

  class Queue<T(0)> {
    const items: array<T>
    const capacity: nat
    var startIdx: int
    var nextIdx: int

    function AsRing(): R.Ring<T>
      reads this, items
    {
      R.Ring(items[..], startIdx, nextIdx)
    }

    ghost predicate Valid()
      reads this, items
    {
      capacity == items.Length && AsRing().Valid()
    }

    function Contents(): seq<T>
      requires Valid()
      reads this, items
    {
      AsRing().Contents()
    }

    constructor (capacity: nat)
      requires capacity >= 1
      ensures Valid() && fresh(items) && this.capacity == capacity && Contents() == []
    {
      items := new T[capacity];
      this.capacity := capacity;
      startIdx, nextIdx := -1, 0;
    }

    method Put(item: T) returns (wasEmpty: bool)
      requires Valid() && startIdx != nextIdx
      modifies this, items
      ensures Valid() && AsRing() == old(AsRing()).Put(item)
      ensures Contents() == old(Contents()) + [item]
      ensures wasEmpty <==> old(Contents()) == []
    {
      R.PutAppends(AsRing(), item);
      wasEmpty := false;
      if startIdx == -1 {
        wasEmpty := true;
        startIdx := nextIdx;
      }
      items[nextIdx] := item;
      nextIdx := (nextIdx + 1) % capacity;
    }

    method Get() returns (out: T, wasFull: bool)
      requires Valid() && startIdx != -1
      modifies this
      ensures Valid() && AsRing() == old(AsRing()).Get()
      ensures old(Contents()) == [out] + Contents()
      ensures wasFull <==> |old(Contents())| == capacity
    {
      R.GetRemoves(AsRing());
      wasFull := false;
      out := items[startIdx];
      if startIdx == nextIdx {
        wasFull := true;
      }
      startIdx := (startIdx + 1) % capacity;
      if startIdx == nextIdx {
        startIdx := -1;
        nextIdx := 0;
      }
    }
  }
}
