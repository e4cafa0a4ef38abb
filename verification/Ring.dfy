/** The result queue's ring buffer: a start index that is -1 when empty, and a next index equal to it when full. */
module Ring {

  datatype Ring<T> = Ring(items: seq<T>, start: int, next: int) {
    predicate Valid() {
      && |items| >= 1
      && -1 <= start < |items|
      && 0 <= next < |items|
    }

    predicate Empty() { start == -1 }

    predicate Full() { start == next }

    function Len(): (n: int)
      requires Valid()
      ensures 0 <= n <= |items|
      ensures n == 0 <==> Empty()
      ensures n == |items| <==> Full()
    {
      if start == -1 then 0 else if start < next then next - start else next - start + |items|
    }

    /** The index `k` places behind `start`, going round the end of the buffer. */
    function At(k: int): (i: int)
      requires Valid() && !Empty() && 0 <= k < |items|
      ensures 0 <= i < |items|
    {
      if start + k < |items| then start + k else start + k - |items|
    }

    /** The queue: oldest item first. */
    function Contents(): (s: seq<T>)
      requires Valid()
      ensures |s| == Len()
    {
      seq(Len(), k requires 0 <= k < Len() && Valid() => items[At(k)])
    }

    function Put(item: T): Ring<T>
      requires Valid() && !Full()
    {
      Ring(items[next := item], if start == -1 then next else start, (next + 1) % |items|)
    }

    function Get(): Ring<T>
      requires Valid() && !Empty()
    {
      var s := (start + 1) % |items|;
      if s == next then Ring(items, -1, 0) else Ring(items, s, next)
    }
  }

  lemma Wrap(x: int, n: int)
    requires 0 <= x < n
    ensures (x + 1) % n == if x + 1 == n then 0 else x + 1
  {
    if x + 1 < n {
      assert (x + 1) / n == 0;
    }
  }

  /** A put appends, for every capacity, one included. */
  lemma PutAppends<T>(r: Ring<T>, item: T)
    requires r.Valid() && !r.Full()
    ensures r.Put(item).Valid() && !r.Put(item).Empty()
    ensures r.Put(item).Contents() == r.Contents() + [item]
  {
    Wrap(r.next, |r.items|);
    var r' := r.Put(item);
    assert r'.Len() == r.Len() + 1;
    forall k | 0 <= k < r'.Len() ensures r'.Contents()[k] == (r.Contents() + [item])[k] {
    }
  }

  /** A get removes the oldest item. */
  lemma GetRemoves<T>(r: Ring<T>)
    requires r.Valid() && !r.Empty()
    ensures r.Get().Valid() && !r.Get().Full()
    ensures r.Contents() == [r.items[r.start]] + r.Get().Contents()
  {
    Wrap(r.start, |r.items|);
    var r' := r.Get();
    assert r'.Len() == r.Len() - 1;
    forall k | 0 <= k < r'.Len() ensures r'.Contents()[k] == r.Contents()[k + 1] {
    }
  }
}
