/** Event counts by time: keys collected in any order, put in order when needed, and resampled. */
module TimeBucket {
  import opened Sequences
  import opened Resampling

  // ----- sorting keys

  function Insert(s: seq<int>, x: int): seq<int> {
    if s == [] || s[|s| - 1] <= x then s + [x] else Insert(s[..|s| - 1], x) + [s[|s| - 1]]
  }

  function SortKeys(s: seq<int>): seq<int> {
    if s == [] then [] else Insert(SortKeys(s[..|s| - 1]), s[|s| - 1])
  }

  lemma SameKeys(a: seq<int>, b: seq<int>)
    requires multiset(a) == multiset(b)
    ensures forall k :: k in a <==> k in b
  {
    forall k ensures k in a <==> k in b {
      assert k in a <==> k in multiset(a);
      assert k in b <==> k in multiset(b);
    }
  }

  lemma {:induction false} InsertSorted(s: seq<int>, x: int)
    requires Increasing(s) && x !in s
    ensures Increasing(Insert(s, x)) && multiset(Insert(s, x)) == multiset(s) + multiset{x}
  {
    if s != [] && x < s[|s| - 1] {
      var init, last := s[..|s| - 1], s[|s| - 1];
      InsertSorted(init, x);
      InsertMembers(init, x);
      assert forall i :: 0 <= i < |init| ==> init[i] == s[i] < last;
      IncreasingSnoc(Insert(init, x), last);
      assert s == init + [last];
    } else {
      assert forall i :: 0 <= i < |s| ==> s[i] <= s[|s| - 1] <= x && s[i] != x;
      IncreasingSnoc(s, x);
    }
  }

  lemma IncreasingSnoc(s: seq<int>, x: int)
    requires Increasing(s) && forall k :: k in s ==> k < x
    ensures Increasing(s + [x])
  {
    assert forall i :: 0 <= i < |s| ==> s[i] in s;
  }

  lemma {:induction false} InsertMembers(s: seq<int>, x: int)
    ensures forall k :: k in Insert(s, x) <==> k in s || k == x
  {
    if s != [] && x < s[|s| - 1] {
      InsertMembers(s[..|s| - 1], x);
      assert s == s[..|s| - 1] + [s[|s| - 1]];
    }
  }

  lemma {:induction false} SortSorts(s: seq<int>)
    requires Distinct(s)
    ensures Increasing(SortKeys(s)) && multiset(SortKeys(s)) == multiset(s)
  {
    if s != [] {
      var init, last := s[..|s| - 1], s[|s| - 1];
      SortSorts(init);
      SameKeys(SortKeys(init), init);
      InsertSorted(SortKeys(init), last);
      assert s == init + [last];
    }
  }

  // ----- counting events

  type Hit = (int, nat)  // a key and an axis

  function Count(hits: seq<Hit>, key: int, axis: nat): nat {
    if hits == [] then 0
    else Count(hits[..|hits| - 1], key, axis) + if hits[|hits| - 1] == (key, axis) then 1 else 0
  }

  function CountAxis(hits: seq<Hit>, axis: nat): nat {
    if hits == [] then 0
    else CountAxis(hits[..|hits| - 1], axis) + if hits[|hits| - 1].1 == axis then 1 else 0
  }

  /** The counts of one axis. */
  function Axis(values: map<int, seq<int>>, axis: nat): map<int, int> {
    map k | k in values :: if axis < |values[k]| then values[k][axis] else 0
  }

  lemma {:induction false} SumChange(value: map<int, int>, value': map<int, int>, keys: seq<int>, key: int)
    requires Distinct(keys)
    requires forall k :: k in keys && k != key ==> At(value', k) == At(value, k)
    ensures Sum(value', keys) == Sum(value, keys) + if key in keys then At(value', key) - At(value, key) else 0
  {
    if keys != [] {
      var init, last := keys[..|keys| - 1], keys[|keys| - 1];
      assert keys == init + [last];
      SumChange(value, value', init, key);
    }
  }

  /** Summed over all keys, the counts of an axis are the events added on it. */
  lemma {:induction false} SumCounts(hits: seq<Hit>, keys: seq<int>, axis: nat, value: map<int, int>)
    requires Distinct(keys)
    requires forall i :: 0 <= i < |hits| ==> hits[i].0 in keys
    requires forall k :: k in keys ==> At(value, k) == Count(hits, k, axis)
    ensures Sum(value, keys) == CountAxis(hits, axis)
  {
    if hits == [] {
      SumZero(value, keys);
    } else {
      var init, last := hits[..|hits| - 1], hits[|hits| - 1];
      var before := map k | k in keys :: Count(init, k, axis) as int;
      assert forall i :: 0 <= i < |init| ==> init[i] == hits[i];
      SumCounts(init, keys, axis, before);
      SumChange(before, value, keys, last.0);
    }
  }

  lemma {:induction false} SumZero(value: map<int, int>, keys: seq<int>)
    requires forall k :: k in keys ==> At(value, k) == 0
    ensures Sum(value, keys) == 0
  {
    if keys != [] {
      var init := keys[..|keys| - 1];
      assert keys == init + [keys[|keys| - 1]];
      SumZero(value, init);
    }
  }

  /** The counters of one key. */
  ghost predicate Counted(counts: seq<int>, hits: seq<Hit>, key: int) {
    forall a: nat :: a < |counts| ==> counts[a] == Count(hits, key, a)
  }

  lemma CountedNext(counts: seq<int>, hits: seq<Hit>, key: int, hit: Hit)
    requires Counted(counts, hits, key)
    ensures hit.0 != key ==> Counted(counts, hits + [hit], key)
    ensures hit.0 == key && hit.1 < |counts| ==> Counted(counts[hit.1 := counts[hit.1] + 1], hits + [hit], key)
  {
    assert (hits + [hit])[..|hits|] == hits;
  }

  lemma {:induction false} NoHits(hits: seq<Hit>, key: int, n: nat)
    requires forall i :: 0 <= i < |hits| ==> hits[i].0 != key
    ensures Counted(seq(n, _ => 0), hits, key)
  {
    if hits != [] {
      NoHits(hits[..|hits| - 1], key, n);
    }
  }

  class TimeBucket {
    const dimensions: nat
    var sorted: bool
    var biggestIdx: int
    var indices: seq<int>
    var values: map<int, seq<int>>
    ghost var hits: seq<Hit>  // every event added

    ghost predicate Valid()
      reads this
    {
      && Distinct(indices)
      && (forall k :: k in indices <==> k in values)
      && (forall k :: k in values ==> |values[k]| == dimensions)
      && (forall k :: k in values ==> Counted(values[k], hits, k))
      && (forall i :: 0 <= i < |hits| ==> hits[i].0 in values)
      && (sorted ==> Increasing(indices) && forall i :: 0 <= i < |indices| ==> indices[i] <= biggestIdx)
    }

    constructor (dimensions: nat)
      ensures Valid() && this.dimensions == dimensions && hits == [] && sorted
    {
      this.dimensions := dimensions;
      sorted, biggestIdx, indices, values, hits := true, -1, [], map[], [];
    }

    method EnsureKey(key: int)
      requires Valid()
      modifies this`sorted, this`biggestIdx, this`indices, this`values
      ensures Valid() && key in values
      ensures multiset(indices) == multiset(old(indices)) + if key in old(values) then multiset{} else multiset{key}
    {
      hide Counted;
      if key !in values {
        NoHits(hits, key, dimensions);
        indices := indices + [key];
        values := values[key := seq(dimensions, _ => 0)];
        if key < biggestIdx {
          sorted := false;
        } else {
          biggestIdx := key;
        }
      }
    }

    method AddEvent(key: int, evt: nat)
      requires Valid() && evt < dimensions
      modifies this
      ensures Valid() && hits == old(hits) + [(key, evt)]
    {
      hide Counted, Increasing, Distinct;
      EnsureKey(key);
      ghost var was := values;
      forall k | k in values ensures k != key ==> Counted(values[k], hits + [(key, evt)], k) {
        CountedNext(values[k], hits, k, (key, evt));
      }
      CountedNext(values[key], hits, key, (key, evt));
      values := values[key := values[key][evt := values[key][evt] + 1]];
      hits := hits + [(key, evt)];
    }

    method Sort()
      requires Valid()
      modifies this`sorted, this`biggestIdx, this`indices
      ensures Valid() && sorted && multiset(indices) == multiset(old(indices))
    {
      hide Counted, SortKeys;
      if !sorted {
        SortSorts(indices);
        SameKeys(SortKeys(indices), indices);
        indices := SortKeys(indices);
        if |indices| > 0 {
          biggestIdx := indices[|indices| - 1];
        }
        sorted := true;
      }
    }

    /** The counts of an axis in buckets of `size`, from the keys as they stand. `ok` is false where the source fails:
        when there are keys and the size is 0 or the first key below zero. Nothing gets lost; every bucket holds its
        own keys if and only if late keys do no harm, which they cannot in sorted collections. */
    method Sample(axis: nat, size: nat) returns (starts: seq<int>, sums: seq<int>, ok: bool)
      requires Valid() && axis < dimensions
      ensures ok <==> indices == [] || (size > 0 && indices[0] >= 0)
      ensures ok ==> |starts| == |sums| && Increasing(starts) && Total(sums) == CountAxis(hits, axis)
      ensures ok && size > 0 ==> forall b :: 0 <= b < |starts| ==> starts[b] % size == 0
      ensures ok && size > 0 ==>
        (Resampled(Axis(values, axis), indices, size, starts, sums) <==>
           LateHarmless(Axis(values, axis), indices, size))
      ensures sorted && size > 0 ==> LateHarmless(Axis(values, axis), indices, size)
      ensures sorted && size > 0 ==> (ok <==> forall k :: k in indices ==> k >= 0)
    {
      hide Resampled, Start, Sum, Count, CountAxis, LateHarmless, Counted, Opened, Sampled, Increasing;
      starts, sums, ok := [], [], true;
      var lastKey := -1;
      ghost var value := Axis(values, axis);
      if sorted && size > 0 {
        SortedKeys(axis, size);
      }
      var i := 0;
      NothingSampled(value, size);
      while i < |indices|
        invariant 0 <= i <= |indices|
        invariant i > 0 ==> size > 0 && indices[0] >= 0
        invariant size > 0 ==> Series(starts, sums) == Sampled(value, indices[..i], size)
        invariant lastKey == if starts == [] then -1 else starts[|starts| - 1]
        invariant (starts == [] <==> i == 0) && |starts| == |sums|
      {
        if size == 0 {
          return [], [], false;
        }
        var idx := indices[i];
        var nkey := Start(idx, size);
        StartBelow(idx, size);
        SampledNext(value, indices, size, i);
        assert At(value, idx) == values[idx][axis];
        if nkey > lastKey {
          starts := starts + [nkey];
          sums := sums + [0];
          lastKey := nkey;
        }
        if sums == [] {
          return [], [], false;
        }
        sums := sums[|sums| - 1 := sums[|sums| - 1] + values[idx][axis]];
        i := i + 1;
      }
      assert indices[..|indices|] == indices;
      AxisTotal(axis);
      if size > 0 {
        SampledFacts(axis, size);
      } else {
        assert indices == [];
        NoKeys(value);
      }
    }

    lemma NothingSampled(value: map<int, int>, size: nat)
      ensures size > 0 ==> Sampled(value, indices[..0], size) == Series([], [])
      ensures Increasing([])
    {
    }

    lemma NoKeys(value: map<int, int>)
      ensures Sum(value, []) == Total([]) == 0
    {
    }

    lemma SortedKeys(axis: nat, size: nat)
      requires Valid() && sorted && size > 0
      ensures LateHarmless(Axis(values, axis), indices, size)
      ensures indices == [] || indices[0] >= 0 <==> forall k :: k in indices ==> k >= 0
    {
      hide Late, Counted;
      NoneLate(indices, size);
      assert indices != [] ==> indices[0] in indices;
    }

    lemma SampledFacts(axis: nat, size: nat)
      requires Valid() && axis < dimensions && size > 0
      ensures var value := Axis(values, axis);
        var r := Sampled(value, indices, size);
        && Increasing(r.starts) && Total(r.sums) == CountAxis(hits, axis)
        && (forall b :: 0 <= b < |r.starts| ==> r.starts[b] % size == 0)
        && (Resampled(value, indices, size, r.starts, r.sums) <==> LateHarmless(value, indices, size))
    {
      hide Start, Sampled, Resampled, LateHarmless, Count, CountAxis;
      var value := Axis(values, axis);
      SampledOpened(value, indices, size);
      SampledTotal(value, indices, size);
      AxisTotal(axis);
      forall i | 0 <= i < |indices| ensures At(value, indices[i]) >= 0 {
        assert Counted(values[indices[i]], hits, indices[i]);
      }
      ResampledExactly(value, indices, size);
    }

    lemma AxisTotal(axis: nat)
      requires Valid() && axis < dimensions
      ensures Sum(Axis(values, axis), indices) == CountAxis(hits, axis)
    {
      var value := Axis(values, axis);
      forall k | k in indices ensures At(value, k) == Count(hits, k, axis) {
        assert Counted(values[k], hits, k);
      }
      forall i | 0 <= i < |hits| ensures hits[i].0 in indices {
        var k := hits[i].0;
        assert k in values;
        assert k in indices;
      }
      SumCounts(hits, indices, axis, value);
    }
  }
}
