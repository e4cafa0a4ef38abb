/** Resampling counts by key into coarser buckets, in the order the keys come in. */
module Resampling {
  import opened Counting

  // ----- sums over keys

  function At(value: map<int, int>, key: int): int { if key in value then value[key] else 0 }

  /** The values of these keys together. */
  function Sum(value: map<int, int>, keys: seq<int>): int {
    if keys == [] then 0 else Sum(value, keys[..|keys| - 1]) + At(value, keys[|keys| - 1])
  }

  ghost predicate Increasing(s: seq<int>) {
    forall i, j :: 0 <= i < j < |s| ==> s[i] < s[j]
  }

  /** The start of the bucket of `size` that a key falls in. */
  function Start(key: int, size: int): int
    requires size > 0
  {
    (key / size) * size
  }

  lemma StartMonotone(a: int, b: int, size: int)
    requires size > 0 && a <= b
    ensures Start(a, size) <= Start(b, size)
  {
    var d := b / size - a / size;
    Multiple(d, size);
    assert d * size == Start(b, size) - Start(a, size);
    assert a == Start(a, size) + a % size && b == Start(b, size) + b % size;
  }

  lemma StartBelow(a: int, size: int)
    requires size > 0
    ensures Start(a, size) <= a < Start(a, size) + size
    ensures Start(a, size) >= 0 <==> a >= 0
  {
    assert a == Start(a, size) + a % size;
    if a < 0 {
      Multiple(a / size, size);
    } else {
      StartMonotone(0, a, size);
    }
  }

  /** The keys of a bucket, in order. */
  function InBucket(keys: seq<int>, start: int, size: int): seq<int>
    requires size > 0
  {
    if keys == [] then []
    else
      var last := keys[|keys| - 1];
      InBucket(keys[..|keys| - 1], start, size) + if Start(last, size) == start then [last] else []
  }

  lemma {:induction false} InBucketNone(keys: seq<int>, start: int, size: int)
    requires size > 0 && forall i :: 0 <= i < |keys| ==> Start(keys[i], size) != start
    ensures InBucket(keys, start, size) == []
  {
    if keys != [] {
      InBucketNone(keys[..|keys| - 1], start, size);
    }
  }

  function Total(s: seq<int>): int {
    if s == [] then 0 else Total(s[..|s| - 1]) + s[|s| - 1]
  }

  // ----- the resampled series

  /** Bucket `b` starts where some key's bucket does and holds the sum of its keys' values. */
  ghost predicate Bucket(value: map<int, int>, keys: seq<int>, size: int, start: int, sum: int)
    requires size > 0
  {
    && (exists i :: 0 <= i < |keys| && Start(keys[i], size) == start)
    && sum == Sum(value, InBucket(keys, start, size))
  }

  /** The keys resampled: bucket starts in order and once each, every key's bucket among them, each with the sum of
      its keys, and all sums together those of all keys. */
  ghost predicate Resampled(value: map<int, int>, keys: seq<int>, size: int, starts: seq<int>, sums: seq<int>)
    requires size > 0
  {
    && |starts| == |sums| && Increasing(starts)
    && (forall i :: 0 <= i < |keys| ==> Start(keys[i], size) in starts)
    && (forall b :: 0 <= b < |starts| ==> Bucket(value, keys, size, starts[b], sums[b]))
    && Total(sums) == Sum(value, keys)
  }

  lemma BucketKeeps(value: map<int, int>, keys: seq<int>, size: int, start: int, sum: int, key: int)
    requires size > 0 && Bucket(value, keys, size, start, sum)
    ensures Bucket(value, keys + [key], size, start, if Start(key, size) == start then sum + At(value, key) else sum)
  {
    hide Start;
    var keys', was := keys + [key], InBucket(keys, start, size);
    assert keys'[..|keys|] == keys;
    var i :| 0 <= i < |keys| && Start(keys[i], size) == start;
    assert keys'[i] == keys[i];
    assert InBucket(keys', start, size) == was + if Start(key, size) == start then [key] else [];
    assert (was + [key])[..|was|] == was && was + [] == was;
  }

  lemma BucketBegins(value: map<int, int>, keys: seq<int>, size: int, key: int)
    requires size > 0 && forall i :: 0 <= i < |keys| ==> Start(keys[i], size) != Start(key, size)
    ensures Bucket(value, keys + [key], size, Start(key, size), At(value, key))
  {
    hide Start;
    var keys', start := keys + [key], Start(key, size);
    assert keys'[..|keys|] == keys && keys'[|keys|] == key;
    InBucketNone(keys, start, size);
    assert InBucket(keys', start, size) == [] + [key] == [key];
    assert [key][..0] == [];
    assert Sum(value, [key]) == Sum(value, []) + At(value, key);
  }

  lemma StartsCover(keys: seq<int>, size: int, starts: seq<int>, key: int)
    requires size > 0 && Start(key, size) in starts
    requires forall i :: 0 <= i < |keys| ==> Start(keys[i], size) in starts
    ensures forall i :: 0 <= i < |keys + [key]| ==> Start((keys + [key])[i], size) in starts
  {
  }

  lemma ResampledNone(value: map<int, int>, size: int)
    requires size > 0
    ensures Resampled(value, [], size, [], [])
  {
  }

  lemma ResampledTotal(value: map<int, int>, keys: seq<int>, size: int, starts: seq<int>, sums: seq<int>)
    requires size > 0 && Resampled(value, keys, size, starts, sums)
    ensures Total(sums) == Sum(value, keys) && |starts| == |sums| && Increasing(starts)
  {
  }

  /** A key in a bucket of its own, behind all others. */
  lemma ResampleNew(value: map<int, int>, keys: seq<int>, size: int, starts: seq<int>, sums: seq<int>, key: int)
    requires size > 0 && Resampled(value, keys, size, starts, sums)
    requires forall b :: 0 <= b < |starts| ==> starts[b] < Start(key, size)
    ensures Resampled(value, keys + [key], size, starts + [Start(key, size)], sums + [At(value, key)])
  {
    hide Start, Bucket, InBucket;
    var s := Start(key, size);
    var keys', starts', sums' := keys + [key], starts + [s], sums + [At(value, key)];
    assert keys'[..|keys|] == keys && sums'[..|sums|] == sums;
    StartsCover(keys, size, starts', key);
    BucketBegins(value, keys, size, key);
    forall b | 0 <= b < |starts'| ensures Bucket(value, keys', size, starts'[b], sums'[b]) {
      if b < |starts| {
        BucketKeeps(value, keys, size, starts[b], sums[b], key);
      }
    }
  }

  /** One more key for the last bucket. */
  lemma ResampleMore(value: map<int, int>, keys: seq<int>, size: int, starts: seq<int>, sums: seq<int>, key: int)
    requires size > 0 && Resampled(value, keys, size, starts, sums)
    requires starts != [] && Start(key, size) == starts[|starts| - 1]
    ensures var n := |sums| - 1;
      Resampled(value, keys + [key], size, starts, sums[n := sums[n] + At(value, key)])
  {
    hide Start, Bucket, InBucket;
    var n := |sums| - 1;
    var keys', sums' := keys + [key], sums[n := sums[n] + At(value, key)];
    assert keys'[..|keys|] == keys && sums'[..n] == sums[..n];
    StartsCover(keys, size, starts, key);
    forall b | 0 <= b < |starts| ensures Bucket(value, keys', size, starts[b], sums'[b]) {
      BucketKeeps(value, keys, size, starts[b], sums[b], key);
    }
  }

  // ----- resampling keys in the order they come in

  /** The starts and the sums of the buckets. */
  datatype Series = Series(starts: seq<int>, sums: seq<int>)

  predicate OpensBucket(starts: seq<int>, s: int) { starts == [] || s > starts[|starts| - 1] }

  /** A value goes to the last bucket unless its own starts behind it. */
  function PutIn(r: Series, s: int, v: int): (r': Series)
    requires |r.starts| == |r.sums|
    ensures |r'.starts| == |r'.sums| && r'.starts != []
    ensures r'.starts == if OpensBucket(r.starts, s) then r.starts + [s] else r.starts
  {
    var last := |r.starts| - 1;
    if OpensBucket(r.starts, s) then Series(r.starts + [s], r.sums + [v])
    else Series(r.starts, r.sums[last := r.sums[last] + v])
  }

  function Sampled(value: map<int, int>, keys: seq<int>, size: int): (r: Series)
    requires size > 0
    ensures |r.starts| == |r.sums| && (keys != [] ==> r.starts != [])
  {
    if keys == [] then Series([], [])
    else
      var n := |keys| - 1;
      PutIn(Sampled(value, keys[..n], size), Start(keys[n], size), At(value, keys[n]))
  }

  /** A key behind one whose bucket starts later. */
  ghost predicate Late(keys: seq<int>, size: int, i: nat)
    requires size > 0 && i < |keys|
  {
    exists j :: 0 <= j < i && Start(keys[j], size) > Start(keys[i], size)
  }

  /** A key in time for its bucket, the one that starts at `start`. */
  ghost predicate InTimeFor(keys: seq<int>, size: int, j: nat, start: int)
    requires size > 0 && j < |keys|
  {
    !Late(keys, size, j) && Start(keys[j], size) == start
  }

  /** Keys that come late have nothing to count, and a bucket that others have opened in time. */
  ghost predicate LateHarmless(value: map<int, int>, keys: seq<int>, size: int)
    requires size > 0
  {
    forall i :: 0 <= i < |keys| && Late(keys, size, i) ==>
      At(value, keys[i]) == 0 && exists j :: 0 <= j < i && InTimeFor(keys, size, j, Start(keys[i], size))
  }

  /** Every bucket is that of a key in time. */
  ghost predicate OpenedInTime(keys: seq<int>, size: int, starts: seq<int>)
    requires size > 0
  {
    forall b :: 0 <= b < |starts| ==> SomeInTime(keys, size, starts[b])
  }

  ghost predicate SomeInTime(keys: seq<int>, size: int, start: int)
    requires size > 0
  {
    exists j :: 0 <= j < |keys| && InTimeFor(keys, size, j, start)
  }

  /** The last bucket starts as late as any. */
  ghost predicate Reaches(keys: seq<int>, size: int, starts: seq<int>)
    requires size > 0
  {
    forall i :: 0 <= i < |keys| ==> starts != [] && Start(keys[i], size) <= starts[|starts| - 1]
  }

  /** Every key in time has its bucket. */
  ghost predicate Housed(keys: seq<int>, size: int, starts: seq<int>)
    requires size > 0
  {
    forall i :: 0 <= i < |keys| && !Late(keys, size, i) ==> Start(keys[i], size) in starts
  }

  /** Increasing multiples of the size. */
  ghost predicate Steps(size: int, starts: seq<int>)
    requires size > 0
  {
    Increasing(starts) && forall b :: 0 <= b < |starts| ==> starts[b] % size == 0
  }

  /** The buckets are those of the keys in time. */
  ghost predicate Opened(keys: seq<int>, size: int, starts: seq<int>)
    requires size > 0
  {
    Steps(size, starts) && OpenedInTime(keys, size, starts) && Reaches(keys, size, starts) && Housed(keys, size, starts)
  }

  lemma LatePrefix(keys: seq<int>, size: int, n: nat, i: nat)
    requires size > 0 && i < n <= |keys|
    ensures Late(keys[..n], size, i) <==> Late(keys, size, i)
  {
    assert forall j :: 0 <= j < n ==> keys[..n][j] == keys[j];
  }

  /** The last key is late exactly when its bucket starts before the last one. */
  lemma LastLate(keys: seq<int>, size: int, starts: seq<int>)
    requires size > 0 && keys != [] && Opened(keys[..|keys| - 1], size, starts)
    ensures var n := |keys| - 1;
      Late(keys, size, n) <==> starts != [] && Start(keys[n], size) < starts[|starts| - 1]
  {
    hide Start;
    var n := |keys| - 1;
    if starts != [] && Start(keys[n], size) < starts[|starts| - 1] {
      var j :| 0 <= j < n && InTimeFor(keys[..n], size, j, starts[|starts| - 1]);
      assert keys[..n][j] == keys[j];
    }
    if Late(keys, size, n) {
      var j :| 0 <= j < n && Start(keys[j], size) > Start(keys[n], size);
      assert keys[..n][j] == keys[j];
    }
  }

  lemma {:induction false} SampledOpened(value: map<int, int>, keys: seq<int>, size: int)
    requires size > 0
    ensures Opened(keys, size, Sampled(value, keys, size).starts)
  {
    hide Start, Opened, Late;
    if keys == [] {
      NothingOpened(size);
    } else {
      var n := |keys| - 1;
      var was := Sampled(value, keys[..n], size).starts;
      SampledOpened(value, keys[..n], size);
      LastLate(keys, size, was);
      OpenedNext(keys, size, was);
    }
  }

  lemma NothingOpened(size: int)
    requires size > 0
    ensures Opened([], size, [])
  {
  }

  lemma MultipleStart(key: int, size: int)
    requires size > 0
    ensures Start(key, size) % size == 0
  {
    ModUnique(Start(key, size), size, key / size, 0);
  }

  /** Keys in time stay so behind a further key. */
  lemma PrefixInTime(keys: seq<int>, size: int, n: nat)
    requires size > 0 && n <= |keys|
    ensures forall j, start :: 0 <= j < n ==>
      (InTimeFor(keys[..n], size, j, start) <==> InTimeFor(keys, size, j, start))
    ensures forall j :: 0 <= j < n ==> keys[..n][j] == keys[j] && (Late(keys[..n], size, j) <==> Late(keys, size, j))
  {
    hide Start, Late;
    forall j | 0 <= j < n ensures keys[..n][j] == keys[j] && (Late(keys[..n], size, j) <==> Late(keys, size, j)) {
      LatePrefix(keys, size, n, j);
    }
  }

  lemma StepsNext(size: int, was: seq<int>, key: int)
    requires size > 0 && Steps(size, was) && OpensBucket(was, Start(key, size))
    ensures Steps(size, was + [Start(key, size)])
  {
    hide Start;
    MultipleStart(key, size);
    assert forall b :: 0 <= b < |was| ==> was[b] <= was[|was| - 1];
  }

  lemma OpenedInTimeNext(keys: seq<int>, size: int, was: seq<int>)
    requires size > 0 && keys != [] && OpenedInTime(keys[..|keys| - 1], size, was)
    ensures OpenedInTime(keys, size, was)
    ensures !Late(keys, size, |keys| - 1) ==> OpenedInTime(keys, size, was + [Start(keys[|keys| - 1], size)])
  {
    hide Start, Late;
    var n := |keys| - 1;
    PrefixInTime(keys, size, n);
    forall b | 0 <= b < |was| ensures SomeInTime(keys, size, was[b]) {
      var j :| 0 <= j < n && InTimeFor(keys[..n], size, j, was[b]);
      assert InTimeFor(keys, size, j, was[b]);
    }
    if !Late(keys, size, n) {
      LastInTime(keys, size);
    }
  }

  lemma LastInTime(keys: seq<int>, size: int)
    requires size > 0 && keys != [] && !Late(keys, size, |keys| - 1)
    ensures InTimeFor(keys, size, |keys| - 1, Start(keys[|keys| - 1], size))
  {
  }

  lemma HousedNext(keys: seq<int>, size: int, was: seq<int>, now: seq<int>)
    requires size > 0 && keys != [] && Housed(keys[..|keys| - 1], size, was)
    requires (forall s :: s in was ==> s in now)
    requires !Late(keys, size, |keys| - 1) ==> Start(keys[|keys| - 1], size) in now
    ensures Housed(keys, size, now)
  {
    hide Start, Late;
    var n := |keys| - 1;
    PrefixInTime(keys, size, n);
    forall i | 0 <= i < |keys| && !Late(keys, size, i) ensures Start(keys[i], size) in now {
      if i < n {
        assert keys[..n][i] == keys[i] && Start(keys[..n][i], size) in was;
      }
    }
  }

  lemma ReachesNext(keys: seq<int>, size: int, was: seq<int>, now: seq<int>)
    requires size > 0 && keys != [] && Reaches(keys[..|keys| - 1], size, was) && now != []
    requires Start(keys[|keys| - 1], size) <= now[|now| - 1]
    requires was != [] ==> was[|was| - 1] <= now[|now| - 1]
    ensures Reaches(keys, size, now)
  {
    hide Start;
    var n := |keys| - 1;
    forall i | 0 <= i < |keys| ensures Start(keys[i], size) <= now[|now| - 1] {
      if i < n { assert keys[..n][i] == keys[i]; }
    }
  }

  lemma OpenedNext(keys: seq<int>, size: int, was: seq<int>)
    requires size > 0 && keys != [] && Opened(keys[..|keys| - 1], size, was)
    requires var n := |keys| - 1;
      Late(keys, size, n) <==> was != [] && Start(keys[n], size) < was[|was| - 1]
    ensures var s := Start(keys[|keys| - 1], size);
      Opened(keys, size, if OpensBucket(was, s) then was + [s] else was)
  {
    hide Start, Late, Steps, OpenedInTime, Reaches, Housed;
    var n := |keys| - 1;
    var s := Start(keys[n], size);
    var now := if OpensBucket(was, s) then was + [s] else was;
    OpenedInTimeNext(keys, size, was);
    if OpensBucket(was, s) {
      StepsNext(size, was, keys[n]);
      assert now[|was|] == s;
    } else {
      assert !Late(keys, size, n) ==> was[|was| - 1] == s;
    }
    HousedNext(keys, size, was, now);
    ReachesNext(keys, size, was, now);
  }

  // ----- every bucket right

  lemma HarmlessPrefix(value: map<int, int>, keys: seq<int>, size: int, n: nat)
    requires size > 0 && n <= |keys| && LateHarmless(value, keys, size)
    ensures LateHarmless(value, keys[..n], size)
  {
    hide Start, Late;
    PrefixInTime(keys, size, n);
    forall i | 0 <= i < n && Late(keys[..n], size, i)
      ensures At(value, keys[..n][i]) == 0
      ensures exists j :: 0 <= j < i && InTimeFor(keys[..n], size, j, Start(keys[..n][i], size))
    {
      var j :| 0 <= j < i && InTimeFor(keys, size, j, Start(keys[i], size));
      assert InTimeFor(keys[..n], size, j, Start(keys[..n][i], size));
    }
  }

  /** A late key with nothing to count, whose bucket is there. */
  lemma ResampleLate(value: map<int, int>, keys: seq<int>, size: int, starts: seq<int>, sums: seq<int>, key: int)
    requires size > 0 && Resampled(value, keys, size, starts, sums)
    requires At(value, key) == 0 && Start(key, size) in starts
    ensures Resampled(value, keys + [key], size, starts, sums)
  {
    hide Start, Bucket, InBucket;
    var keys' := keys + [key];
    assert keys'[..|keys|] == keys;
    StartsCover(keys, size, starts, key);
    forall b | 0 <= b < |starts| ensures Bucket(value, keys', size, starts[b], sums[b]) {
      BucketKeeps(value, keys, size, starts[b], sums[b], key);
    }
  }

  lemma {:induction false} HarmlessResampled(value: map<int, int>, keys: seq<int>, size: int)
    requires size > 0 && LateHarmless(value, keys, size)
    ensures var r := Sampled(value, keys, size); Resampled(value, keys, size, r.starts, r.sums)
  {
    hide Start, Late, Resampled, Opened, LateHarmless, PutIn;
    if keys == [] {
      ResampledNone(value, size);
    } else {
      var n := |keys| - 1;
      HarmlessPrefix(value, keys, size, n);
      HarmlessResampled(value, keys[..n], size);
      SampledOpened(value, keys[..n], size);
      HarmlessNext(value, keys, size, Sampled(value, keys[..n], size));
    }
  }

  lemma HarmlessNext(value: map<int, int>, keys: seq<int>, size: int, was: Series)
    requires size > 0 && keys != [] && LateHarmless(value, keys, size)
    requires |was.starts| == |was.sums| && Opened(keys[..|keys| - 1], size, was.starts)
    requires Resampled(value, keys[..|keys| - 1], size, was.starts, was.sums)
    ensures var r := PutIn(was, Start(keys[|keys| - 1], size), At(value, keys[|keys| - 1]));
      Resampled(value, keys, size, r.starts, r.sums)
  {
    hide Start, Late, Resampled, Opened;
    var n := |keys| - 1;
    LastLate(keys, size, was.starts);
    assert keys == keys[..n] + [keys[n]];
    ResampledTotal(value, keys[..n], size, was.starts, was.sums);
    if OpensBucket(was.starts, Start(keys[n], size)) {
      BelowLast(was.starts, Start(keys[n], size));
      ResampleNew(value, keys[..n], size, was.starts, was.sums, keys[n]);
    } else if Late(keys, size, n) {
      var j :| 0 <= j < n && InTimeFor(keys, size, j, Start(keys[n], size));
      PrefixInTime(keys, size, n);
      StartOpened(keys[..n], size, was.starts, j);
      assert was.sums[|was.sums| - 1 := was.sums[|was.sums| - 1] + 0] == was.sums;
      ResampleLate(value, keys[..n], size, was.starts, was.sums, keys[n]);
    } else {
      ResampleMore(value, keys[..n], size, was.starts, was.sums, keys[n]);
    }
  }

  lemma BelowLast(starts: seq<int>, s: int)
    requires Increasing(starts) && (starts == [] || starts[|starts| - 1] < s)
    ensures forall b :: 0 <= b < |starts| ==> starts[b] < s
  {
  }

  lemma StartOpened(keys: seq<int>, size: int, starts: seq<int>, j: nat)
    requires size > 0 && j < |keys| && Opened(keys, size, starts) && !Late(keys, size, j)
    ensures Start(keys[j], size) in starts
  {
  }

  // ----- and only then: weighing every count by the start of the bucket it is in

  /** The sums, each times the start of its bucket. */
  function Moment(starts: seq<int>, sums: seq<int>): int
    requires |starts| == |sums|
  {
    if starts == [] then 0
    else
      var n := |starts| - 1;
      Moment(starts[..n], sums[..n]) + starts[n] * sums[n]
  }

  lemma {:induction false} MomentMore(starts: seq<int>, sums: seq<int>, b: nat, d: int)
    requires |starts| == |sums| && b < |starts|
    ensures Moment(starts, sums[b := sums[b] + d]) == Moment(starts, sums) + starts[b] * d
  {
    var n := |starts| - 1;
    var sums' := sums[b := sums[b] + d];
    if b == n {
      assert sums'[..n] == sums[..n];
      Distributes(starts[n], sums[n], d);
    } else {
      assert sums'[..n] == sums[..n][b := sums[..n][b] + d];
      MomentMore(starts[..n], sums[..n], b, d);
    }
  }

  lemma Distributes(a: int, b: int, c: int)
    ensures a * (b + c) == a * b + a * c
  {
  }

  lemma {:induction false} MomentZero(starts: seq<int>, sums: seq<int>)
    requires |starts| == |sums| && forall b :: 0 <= b < |sums| ==> sums[b] == 0
    ensures Moment(starts, sums) == 0
  {
    if starts != [] {
      MomentZero(starts[..|starts| - 1], sums[..|starts| - 1]);
    }
  }

  /** Every key's value times the start of its own bucket. */
  function OwnMoment(value: map<int, int>, keys: seq<int>, size: int): int
    requires size > 0
  {
    if keys == [] then 0
    else
      var n := |keys| - 1;
      OwnMoment(value, keys[..n], size) + Start(keys[n], size) * At(value, keys[n])
  }

  /** What the buckets hold when each holds its own keys. */
  function OwnSums(value: map<int, int>, keys: seq<int>, size: int, starts: seq<int>): (r: seq<int>)
    requires size > 0
    ensures |r| == |starts|
  {
    seq(|starts|, b requires 0 <= b < |starts| => Sum(value, InBucket(keys, starts[b], size)))
  }

  lemma OwnSumsNext(value: map<int, int>, keys: seq<int>, size: int, starts: seq<int>, b: nat)
    requires size > 0 && keys != [] && Increasing(starts)
    requires b < |starts| && starts[b] == Start(keys[|keys| - 1], size)
    ensures var was := OwnSums(value, keys[..|keys| - 1], size, starts);
      OwnSums(value, keys, size, starts) == was[b := was[b] + At(value, keys[|keys| - 1])]
  {
    hide Start;
    var n := |keys| - 1;
    forall c | 0 <= c < |starts|
      ensures Sum(value, InBucket(keys, starts[c], size))
        == Sum(value, InBucket(keys[..n], starts[c], size)) + if c == b then At(value, keys[n]) else 0
    {
      var was := InBucket(keys[..n], starts[c], size);
      assert (was + [keys[n]])[..|was|] == was && was + [] == was;
    }
  }

  lemma {:induction false} OwnMomentIs(value: map<int, int>, keys: seq<int>, size: int, starts: seq<int>)
    requires size > 0 && Increasing(starts) && forall i :: 0 <= i < |keys| ==> Start(keys[i], size) in starts
    ensures Moment(starts, OwnSums(value, keys, size, starts)) == OwnMoment(value, keys, size)
  {
    hide Start, Moment;
    if keys == [] {
      MomentZero(starts, OwnSums(value, keys, size, starts));
    } else {
      var n := |keys| - 1;
      assert forall i :: 0 <= i < n ==> keys[..n][i] == keys[i];
      OwnMomentIs(value, keys[..n], size, starts);
      var b :| 0 <= b < |starts| && starts[b] == Start(keys[n], size);
      OwnSumsNext(value, keys, size, starts, b);
      MomentMore(starts, OwnSums(value, keys[..n], size, starts), b, At(value, keys[n]));
    }
  }

  ghost predicate NoneBelowZero(value: map<int, int>, keys: seq<int>) {
    forall i :: 0 <= i < |keys| ==> At(value, keys[i]) >= 0
  }

  /** The moment can only be too great, and is if a late key has something to count. */
  lemma {:induction false} MomentGrows(value: map<int, int>, keys: seq<int>, size: int)
    requires size > 0 && NoneBelowZero(value, keys)
    ensures var r := Sampled(value, keys, size);
      && Moment(r.starts, r.sums) >= OwnMoment(value, keys, size)
      && (Moment(r.starts, r.sums) == OwnMoment(value, keys, size) ==>
            forall i :: 0 <= i < |keys| && Late(keys, size, i) ==> At(value, keys[i]) == 0)
  {
    hide Start, Moment, Late, Opened, PutIn;
    if keys == [] {
      MomentZero([], []);
    } else {
      var n := |keys| - 1;
      var was := Sampled(value, keys[..n], size);
      assert forall i :: 0 <= i < n ==> keys[..n][i] == keys[i];
      MomentGrows(value, keys[..n], size);
      SampledOpened(value, keys[..n], size);
      LastLate(keys, size, was.starts);
      PrefixInTime(keys, size, n);
      MomentNext(was, Start(keys[n], size), At(value, keys[n]));
    }
  }

  /** One more value: its bucket starts no sooner than its own, and later if it is late. */
  lemma MomentNext(r: Series, s: int, v: int)
    requires |r.starts| == |r.sums| && v >= 0
    ensures var r' := PutIn(r, s, v);
      && Moment(r'.starts, r'.sums) >= Moment(r.starts, r.sums) + s * v
      && (r.starts != [] && s < r.starts[|r.starts| - 1] && v > 0 ==>
            Moment(r'.starts, r'.sums) > Moment(r.starts, r.sums) + s * v)
  {
    hide Moment;
    if OpensBucket(r.starts, s) {
      MomentNew(r.starts, r.sums, s, v);
    } else {
      var last := |r.starts| - 1;
      MomentMore(r.starts, r.sums, last, v);
      LaterWeighs(r.starts[last], s, v);
    }
  }

  lemma MomentNew(starts: seq<int>, sums: seq<int>, s: int, v: int)
    requires |starts| == |sums|
    ensures Moment(starts + [s], sums + [v]) == Moment(starts, sums) + s * v
  {
    assert (starts + [s])[..|starts|] == starts && (sums + [v])[..|sums|] == sums;
  }

  lemma LaterWeighs(a: int, s: int, v: int)
    requires a >= s && v >= 0
    ensures a * v >= s * v
    ensures s < a && v > 0 ==> a * v > s * v
  {
    Difference(a, s, v);
    Product(a - s, v);
  }

  lemma Difference(a: int, s: int, v: int)
    ensures a * v - s * v == (a - s) * v
  {
  }

  lemma Product(d: int, v: int)
    requires d >= 0 && v >= 0
    ensures d * v >= 0
    ensures d > 0 && v > 0 ==> d * v > 0
  {
  }

  lemma ResampledOwn(value: map<int, int>, keys: seq<int>, size: int, starts: seq<int>, sums: seq<int>)
    requires size > 0 && Resampled(value, keys, size, starts, sums)
    ensures sums == OwnSums(value, keys, size, starts)
  {
    forall b | 0 <= b < |starts| ensures sums[b] == Sum(value, InBucket(keys, starts[b], size)) {
      assert Bucket(value, keys, size, starts[b], sums[b]);
    }
  }

  /** A late key whose bucket is there: another key has opened it in time. */
  lemma FoundOpened(keys: seq<int>, size: int, starts: seq<int>, i: nat)
    requires size > 0 && i < |keys| && Opened(keys, size, starts) && Late(keys, size, i)
    requires Start(keys[i], size) in starts
    ensures exists j :: 0 <= j < i && InTimeFor(keys, size, j, Start(keys[i], size))
  {
    hide Start;
    var b :| 0 <= b < |starts| && starts[b] == Start(keys[i], size);
    var j :| 0 <= j < |keys| && InTimeFor(keys, size, j, starts[b]);
    var k :| 0 <= k < i && Start(keys[k], size) > Start(keys[i], size);
    assert j > i ==> k < j;
    assert InTimeFor(keys, size, j, Start(keys[i], size));
  }

  /** Keys resampled in the order they come in give every bucket the sum of its own keys, if and only if those that
      come late have nothing to count and find their bucket opened. */
  lemma ResampledExactly(value: map<int, int>, keys: seq<int>, size: int)
    requires size > 0 && NoneBelowZero(value, keys)
    ensures var r := Sampled(value, keys, size);
      Resampled(value, keys, size, r.starts, r.sums) <==> LateHarmless(value, keys, size)
  {
    hide Start, Late, Opened, Moment, OwnSums, OwnMoment;
    var r := Sampled(value, keys, size);
    SampledOpened(value, keys, size);
    if LateHarmless(value, keys, size) {
      HarmlessResampled(value, keys, size);
    } else if Resampled(value, keys, size, r.starts, r.sums) {
      ResampledOwn(value, keys, size, r.starts, r.sums);
      OwnMomentIs(value, keys, size, r.starts);
      MomentGrows(value, keys, size);
      forall i | 0 <= i < |keys| && Late(keys, size, i)
        ensures exists j :: 0 <= j < i && InTimeFor(keys, size, j, Start(keys[i], size))
      {
        FoundOpened(keys, size, r.starts, i);
      }
    }
  }

  /** Nothing is late among keys in order. */
  lemma NoneLate(keys: seq<int>, size: int)
    requires size > 0 && Increasing(keys)
    ensures forall i :: 0 <= i < |keys| ==> !Late(keys, size, i)
  {
    hide Start;
    forall i, j | 0 <= j < i < |keys| ensures Start(keys[j], size) <= Start(keys[i], size) {
      StartMonotone(keys[j], keys[i], size);
    }
  }

  lemma PutInTotal(r: Series, s: int, v: int)
    requires |r.starts| == |r.sums|
    ensures Total(PutIn(r, s, v).sums) == Total(r.sums) + v
  {
    var m := |r.sums|;
    if OpensBucket(r.starts, s) {
      assert (r.sums + [v])[..m] == r.sums;
    } else {
      var sums := r.sums[m - 1 := r.sums[m - 1] + v];
      assert sums[..m - 1] == r.sums[..m - 1];
    }
  }

  /** Nothing gets lost, whatever the order. */
  lemma {:induction false} SampledTotal(value: map<int, int>, keys: seq<int>, size: int)
    requires size > 0
    ensures Total(Sampled(value, keys, size).sums) == Sum(value, keys)
  {
    hide Start, PutIn;
    if keys != [] {
      var n := |keys| - 1;
      SampledTotal(value, keys[..n], size);
      PutInTotal(Sampled(value, keys[..n], size), Start(keys[n], size), At(value, keys[n]));
    }
  }

  /** The first `i` keys and one more. */
  lemma SampledNext(value: map<int, int>, keys: seq<int>, size: int, i: nat)
    requires size > 0 && i < |keys|
    ensures Sampled(value, keys[..i + 1], size)
      == PutIn(Sampled(value, keys[..i], size), Start(keys[i], size), At(value, keys[i]))
  {
    hide Start, PutIn;
    assert keys[..i + 1][..i] == keys[..i];
  }
}
