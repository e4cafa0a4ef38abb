/** Weighted ports: the table built from a portspec, by the scanner and by the table compiler, and the choice of an
    entry by its weight. */
module Ports {
  import opened Bytes
  import opened Counting
  import opened PortSpec
  import opened Targets

  /** The weights of the first `i` entries together. */
  function Points(entries: seq<Weighted>, i: nat): int
    requires i <= |entries|
  {
    if i == 0 then 0 else Points(entries, i - 1) + entries[i - 1].points
  }

  function Total(entries: seq<Weighted>): int { Points(entries, |entries|) }

  predicate NoneNegative(entries: seq<Weighted>) {
    forall i :: 0 <= i < |entries| ==> entries[i].points >= 0
  }

  lemma {:induction false} PointsGrow(entries: seq<Weighted>, i: nat, j: nat)
    requires i <= j <= |entries| && NoneNegative(entries)
    ensures Points(entries, i) <= Points(entries, j)
    decreases j
  {
    if i < j {
      PointsGrow(entries, i, j - 1);
    }
  }

  lemma {:induction false} PointsPrefix(entries: seq<Weighted>, more: seq<Weighted>, i: nat)
    requires i <= |entries|
    ensures Points(entries + more, i) == Points(entries, i)
  {
    if i > 0 {
      PointsPrefix(entries, more, i - 1);
    }
  }

  /** A number as an unsigned 32-bit word. */
  function Wrap32(n: int): (w: nat)
    ensures w < WORD
    ensures 0 <= n < WORD ==> w == n
  {
    n % WORD
  }

  /** The pair of entry i: its port, and the points so far less one. */
  ghost predicate PortPair(data: seq<nat>, entries: seq<Weighted>, i: nat)
    requires i < |entries| && |data| >= 2 * i + 2
  {
    data[2 * i] == Wrap32(entries[i].port) && data[2 * i + 1] == Wrap32(Points(entries, i + 1) - 1)
  }

  ghost predicate PortPairs(data: seq<nat>, entries: seq<Weighted>, n: nat)
    requires n <= |entries| && |data| >= 2 * n
  {
    forall i :: 0 <= i < n ==> PortPair(data, entries, i)
  }

  ghost predicate EncodesPorts(cfg: RangeCfg, entries: seq<Weighted>) {
    && cfg.num == |entries| && |cfg.ranges| == 2 * |entries|
    && cfg.maxIdx == Wrap32(Total(entries) - 1)
    && LeastMask(cfg.mask, Total(entries))
    && PortPairs(cfg.ranges, entries, |entries|)
  }

  /** One more pair. */
  lemma PortPairsNext(data: seq<nat>, entries: seq<Weighted>, i: nat)
    requires i < |entries| && |data| == 2 * i && PortPairs(data, entries, i)
    ensures PortPairs(data + [Wrap32(entries[i].port)] + [Wrap32(Points(entries, i + 1) - 1)], entries, i + 1)
  {
    hide Wrap32;
    var data' := data + [Wrap32(entries[i].port)] + [Wrap32(Points(entries, i + 1) - 1)];
    forall k | 0 <= k < i + 1 ensures PortPair(data', entries, k) {
      if k < i {
        assert PortPair(data, entries, k);
        assert data'[2 * k] == data[2 * k] && data'[2 * k + 1] == data[2 * k + 1];
      }
    }
  }

  lemma PortPairAt(data: seq<nat>, entries: seq<Weighted>, i: nat)
    requires i < |entries| && |data| >= 2 * |entries| && PortPairs(data, entries, |entries|)
    ensures data[2 * i] == Wrap32(entries[i].port) && data[2 * i + 1] == Wrap32(Points(entries, i + 1) - 1)
  {
    assert PortPair(data, entries, i);
  }

  // ----- the table compiler

  /** Packing puts every number in an unsigned word, and fails for one that does not fit. */
  predicate Packable(entries: seq<Weighted>) {
    && 1 <= Total(entries) <= WORD
    && forall i :: 0 <= i < |entries| ==> 0 <= entries[i].port < WORD && 1 <= Points(entries, i + 1) <= WORD
  }

  /** The table compiler's loop over the parts of the portspec. */
  method ReadPortspec(spec: string) returns (entries: Option<seq<Weighted>>)
    ensures entries == PyParse(spec)
  {
    var parts := if spec == "" then ["80"] else Split(spec, ',');
    var done: seq<Weighted>, i := [], 0;
    assert parts[0..] == parts;
    BehindNone(PyParse(spec));
    while i < |parts|
      invariant i <= |parts|
      invariant PyParse(spec) == Behind(done, PyEntries(parts[i..]))
    {
      hide PyParse, PyEntry;
      assert parts[i..][0] == parts[i] && parts[i..][1..] == parts[i + 1..];
      var e := PyEntry(parts[i]);
      if e.None? {
        return None;
      }
      BehindOne(done, e.value, PyEntries(parts[i + 1..]));
      done := done + [e.value];
      i := i + 1;
    }
    assert done + [] == done;
    return Some(done);
  }

  function Behind(done: seq<Weighted>, rest: Option<seq<Weighted>>): Option<seq<Weighted>> {
    match rest
    case None => None
    case Some(es) => Some(done + es)
  }

  lemma BehindNone(rest: Option<seq<Weighted>>)
    ensures Behind([], rest) == rest
  {
    assert rest.Some? ==> [] + rest.value == rest.value;
  }

  lemma BehindOne(done: seq<Weighted>, e: Weighted, rest: Option<seq<Weighted>>)
    ensures rest.Some? ==> Behind(done, Some([e] + rest.value)) == Behind(done + [e], rest)
  {
    if rest.Some? {
      assert done + ([e] + rest.value) == done + [e] + rest.value;
    }
  }

  /** The table compiler's loop over the port weights. None when the portspec cannot be read or the table not be
      packed. */
  method CompilePorts(spec: string) returns (cfg: Option<RangeCfg>)
    ensures cfg.Some? <==> PyParse(spec).Some? && Packable(PyParse(spec).value)
    ensures cfg.Some? ==> EncodesPorts(cfg.value, PyParse(spec).value)
  {
    hide PyParse, PortPair, LeastMask, Packable, EncodesPorts;
    var parsed := ReadPortspec(spec);
    if parsed.None? {
      return None;
    }
    var entries := parsed.value;
    var sum, data := SumPoints(entries);
    var mask := GetBinmask(sum);
    if !Packable(entries) {
      return None;
    }
    PackableSum(entries);
    cfg := Some(RangeCfg(|entries|, sum - 1, mask, data));
    Packed(cfg.value, entries);
  }

  lemma PackableSum(entries: seq<Weighted>)
    requires Packable(entries)
    ensures 1 <= Total(entries) <= WORD
  {
  }

  lemma Packed(cfg: RangeCfg, entries: seq<Weighted>)
    requires Packable(entries) && |cfg.ranges| == 2 * |entries| && PortPairs(cfg.ranges, entries, |entries|)
    requires cfg.num == |entries| && cfg.maxIdx == Total(entries) - 1 && LeastMask(cfg.mask, Total(entries))
    ensures EncodesPorts(cfg, entries)
  {
    hide LeastMask, PortPair;
  }

  method SumPoints(entries: seq<Weighted>) returns (sum: int, data: seq<nat>)
    ensures sum == Total(entries) && |data| == 2 * |entries| && PortPairs(data, entries, |entries|)
  {
    sum, data := 0, [];
    var i := 0;
    while i < |entries|
      invariant i <= |entries| && sum == Points(entries, i) && |data| == 2 * i
      invariant PortPairs(data, entries, i)
    {
      hide PortPairs, Wrap32;
      sum := sum + entries[i].points;
      PortPairsNext(data, entries, i);
      data := data + [Wrap32(entries[i].port)] + [Wrap32(sum - 1)];
      i := i + 1;
    }
  }

  // ----- the scanner

  predicate IsInt(n: int) { -0x8000_0000 <= n < 0x8000_0000 }

  /** The numbers of the first `n` entries, and their sums, fit an `int`. */
  ghost predicate IntsUpTo(entries: seq<Weighted>, n: nat)
    requires n <= |entries|
  {
    forall i :: 0 <= i < n ==> IntsAt(entries, i)
  }

  predicate IntsAt(entries: seq<Weighted>, i: nat)
    requires i < |entries|
  {
    IsInt(entries[i].port) && IsInt(entries[i].points) && IsInt(Points(entries, i + 1))
  }

  lemma NoInts(entries: seq<Weighted>)
    ensures IntsUpTo(entries, 0)
  {
  }

  lemma IntsNext(entries: seq<Weighted>, n: nat)
    requires n < |entries|
    ensures IntsUpTo(entries, n + 1) <==> IntsUpTo(entries, n) && IntsAt(entries, n)
  {
    hide IntsAt;
    if IntsUpTo(entries, n + 1) {
      assert IntsAt(entries, n);
    }
  }

  /** All that is read and added up fits an `int`, and so does the doubling mask. */
  ghost predicate FitsInt(entries: seq<Weighted>) {
    Total(entries) <= 0x4000_0000 && IntsUpTo(entries, |entries|)
  }

  /** The doubling mask in an `int`; none when it leaves it. */
  method IntBinmask(max: int) returns (mask: Option<nat>)
    ensures mask.Some? <==> max <= 0x4000_0000
    ensures mask.Some? ==> LeastMask(mask.value, max) && mask.value < 0x4000_0000
  {
    var m := 1;
    ghost var k: nat := 0;
    ThirtyBits(0);
    while m < max
      invariant m == Pow2(k) && k <= 30 && (k == 0 || Pow2(k - 1) < max)
      invariant if k < 30 then m < 0x4000_0000 else m == 0x4000_0000
      decreases 30 - k
    {
      if m * 2 >= 0x8000_0000 {
        return None;
      }
      m := m * 2;
      k := k + 1;
      ThirtyBits(k);
    }
    mask := Some(m - 1);
  }

  lemma ThirtyBits(k: nat)
    requires k <= 30
    ensures Pow2(30) == 0x4000_0000
    ensures k < 30 ==> Pow2(k) < 0x4000_0000
  {
    assert Pow2(10) == 1024;
    Pow2Sum(10, 10);
    Pow2Sum(20, 10);
    if k < 30 {
      Pow2Grows(k + 1, 30);
      assert Pow2(k + 1) == 2 * Pow2(k) && Pow2(k) > 0;
    }
  }

  /** Where a pass over a portspec stands: `done` has been read, the rest is still to be. */
  ghost predicate Passing(done: seq<Weighted>, rest: Option<string>, port: int, entries: seq<Weighted>) {
    entries == done + if rest.Some? then Parse(rest.value, port) else []
  }

  lemma EntryBehind<T>(done: seq<T>, e: T, more: seq<T>, all: seq<T>)
    requires all == done + ([e] + more)
    ensures |all| > |done| && all[|done|] == e && all[..|done + [e]|] == done + [e] && all == done + [e] + more
  {
  }

  /** One step of a pass. */
  lemma PassOn(done: seq<Weighted>, spec: string, port: int, entries: seq<Weighted>)
    requires Passing(done, Some(spec), port, entries)
    ensures AfterComma(spec).Some? ==> |AfterComma(spec).value| < |spec|
    ensures ScanEntry(spec, port).None? ==> entries == done
    ensures ScanEntry(spec, port).Some? ==>
      var e := ScanEntry(spec, port).value;
      && |entries| > |done| && entries[|done|] == e && entries[..|done + [e]|] == done + [e]
      && Passing(done + [e], AfterComma(spec), e.port, entries)
  {
    hide ScanEntry, AfterComma;
    AfterCommaShorter(spec);
    var scanned, rest := ScanEntry(spec, port), AfterComma(spec);
    if scanned.Some? {
      var e := scanned.value;
      var more := if rest.Some? then Parse(rest.value, e.port) else [];
      assert Parse(spec, port) == [e] + more;
      hide Parse;
      EntryBehind(done, e, more, entries);
    } else {
      assert done + [] == done;
    }
  }

  function LastPort(entries: seq<Weighted>, port: int): int {
    if entries == [] then port else entries[|entries| - 1].port
  }

  lemma PassBegins(spec: string, port: int)
    ensures Passing([], Some(spec), port, Parse(spec, port))
  {
    assert [] + Parse(spec, port) == Parse(spec, port);
  }

  lemma PassEnds(done: seq<Weighted>, port: int, entries: seq<Weighted>)
    requires Passing(done, None, port, entries)
    ensures done == entries
  {
    assert done + [] == done;
  }

  /** What the first pass has counted after reading `done`. */
  ghost predicate Counts(num: nat, max: int, port: int, was: int, entries: seq<Weighted>, done: seq<Weighted>) {
    num == |done| <= |entries| && max == Points(entries, num) && port == LastPort(done, was)
  }

  /** The first pass: how many entries there are, their weights together, and whether all that fits an `int`. `was` is
      what happens to be in the variable for the port, and `port` what it holds afterwards. */
  method CountEntries(spec: string, was: int) returns (num: nat, max: int, port: int, fits: bool)
    ensures var entries := Parse(spec, was);
      && num == |entries| && max == Total(entries) && port == LastPort(entries, was)
      && (fits <==> IntsUpTo(entries, |entries|))
  {
    hide ScanEntry, Parse, AfterComma, Passing, IntsUpTo, IsInt;
    ghost var entries := Parse(spec, was);
    ghost var done: seq<Weighted> := [];
    num, max, port, fits := 0, 0, was, true;
    var rest := Some(spec);
    PassBegins(spec, was);
    NoInts(entries);
    while rest.Some?
      invariant Passing(done, rest, port, entries)
      invariant Counts(num, max, port, was, entries, done)
      invariant num <= |entries| && (fits <==> IntsUpTo(entries, num))
      decreases if rest.Some? then |rest.value| + 1 else 0
    {
      PassOn(done, rest.value, port, entries);
      var e := ScanEntry(rest.value, port);
      if e.None? {
        return;
      }
      IntsNext(entries, num);
      num, max, port := num + 1, max + e.value.points, e.value.port;
      fits := fits && IsInt(port) && IsInt(e.value.points) && IsInt(max);
      done := done + [e.value];
      rest := AfterComma(rest.value);
    }
    PassEnds(done, port, entries);
  }

  /** The pairs and the sum after `n` entries. */
  ghost predicate Filled(data: seq<nat>, sum: int, entries: seq<Weighted>, n: nat) {
    n <= |entries| && sum == Points(entries, n) && |data| == 2 * n && PortPairs(data, entries, n)
  }

  lemma FilledNext(data: seq<nat>, sum: int, entries: seq<Weighted>, n: nat, e: Weighted)
    requires Filled(data, sum, entries, n) && n < |entries| && entries[n] == e
    ensures Filled(data + [Wrap32(e.port)] + [Wrap32(sum + e.points - 1)], sum + e.points, entries, n + 1)
  {
    hide PortPairs, Wrap32;
    PortPairsNext(data, entries, n);
  }

  /** The second pass: the pairs. */
  method FillPairs(spec: string, was: int) returns (data: seq<nat>)
    ensures var entries := Parse(spec, was);
      |data| == 2 * |entries| && PortPairs(data, entries, |entries|)
  {
    hide ScanEntry, Parse, AfterComma, Passing, Filled, Wrap32, PortPairs;
    ghost var entries := Parse(spec, was);
    ghost var done: seq<Weighted> := [];
    data := [];
    var sum, port, rest := 0, was, Some(spec);
    PassBegins(spec, was);
    FilledNone(entries);
    while rest.Some?
      invariant Passing(done, rest, port, entries)
      invariant Filled(data, sum, entries, |done|)
      decreases if rest.Some? then |rest.value| + 1 else 0
    {
      PassOn(done, rest.value, port, entries);
      var e := ScanEntry(rest.value, port);
      if e.None? {
        FilledAll(data, sum, entries);
        return;
      }
      FilledNext(data, sum, entries, |done|, e.value);
      sum, port := sum + e.value.points, e.value.port;
      data := data + [Wrap32(port)] + [Wrap32(sum - 1)];
      done := done + [e.value];
      rest := AfterComma(rest.value);
    }
    PassEnds(done, port, entries);
    FilledAll(data, sum, entries);
  }

  lemma FilledNone(entries: seq<Weighted>)
    ensures Filled([], 0, entries, 0)
  {
  }

  lemma FilledAll(data: seq<nat>, sum: int, entries: seq<Weighted>)
    requires Filled(data, sum, entries, |entries|)
    ensures |data| == 2 * |entries| && PortPairs(data, entries, |entries|)
  {
  }

  /** The table the scanner builds from a portspec, in two passes over it; none when an `int` overflows, where C says
      nothing of what happens. `was` is whatever the variable for the port held before; it stands in for the port of a
      portspec that is blank. */
  method MakePortRanges(spec: string, was: int) returns (cfg: Option<RangeCfg>)
    ensures cfg.Some? <==> FitsInt(Parse(spec, was))
    ensures cfg.Some? ==> EncodesPorts(cfg.value, Parse(spec, was)) && cfg.value.mask < 0x4000_0000
  {
    hide LeastMask, PortPairs, IntsUpTo, Parse;
    var num, max, port, fits := CountEntries(spec, was);
    var mask := IntBinmask(max);
    if !fits || mask.None? {
      return None;
    }
    var data := FillPairs(spec, port);
    ParseAgain(spec, was);
    cfg := Some(RangeCfg(num, Wrap32(max - 1), mask.value, data));
  }

  /** There is one table for a list of entries. */
  lemma SameTable(a: RangeCfg, b: RangeCfg, entries: seq<Weighted>)
    requires EncodesPorts(a, entries) && EncodesPorts(b, entries)
    ensures a == b
  {
    hide Wrap32;
    LeastMaskUnique(a.mask, b.mask, Total(entries));
    forall k | 0 <= k < |a.ranges| ensures a.ranges[k] == b.ranges[k] {
      PortPairAt(a.ranges, entries, k / 2);
      PortPairAt(b.ranges, entries, k / 2);
    }
  }

  /** From a printed portspec the scanner and the table compiler make the same table, where both make one; where the
      scanner does, the compiler does if and only if the first weight is positive. */
  method BothTables(es: seq<Entry>, was: int) returns (built: Option<RangeCfg>, compiled: Option<RangeCfg>)
    requires es != []
    ensures built.Some? <==> FitsInt(Meaning(es))
    ensures built.Some? ==> EncodesPorts(built.value, Meaning(es))
    ensures built.Some? && compiled.Some? ==> compiled == built
    ensures built.Some? ==> (compiled.Some? <==> WeightOf(es[0]) > 0)
  {
    hide FitsInt, EncodesPorts, Packable;
    BothRead(es, was);
    built := MakePortRanges(Print(es), was);
    compiled := CompilePorts(Print(es));
    if built.Some? {
      PrintedPackable(es);
      if compiled.Some? {
        SameTable(built.value, compiled.value, Meaning(es));
      }
    }
  }

  lemma PrintedPackable(es: seq<Entry>)
    requires es != [] && FitsInt(Meaning(es))
    ensures Packable(Meaning(es)) <==> WeightOf(es[0]) > 0
  {
    var entries := Meaning(es);
    assert entries[0].points == WeightOf(es[0]);
    assert NoneNegative(entries);
    hide IntsUpTo;
    forall i: nat | i < |entries| ensures 0 <= entries[i].port < WORD {
      IntAt(entries, i);
    }
    hide Meaning;
    FirstPacks(entries);
  }

  lemma FirstPacks(entries: seq<Weighted>)
    requires entries != [] && NoneNegative(entries) && Total(entries) <= WORD
    requires forall i :: 0 <= i < |entries| ==> 0 <= entries[i].port < WORD
    ensures Packable(entries) <==> entries[0].points > 0
  {
    assert Points(entries, 1) == entries[0].points;
    forall i | 0 <= i < |entries|
      ensures entries[i].port >= 0 && entries[0].points <= Points(entries, i + 1) <= Total(entries)
    {
      PointsGrow(entries, 1, i + 1);
      PointsGrow(entries, i + 1, |entries|);
    }
    if Packable(entries) {
      assert entries[0].port < WORD && 1 <= Points(entries, 0 + 1);
    }
  }

  lemma IntAt(entries: seq<Weighted>, i: nat)
    requires i < |entries| && IntsUpTo(entries, |entries|)
    ensures IntsAt(entries, i)
  {
  }

  // ----- choosing

  /** The first entry from `i` on whose count reaches r. */
  function Choice(cfg: RangeCfg, i: nat, r: nat): int
    requires |cfg.ranges| >= 2 * cfg.num
    decreases cfg.num - i
  {
    if i >= cfg.num then -1 else if r <= cfg.ranges[2 * i + 1] then i else Choice(cfg, i + 1, r)
  }

  /** The port of the entry chosen by r, or -1. */
  method RandomPort(cfg: RangeCfg, r: nat) returns (port: int)
    requires |cfg.ranges| >= 2 * cfg.num
    ensures var i := Choice(cfg, 0, r);
      if i < 0 then port == -1 else i < cfg.num && port == cfg.ranges[2 * i]
  {
    var idx := 0;
    while idx < cfg.num
      invariant idx <= cfg.num && Choice(cfg, 0, r) == Choice(cfg, idx, r)
    {
      if r <= cfg.ranges[2 * idx + 1] {
        return cfg.ranges[2 * idx];
      }
      idx := idx + 1;
    }
    return -1;
  }

  /** With no weight negative and the first positive, entry i is chosen exactly when r falls in its share of the
      points. */
  lemma {:induction false} ChoiceShare(cfg: RangeCfg, entries: seq<Weighted>, from: nat, r: nat, i: nat)
    requires EncodesPorts(cfg, entries) && Weighs(entries) && entries[0].points > 0
    requires from <= i < |entries| && Points(entries, from) <= r <= cfg.maxIdx
    ensures Choice(cfg, from, r) == i <==> Points(entries, i) <= r < Points(entries, i + 1)
    decreases |entries| - from
  {
    hide LeastMask, PortPairs, Wrap32;
    PortPairAt(cfg.ranges, entries, from);
    PointsGrow(entries, 1, from + 1);
    PointsGrow(entries, from + 1, |entries|);
    assert cfg.ranges[2 * from + 1] == Points(entries, from + 1) - 1;
    if r <= cfg.ranges[2 * from + 1] {
      if i > from { PointsGrow(entries, from + 1, i); }
    } else if i > from {
      ChoiceShare(cfg, entries, from + 1, r, i);
    } else {
      ChoiceFrom(cfg, from + 1, r);
    }
  }

  /** There are entries, none with a negative weight, and their weights together are not 0 and fit a word. */
  predicate Weighs(entries: seq<Weighted>) {
    entries != [] && NoneNegative(entries) && 1 <= Total(entries) <= WORD
  }

  lemma {:induction false} ChoiceFrom(cfg: RangeCfg, from: nat, r: nat)
    requires |cfg.ranges| >= 2 * cfg.num
    ensures Choice(cfg, from, r) == -1 || from <= Choice(cfg, from, r) < cfg.num
    decreases cfg.num - from
  {
    if from < cfg.num {
      ChoiceFrom(cfg, from + 1, r);
    }
  }

  /** The draws, of those `gen_rand32` can make, that choose entry i. */
  ghost function Draws(cfg: RangeCfg, i: int): set<nat>
    requires |cfg.ranges| >= 2 * cfg.num
  {
    set r: nat | r <= cfg.maxIdx && Choice(cfg, 0, r) == i
  }

  predicate Within(a: int, r: nat, b: int) { a <= r < b }

  function Interval(a: nat, b: nat): set<nat> { set r: nat | r < b && Within(a, r, b) }

  lemma {:induction false} IntervalCount(a: nat, b: nat)
    requires a <= b
    ensures |Interval(a, b)| == b - a
    decreases b
  {
    if a < b {
      IntervalCount(a, b - 1);
      assert Interval(a, b) == Interval(a, b - 1) + {b - 1};
    } else {
      assert Interval(a, b) == {};
    }
  }

  lemma ShareBounds(entries: seq<Weighted>, i: nat)
    requires Weighs(entries) && i < |entries|
    ensures 0 <= Points(entries, i) <= Points(entries, i + 1) <= Total(entries)
  {
    PointsGrow(entries, 0, i);
    PointsGrow(entries, i, i + 1);
    PointsGrow(entries, i + 1, |entries|);
  }

  lemma ShareCount(cfg: RangeCfg, entries: seq<Weighted>, i: nat)
    requires EncodesPorts(cfg, entries) && Weighs(entries) && i < |entries| && entries[0].points > 0
    ensures |Draws(cfg, i)| == entries[i].points
  {
    hide LeastMask, PortPairs;
    ShareBounds(entries, i);
    var S := Interval(Points(entries, i), Points(entries, i + 1));
    forall r: nat ensures r in Draws(cfg, i) <==> r in S {
      if r <= cfg.maxIdx { ChoiceShare(cfg, entries, 0, r, i); }
    }
    assert Draws(cfg, i) == S;
    IntervalCount(Points(entries, i), Points(entries, i + 1));
  }

  /** A first weight of zero wraps round to the largest word, and takes every draw. */
  lemma ZeroFirst(cfg: RangeCfg, entries: seq<Weighted>)
    requires EncodesPorts(cfg, entries) && Weighs(entries) && entries[0].points == 0
    ensures |Draws(cfg, 0)| == Total(entries)
  {
    PortPairAt(cfg.ranges, entries, 0);
    assert Points(entries, 1) == 0;
    assert Wrap32(-1) == WORD - 1;
    var n := Total(entries);
    assert Draws(cfg, 0) == Interval(0, n);
    IntervalCount(0, n);
  }

  /** Every entry is chosen by exactly as many draws as its weight if and only if no weight is negative and the
      first is positive; zero weights further on are harmless. */
  lemma WeightsExact(cfg: RangeCfg, entries: seq<Weighted>)
    requires EncodesPorts(cfg, entries) && entries != [] && 1 <= Total(entries) <= WORD
    ensures (forall i :: 0 <= i < |entries| ==> |Draws(cfg, i)| == entries[i].points)
      <==> NoneNegative(entries) && entries[0].points > 0
  {
    hide LeastMask, PortPairs, Wrap32, Draws;
    if NoneNegative(entries) {
      if entries[0].points > 0 {
        forall i | 0 <= i < |entries| ensures |Draws(cfg, i)| == entries[i].points {
          ShareCount(cfg, entries, i);
        }
      } else {
        ZeroFirst(cfg, entries);
      }
    }
  }

  // ----- word by word

  /** The 32-bit words that are accepted and choose entry i. */
  ghost function WordsForEntry(cfg: RangeCfg, i: int): set<nat>
    requires |cfg.ranges| >= 2 * cfg.num
  {
    set w: nat | w < WORD && Chooses(cfg, w, i)
  }

  ghost predicate Chooses(cfg: RangeCfg, w: nat, i: int)
    requires |cfg.ranges| >= 2 * cfg.num
  {
    And(w, cfg.mask) <= cfg.maxIdx && Choice(cfg, 0, And(w, cfg.mask)) == i
  }

  /** A random port: that of the entry which the first word accepted chooses, or the largest word where the random
      device cannot be opened. */
  method DrawPort(cfg: RangeCfg, device: Option<seq<nat>>) returns (port: int, found: bool)
    requires |cfg.ranges| >= 2 * cfg.num
    ensures device.Some? ==>
      var words := device.value;
      var k := FirstAccepted(words, cfg.mask, cfg.maxIdx);
      && (found <==> k >= 0)
      && (found ==> k < |words| && Choice(cfg, 0, And(words[k], cfg.mask)) < cfg.num
                    && Chooses(cfg, words[k], Choice(cfg, 0, And(words[k], cfg.mask)))
                    && port == PortOf(cfg, Choice(cfg, 0, And(words[k], cfg.mask))))
    ensures device.None? ==>
      found && Choice(cfg, 0, WORD - 1) < cfg.num && port == PortOf(cfg, Choice(cfg, 0, WORD - 1))
  {
    hide And, FirstAccepted;
    var r;
    port := -1;
    r, found := GenRand32(device, cfg.mask, cfg.maxIdx);
    if found {
      port := RandomPort(cfg, AsUnsigned(r));
      ChoiceFrom(cfg, 0, AsUnsigned(r));
    }
  }

  function PortOf(cfg: RangeCfg, i: int): int
    requires i < cfg.num && |cfg.ranges| >= 2 * cfg.num
  {
    if i < 0 then -1 else cfg.ranges[2 * i]
  }

  lemma {:induction false} ChoiceNone(cfg: RangeCfg, from: nat, r: nat)
    requires |cfg.ranges| >= 2 * cfg.num && from <= cfg.num
    ensures Choice(cfg, from, r) == -1 <==> forall i :: from <= i < cfg.num ==> cfg.ranges[2 * i + 1] < r
    decreases cfg.num - from
  {
    if from < cfg.num {
      ChoiceNone(cfg, from + 1, r);
    }
  }

  /** Without the random device there is no port, unless the first weight is 0 or the weights together are 2^32. */
  lemma NoDeviceNoPort(cfg: RangeCfg, entries: seq<Weighted>)
    requires EncodesPorts(cfg, entries) && Weighs(entries)
    ensures Choice(cfg, 0, WORD - 1) == -1 <==> entries[0].points > 0 && Total(entries) < WORD
  {
    hide LeastMask, PortPairs;
    ChoiceNone(cfg, 0, WORD - 1);
    var last := |entries| - 1;
    forall i: nat | i < |entries| ensures cfg.ranges[2 * i + 1] == Wrap32(Points(entries, i + 1) - 1) {
      PortPairAt(cfg.ranges, entries, i);
    }
    if entries[0].points == 0 {
      assert Points(entries, 1) == 0;
      assert cfg.ranges[2 * 0 + 1] == WORD - 1;
    } else if Total(entries) == WORD {
      assert cfg.ranges[2 * last + 1] == WORD - 1;
    } else {
      forall i: nat | i < |entries| ensures cfg.ranges[2 * i + 1] < WORD - 1 {
        PointsGrow(entries, 1, i + 1);
        PointsGrow(entries, i + 1, |entries|);
        assert Points(entries, 1) == entries[0].points;
      }
    }
  }

  /** The words that choose entry i are in proportion to its weight: of all 2^32 words, its weight times as many as
      there are words for each value the mask leaves. */
  lemma WordsExact(cfg: RangeCfg, entries: seq<Weighted>, i: nat)
    requires EncodesPorts(cfg, entries) && Weighs(entries) && i < |entries| && entries[0].points > 0
    ensures |WordsForEntry(cfg, i)| * (cfg.mask + 1) == entries[i].points * WORD
  {
    hide Pow2, PortPairs, And;
    var k: nat :| cfg.mask == Pow2(k) - 1 && Total(entries) <= Pow2(k) && (k == 0 || Pow2(k - 1) < Total(entries));
    hide LeastMask;
    WidthBound(k, Total(entries));
    ShareBounds(entries, i);
    var m, n := Pow2(k), Pow2(32 - k);
    var a: nat, b: nat := Points(entries, i), Points(entries, i + 1);
    forall w: nat ensures Chooses(cfg, w, i) <==> Within(a, w % m, b) {
      AndMask(w, k);
      if w % m <= cfg.maxIdx { ChoiceShare(cfg, entries, 0, w % m, i); }
    }
    WordsBetween(cfg, i, n, m, a, b);
    assert b - a == entries[i].points;
  }

  lemma WordsBetween(cfg: RangeCfg, i: nat, n: nat, m: nat, a: nat, b: nat)
    requires |cfg.ranges| >= 2 * cfg.num && 0 < m && a <= b <= m && m * n == WORD
    requires forall w: nat :: Chooses(cfg, w, i) <==> Within(a, w % m, b)
    ensures |WordsForEntry(cfg, i)| * m == (b - a) * WORD
  {
    Commutes(n, m);
    WordsSet(cfg, i, m, a, b);
    hide Chooses, Below, WordsForEntry;
    BelowBetween(n, m, a, b);
    Regroup(n, b - a, m);
  }

  lemma Commutes(a: int, b: int)
    ensures a * b == b * a
  {
  }

  lemma Regroup(n: int, d: int, m: int)
    ensures (n * d) * m == d * (m * n)
  {
  }

  lemma WordsSet(cfg: RangeCfg, i: nat, m: nat, a: nat, b: nat)
    requires |cfg.ranges| >= 2 * cfg.num && 0 < m && a <= b
    requires forall w: nat :: Chooses(cfg, w, i) <==> Within(a, w % m, b)
    ensures WordsForEntry(cfg, i) == Below(WORD, m, b) - Below(WORD, m, a)
  {
    hide Chooses;
  }

  lemma BelowBetween(n: nat, m: nat, a: nat, b: nat)
    requires 0 < m && a <= b <= m
    ensures |Below(n * m, m, b) - Below(n * m, m, a)| == n * (b - a)
  {
    CountBelow(n, m, a);
    CountBelow(n, m, b);
    var big, small := Below(n * m, m, b), Below(n * m, m, a);
    BelowGrows(n * m, m, a, b);
    hide Below;
    assert |big - small| == |big| - |small| by {
      assert big == (big - small) + small;
    }
    assert n * b - n * a == n * (b - a);
  }

  lemma BelowGrows(bound: nat, m: nat, a: nat, b: nat)
    requires 0 < m && a <= b
    ensures Below(bound, m, a) <= Below(bound, m, b)
  {
  }

  /** Whatever the weights, a draw always finds an entry. */
  lemma {:induction false} AlwaysChooses(cfg: RangeCfg, entries: seq<Weighted>, from: nat, r: nat)
    requires EncodesPorts(cfg, entries) && entries != [] && r <= cfg.maxIdx && from < |entries|
    ensures from <= Choice(cfg, from, r) < |entries|
    decreases |entries| - from
  {
    hide LeastMask, PortPairs, Wrap32;
    PortPairAt(cfg.ranges, entries, from);
    if r > cfg.ranges[2 * from + 1] {
      if from + 1 < |entries| {
        AlwaysChooses(cfg, entries, from + 1, r);
      }
    }
  }
}
