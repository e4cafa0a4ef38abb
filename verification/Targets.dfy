/** Target tables and the choice of a random target: the encoder, the binary search, the weighted port choice,
    and rejection sampling. */
module Targets {
  import opened Bytes
  import opened Counting

  const WORD: nat := 0x1_0000_0000

  /** Addresses from `first` to `last`, both included. */
  datatype Span = Span(first: nat, last: nat)

  /** The table the C program works on: `ranges` holds pairs, for addresses (end, addresses so far - 1), for ports
      (port, points so far - 1). */
  datatype RangeCfg = RangeCfg(num: nat, maxIdx: nat, mask: nat, ranges: seq<nat>)

  // ----- what is to be chosen from

  function SpanAddresses(s: Span): seq<nat>
    requires s.first <= s.last
  {
    seq(s.last - s.first + 1, k requires 0 <= k => s.first + k)
  }

  predicate Ordered(spans: seq<Span>) {
    forall i :: 0 <= i < |spans| ==> spans[i].first <= spans[i].last
  }

  /** What merging leaves: at least one span, all within 32 bits, in order and apart. */
  predicate Merged(spans: seq<Span>) {
    && spans != [] && Ordered(spans)
    && (forall i :: 0 <= i < |spans| ==> spans[i].last < WORD)
    && (forall i, j :: 0 <= i < j < |spans| ==> spans[i].last < spans[j].first)
  }

  /** All the addresses, span by span. */
  function Addresses(spans: seq<Span>): seq<nat>
    requires Ordered(spans)
  {
    if spans == [] then [] else Addresses(spans[..|spans| - 1]) + SpanAddresses(spans[|spans| - 1])
  }

  /** How many addresses the first `i` spans hold. */
  function SoFar(spans: seq<Span>, i: nat): nat
    requires i <= |spans| && Ordered(spans)
  {
    if i == 0 then 0 else SoFar(spans, i - 1) + (spans[i - 1].last - spans[i - 1].first + 1)
  }

  lemma {:induction false} AddressesAt(spans: seq<Span>, i: nat, r: nat)
    requires Ordered(spans) && i < |spans| && SoFar(spans, i) <= r < SoFar(spans, i + 1)
    ensures |Addresses(spans)| == SoFar(spans, |spans|)
    ensures r < |Addresses(spans)| && Addresses(spans)[r] == spans[i].first + (r - SoFar(spans, i))
  {
    AddressCount(spans);
    var n := |spans| - 1;
    AddressCount(spans[..n]);
    SoFarPrefix(spans, n, n);
    if i < n {
      SoFarPrefix(spans, n, i);
      SoFarPrefix(spans, n, i + 1);
      AddressesAt(spans[..n], i, r);
    }
  }

  lemma {:induction false} SoFarPrefix(spans: seq<Span>, n: nat, i: nat)
    requires Ordered(spans) && i <= n <= |spans|
    ensures SoFar(spans[..n], i) == SoFar(spans, i)
  {
    if i > 0 {
      SoFarPrefix(spans, n, i - 1);
    }
  }

  lemma {:induction false} AddressCount(spans: seq<Span>)
    requires Ordered(spans)
    ensures |Addresses(spans)| == SoFar(spans, |spans|)
  {
    if spans != [] {
      var n := |spans| - 1;
      AddressCount(spans[..n]);
      SoFarPrefix(spans, n, n);
    }
  }

  lemma {:induction false} SoFarGrows(spans: seq<Span>, i: nat, j: nat)
    requires Ordered(spans) && i <= j <= |spans|
    ensures SoFar(spans, i) + (j - i) <= SoFar(spans, j)
    decreases j
  {
    if i < j {
      SoFarGrows(spans, i, j - 1);
    }
  }

  /** Which span holds the r-th address. */
  lemma {:induction false} SpanOf(spans: seq<Span>, n: nat, r: nat) returns (i: nat)
    requires Ordered(spans) && n <= |spans| && r < SoFar(spans, n)
    ensures i < n && SoFar(spans, i) <= r < SoFar(spans, i + 1)
  {
    if r >= SoFar(spans, n - 1) {
      i := n - 1;
    } else {
      i := SpanOf(spans, n - 1, r);
    }
  }

  /** Merged spans never hold more addresses than there are up to their end, so ends minus counts do not wrap. */
  lemma {:induction false} SoFarBelowEnd(spans: seq<Span>, i: nat)
    requires Merged(spans) && i < |spans|
    ensures SoFar(spans, i + 1) <= spans[i].last + 1
  {
    if i > 0 {
      SoFarBelowEnd(spans, i - 1);
      assert spans[i - 1].last < spans[i].first;
    }
  }

  lemma SoFarNext(spans: seq<Span>, i: nat)
    requires Ordered(spans) && i < |spans|
    ensures SoFar(spans, i + 1) == SoFar(spans, i) + (spans[i].last - spans[i].first + 1)
  {
  }

  lemma SpansInOrder(spans: seq<Span>, i: nat, j: nat, r: nat, r': nat)
    requires Ordered(spans) && i < |spans| && j < |spans| && r <= r'
    requires SoFar(spans, i) <= r && r' < SoFar(spans, j + 1)
    ensures i <= j
  {
    if j < i {
      SoFarGrows(spans, j + 1, i);
    }
  }

  /** No address comes twice, and the addresses are those in the spans. */
  lemma AddressesIncrease(spans: seq<Span>, r: nat, r': nat)
    requires Merged(spans) && r < r' < |Addresses(spans)|
    ensures Addresses(spans)[r] < Addresses(spans)[r']
  {
    hide SoFar, Addresses;
    AddressCount(spans);
    var i := SpanOf(spans, |spans|, r);
    var j := SpanOf(spans, |spans|, r');
    SpansInOrder(spans, i, j, r, r');
    SoFarNext(spans, i);
    SoFarNext(spans, j);
    AddressesAt(spans, i, r);
    AddressesAt(spans, j, r');
    assert i < j ==> spans[i].last < spans[j].first;
  }

  predicate InSpans(spans: seq<Span>, a: nat) {
    exists i :: 0 <= i < |spans| && spans[i].first <= a <= spans[i].last
  }

  lemma AddressesMembers(spans: seq<Span>, a: nat)
    requires Ordered(spans)
    ensures InSpans(spans, a) <==> exists r :: 0 <= r < |Addresses(spans)| && Addresses(spans)[r] == a
  {
    AddressCount(spans);
    if InSpans(spans, a) {
      var i :| 0 <= i < |spans| && spans[i].first <= a <= spans[i].last;
      var r := SoFar(spans, i) + (a - spans[i].first);
      AddressesAt(spans, i, r);
    }
    if exists r :: 0 <= r < |Addresses(spans)| && Addresses(spans)[r] == a {
      var r: nat :| r < |Addresses(spans)| && Addresses(spans)[r] == a;
      var i := SpanOf(spans, |spans|, r);
      AddressesAt(spans, i, r);
    }
  }

  // ----- the encoder

  /** The least mask that covers `n` choices: one less than the least power of two that is at least n, which for no
      choices, or fewer, is 1. */
  ghost predicate LeastMask(mask: nat, n: int) {
    exists k: nat :: mask == Pow2(k) - 1 && n <= Pow2(k) && (k == 0 || Pow2(k - 1) < n)
  }

  lemma LeastMaskUnique(mask: nat, mask': nat, n: int)
    requires LeastMask(mask, n) && LeastMask(mask', n)
    ensures mask == mask'
  {
    var k: nat :| mask == Pow2(k) - 1 && n <= Pow2(k) && (k == 0 || Pow2(k - 1) < n);
    var k': nat :| mask' == Pow2(k') - 1 && n <= Pow2(k') && (k' == 0 || Pow2(k' - 1) < n);
    hide Pow2;
    if k < k' { Pow2Grows(k, k' - 1); }
    if k' < k { Pow2Grows(k', k - 1); }
  }

  /** Doubles a mask until it reaches `n`. More than half of the masked words are then accepted. */
  method GetBinmask(n: int) returns (mask: nat)
    ensures LeastMask(mask, n)
    ensures n >= 1 ==> n <= mask + 1 < 2 * n
  {
    mask := 1;
    ghost var k := 0;
    while mask < n
      invariant mask == Pow2(k) && (k == 0 || Pow2(k - 1) < n)
      decreases n - mask
    {
      mask := mask * 2;
      k := k + 1;
    }
    mask := mask - 1;
  }

  /** `cfg` is the table of these spans. */
  ghost predicate Encodes(cfg: RangeCfg, spans: seq<Span>)
    requires Ordered(spans)
  {
    && cfg.num == |spans| && |cfg.ranges| == 2 * |spans|
    && SoFar(spans, |spans|) >= 1 && cfg.maxIdx == SoFar(spans, |spans|) - 1
    && LeastMask(cfg.mask, SoFar(spans, |spans|))
    && RangePairs(cfg.ranges, spans, |spans|)
  }

  /** The pair of span i: its end, and the addresses so far less one. */
  ghost predicate RangePair(data: seq<nat>, spans: seq<Span>, i: nat)
    requires Ordered(spans) && i < |spans| && |data| >= 2 * i + 2
  {
    data[2 * i] == spans[i].last && data[2 * i + 1] == SoFar(spans, i + 1) - 1
  }

  ghost predicate RangePairs(data: seq<nat>, spans: seq<Span>, n: nat)
    requires Ordered(spans) && n <= |spans| && |data| >= 2 * n
  {
    forall i :: 0 <= i < n ==> RangePair(data, spans, i)
  }

  lemma RangePairsNext(data: seq<nat>, spans: seq<Span>, i: nat)
    requires Ordered(spans) && i < |spans| && |data| == 2 * i && RangePairs(data, spans, i) && SoFar(spans, i + 1) >= 1
    ensures RangePairs(data + [spans[i].last] + [SoFar(spans, i + 1) - 1], spans, i + 1)
  {
    var data' := data + [spans[i].last] + [SoFar(spans, i + 1) - 1];
    forall k | 0 <= k < i + 1 ensures RangePair(data', spans, k) {
      if k < i {
        assert RangePair(data, spans, k);
        assert data'[2 * k] == data[2 * k] && data'[2 * k + 1] == data[2 * k + 1];
      }
    }
  }

  /** The table compiler's loop over the merged ranges. */
  method CompileRanges(spans: seq<Span>) returns (cfg: RangeCfg)
    requires Merged(spans)
    ensures Encodes(cfg, spans)
    ensures cfg.maxIdx < WORD && forall i :: 0 <= i < |cfg.ranges| ==> cfg.ranges[i] < WORD
  {
    var total, data: seq<nat> := 0, [];
    var i := 0;
    while i < |spans|
      invariant 0 <= i <= |spans|
      invariant total == SoFar(spans, i) && |data| == 2 * i
      invariant RangePairs(data, spans, i)
      invariant forall k :: 0 <= k < |data| ==> data[k] < WORD
    {
      var s := spans[i];
      total := total + (s.last - s.first + 1);
      SoFarBelowEnd(spans, i);
      RangePairsNext(data, spans, i);
      data := data + [s.last] + [total - 1];
      i := i + 1;
    }
    SoFarBelowEnd(spans, |spans| - 1);
    SoFarGrows(spans, 0, |spans|);
    var mask := GetBinmask(total);
    cfg := RangeCfg(|spans|, total - 1, mask, data);
  }

  // ----- choosing

  /** Unsigned 32-bit subtraction and addition. */
  function Sub32(a: nat, b: nat): nat
    requires a < WORD && b < WORD
  {
    if a >= b then a - b else a + WORD - b
  }

  function Add32(a: nat, b: nat): nat
    requires a < WORD && b < WORD
  {
    if a + b < WORD then a + b else a + b - WORD
  }

  /** The binary search for the first pair whose count reaches r, which ends by one of its exits or by running out. It
      stays `inside` the table if and only if there is such a pair; otherwise it goes on to read the pair behind the
      last one, and nothing is done here. */
  method FindPair(cfg: RangeCfg, r: nat, ghost spans: seq<Span>) returns (idx: nat, val: nat, inside: bool)
    requires Ordered(spans) && Encodes(cfg, spans)
    ensures inside <==> r <= cfg.maxIdx
    ensures inside ==>
      idx < cfg.num && SoFar(spans, idx) <= r <= val == SoFar(spans, idx + 1) - 1 == cfg.ranges[2 * idx + 1]
    ensures !inside ==> idx == cfg.num
  {
    hide SoFar, LeastMask;
    assert SoFar(spans, 0) == 0 by { SoFarNone(spans); }
    var start, end := 0, cfg.num;
    idx, val := 0, 0;
    while start != end
      invariant 0 <= start <= end <= cfg.num
      invariant SoFar(spans, start) <= r
      invariant end < cfg.num ==> r < SoFar(spans, end + 1) - 1
      invariant start == end ==> idx == end < cfg.num && val == SoFar(spans, idx + 1) - 1
      decreases end - start
    {
      idx := (end + start) / 2;
      SoFarNext(spans, idx);
      SoFarGrows(spans, idx + 1, |spans|);
      RangePairAt(cfg.ranges, spans, idx);
      val := cfg.ranges[2 * idx + 1];
      if val == r {
        return idx, val, true;
      }
      if val < r {
        if idx == end - 1 {
          idx := idx + 1;
          if idx == cfg.num {
            return idx, val, false;
          }
          RangePairAt(cfg.ranges, spans, idx);
          SoFarGrows(spans, idx + 1, |spans|);
          val := cfg.ranges[2 * idx + 1];
          return idx, val, true;
        }
        start := idx + 1;
      } else {
        end := idx;
      }
    }
    RangePairAt(cfg.ranges, spans, idx);
    SoFarGrows(spans, idx + 1, |spans|);
    inside := true;
  }

  lemma SoFarNone(spans: seq<Span>)
    requires Ordered(spans)
    ensures SoFar(spans, 0) == 0
  {
  }

  lemma RangePairAt(data: seq<nat>, spans: seq<Span>, i: nat)
    requires Ordered(spans) && i < |spans| && |data| >= 2 * |spans| && RangePairs(data, spans, |spans|)
    ensures data[2 * i] == spans[i].last && data[2 * i + 1] == SoFar(spans, i + 1) - 1
  {
    assert RangePair(data, spans, i);
  }

  /** The r-th address, found by binary search; the unsigned arithmetic does not wrap. */
  method RandomIp(cfg: RangeCfg, r: nat, ghost spans: seq<Span>) returns (ip: nat, inside: bool)
    requires Merged(spans) && Encodes(cfg, spans)
    ensures inside <==> r <= cfg.maxIdx
    ensures inside ==> r < |Addresses(spans)| && ip == Addresses(spans)[r]
  {
    hide LeastMask, Addresses;
    ip := 0;
    var idx, val;
    idx, val, inside := FindPair(cfg, r, spans);
    if inside {
      AddressesAt(spans, idx, r);
      SoFarBelowEnd(spans, idx);
      RangePairAt(cfg.ranges, spans, idx);
      ip := Add32(Sub32(cfg.ranges[2 * idx], val), r);
      assert cfg.ranges[2 * idx] >= val && cfg.ranges[2 * idx] - val + r < WORD;
    }
  }

  /** The index of the first word that masking brings to at most `max`, if there is one. */
  function FirstAccepted(words: seq<nat>, mask: nat, max: nat): int {
    if words == [] then -1
    else if And(words[0], mask) <= max then 0
    else
      var i := FirstAccepted(words[1..], mask, max);
      if i < 0 then -1 else i + 1
  }

  /** Rejection sampling on the words read from the random device, or -1 where that cannot be opened. `found` is false
      when the words run out first. */
  method GenRand32(device: Option<seq<nat>>, mask: nat, max: nat) returns (ret: int, found: bool)
    ensures device.None? ==> found && ret == -1
    ensures device.Some? ==>
      var i := FirstAccepted(device.value, mask, max);
      && (found <==> i >= 0)
      && (found ==> i < |device.value| && ret == And(device.value[i], mask) <= max
                    && forall k :: 0 <= k < i ==> And(device.value[k], mask) > max)
  {
    if device.None? {
      return -1, true;
    }
    var words := device.value;
    ret := 0;
    var i := 0;
    assert words[0..] == words;
    while i < |words|
      invariant i <= |words|
      invariant forall k :: 0 <= k < i ==> And(words[k], mask) > max
      invariant var f := FirstAccepted(words[i..], mask, max);
        FirstAccepted(words, mask, max) == if f < 0 then -1 else f + i
    {
      assert words[i..][1..] == words[i + 1..];
      ret := And(words[i], mask);
      if ret <= max {
        return ret, true;
      }
      i := i + 1;
    }
    return ret, false;
  }

  /** As the callers take it: -1 becomes the largest word. */
  function AsUnsigned(ret: int): nat
    requires ret >= -1
  {
    if ret == -1 then WORD - 1 else ret
  }

  /** A random address: that of the first word accepted. Without the random device the search leaves the table, but for
      the one of all addresses, where it gives the last. */
  method DrawIp(cfg: RangeCfg, device: Option<seq<nat>>, ghost spans: seq<Span>)
    returns (ip: nat, found: bool, inside: bool)
    requires Merged(spans) && Encodes(cfg, spans)
    ensures device.Some? ==>
      var i := FirstAccepted(device.value, cfg.mask, cfg.maxIdx);
      && (found <==> i >= 0)
      && (found ==> inside && i < |device.value| && Drawn(cfg, Addresses(spans), device.value[i], ip))
    ensures device.None? ==> found && (inside <==> cfg.maxIdx == WORD - 1)
    ensures device.None? && inside ==> WORD - 1 < |Addresses(spans)| && ip == Addresses(spans)[WORD - 1]
  {
    hide LeastMask, Addresses, Encodes, And, FirstAccepted;
    var r;
    ip, inside := 0, true;
    r, found := GenRand32(device, cfg.mask, cfg.maxIdx);
    if found {
      TableFits(cfg, spans);
      ip, inside := RandomIp(cfg, AsUnsigned(r), spans);
    }
  }

  /** A table has at most 2^32 addresses. */
  lemma TableFits(cfg: RangeCfg, spans: seq<Span>)
    requires Merged(spans) && Encodes(cfg, spans)
    ensures cfg.maxIdx < WORD
  {
    hide LeastMask, SoFar;
    SoFarBelowEnd(spans, |spans| - 1);
  }

  /** The 32-bit words that come out as address `a`. */
  ghost function WordsFor(cfg: RangeCfg, addresses: seq<nat>, a: nat): set<nat> {
    set w: nat | w < WORD && Drawn(cfg, addresses, w, a)
  }

  /** The word is accepted and stands for address `a`. */
  ghost predicate Drawn(cfg: RangeCfg, addresses: seq<nat>, w: nat, a: nat) {
    var r := And(w, cfg.mask);
    r <= cfg.maxIdx && r < |addresses| && addresses[r] == a
  }

  /** The 32-bit words that are not rejected. */
  ghost function Accepted(cfg: RangeCfg): set<nat> {
    set w: nat | w < WORD && And(w, cfg.mask) <= cfg.maxIdx
  }

  lemma WidthBound(k: nat, n: nat)
    requires k == 0 || Pow2(k - 1) < n
    requires 1 <= n <= WORD
    ensures k <= 32 && Pow2(k) < 2 * n && Pow2(k) * Pow2(32 - k) == WORD
  {
    Pow2Of32();
    if k > 32 {
      Pow2Grows(32, k - 1);
    }
    Pow2Sum(k, 32 - k);
    assert k + (32 - k) == 32;
  }

  /** The mask has at most 32 bits, and covers less than twice the addresses. */
  lemma MaskWidth(cfg: RangeCfg, spans: seq<Span>) returns (k: nat)
    requires Merged(spans) && Encodes(cfg, spans)
    ensures k <= 32 && cfg.mask == Pow2(k) - 1 && cfg.maxIdx < Pow2(k) && Pow2(k) * Pow2(32 - k) == WORD
    ensures Pow2(k) < 2 * (cfg.maxIdx + 1) && cfg.maxIdx + 1 == |Addresses(spans)|
  {
    hide SoFar, Addresses, RangePairs, Pow2;
    AddressCount(spans);
    SoFarBelowEnd(spans, |spans| - 1);
    k :| cfg.mask == Pow2(k) - 1 && cfg.maxIdx + 1 <= Pow2(k) && (k == 0 || Pow2(k - 1) < cfg.maxIdx + 1);
    WidthBound(k, cfg.maxIdx + 1);
  }

  lemma OnlyDraw(spans: seq<Span>, r: nat)
    requires Merged(spans) && r < |Addresses(spans)|
    ensures forall r': nat :: r' < |Addresses(spans)| && Addresses(spans)[r'] == Addresses(spans)[r] ==> r' == r
  {
    hide Addresses;
    forall r': nat | r' < |Addresses(spans)| && Addresses(spans)[r'] == Addresses(spans)[r] ensures r' == r {
      if r' < r { AddressesIncrease(spans, r', r); }
      if r < r' { AddressesIncrease(spans, r, r'); }
    }
  }

  /** If draw r alone gives address `a`, the words for `a` are those that leave r. */
  lemma WordsOfDraw(cfg: RangeCfg, k: nat, addresses: seq<nat>, r: nat)
    requires cfg.mask == Pow2(k) - 1 && r < |addresses| == cfg.maxIdx + 1
    requires forall r': nat :: r' < |addresses| && addresses[r'] == addresses[r] ==> r' == r
    ensures WordsFor(cfg, addresses, addresses[r]) == Residues(WORD, Pow2(k), r)
  {
    hide Pow2, And;
    forall w: nat ensures Drawn(cfg, addresses, w, addresses[r]) <==> w % Pow2(k) == r {
      AndMask(w, k);
    }
  }

  /** The draw is uniform: of all 2^32 words, every address of the table has the same number, 2^32 divided by the
      power of two the mask covers, and no other address has any. */
  lemma Uniform(cfg: RangeCfg, spans: seq<Span>, a: nat)
    requires Merged(spans) && Encodes(cfg, spans)
    ensures |WordsFor(cfg, Addresses(spans), a)| * (cfg.mask + 1) == if InSpans(spans, a) then WORD else 0
  {
    hide Pow2, SoFar, Addresses, LeastMask, RangePairs, And, Encodes, InSpans;
    var k := MaskWidth(cfg, spans);
    AddressesMembers(spans, a);
    if InSpans(spans, a) {
      var r: nat :| r < |Addresses(spans)| && Addresses(spans)[r] == a;
      OnlyDraw(spans, r);
      WordsOfDraw(cfg, k, Addresses(spans), r);
      UniformCount(k, r);
    } else {
      assert WordsFor(cfg, Addresses(spans), a) == {};
    }
  }

  lemma UniformCount(k: nat, r: nat)
    requires k <= 32 && Pow2(k) * Pow2(32 - k) == WORD && r < Pow2(k)
    ensures |Residues(WORD, Pow2(k), r)| * Pow2(k) == WORD
  {
    hide Pow2, Residues;
    CountResidue(Pow2(32 - k), Pow2(k), r);
    assert Pow2(32 - k) * Pow2(k) == WORD;
  }

  /** More than half of all words are accepted. */
  lemma HalfAccepted(cfg: RangeCfg, spans: seq<Span>)
    requires Merged(spans) && Encodes(cfg, spans)
    ensures |Accepted(cfg)| * (cfg.mask + 1) == (cfg.maxIdx + 1) * WORD
    ensures 2 * |Accepted(cfg)| > WORD
  {
    hide Pow2, SoFar, Addresses, LeastMask, RangePairs, And, Encodes;
    var k := MaskWidth(cfg, spans);
    var m, n, t := Pow2(k), Pow2(32 - k), cfg.maxIdx + 1;
    forall w: nat ensures And(w, cfg.mask) == w % m {
      AndMask(w, k);
    }
    assert n * m == WORD;
    assert Accepted(cfg) == Below(n * m, m, t);
    CountBelow(n, m, t);
    Shares(n, m, t);
  }

  lemma Shares(n: nat, m: nat, t: nat)
    requires n > 0 && m < 2 * t
    ensures n * t * m == t * (n * m) && 2 * (n * t) > n * m
  {
    assert 2 * (n * t) - n * m == n * (2 * t - m);
  }
}
