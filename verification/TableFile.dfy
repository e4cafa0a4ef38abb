/** Compiled target tables on disk: little-endian 32-bit words, written by the table compiler and read back by the
    scanner. */
module TableFile {
  import opened Bytes
  import opened Targets

  function Pack(words: seq<nat>): seq<byte> {
    if words == [] then [] else Enc(Little, 4, words[0]) + Pack(words[1..])
  }

  /** The file the compiler writes. */
  function TableBytes(cfg: RangeCfg): seq<byte> {
    Pack([cfg.num, cfg.maxIdx, cfg.mask] + cfg.ranges)
  }

  /** Up to `n` words from the start of `s`: as many as are there whole. */
  function Words(s: seq<byte>, n: nat): seq<nat> {
    if n == 0 || |s| < 4 then [] else [Dec(Little, s[..4])] + Words(s[4..], n - 1)
  }

  lemma {:induction false} WordsPack(words: seq<nat>)
    requires forall i :: 0 <= i < |words| ==> words[i] < WORD
    ensures Words(Pack(words), |words|) == words
  {
    if words != [] {
      Pow256Values();
      DecEnc(Little, 4, words[0]);
      WordsPack(words[1..]);
      assert Pack(words)[..4] == Enc(Little, 4, words[0]) && Pack(words)[4..] == Pack(words[1..]);
    }
  }

  lemma {:induction false} WordsCount(s: seq<byte>, n: nat)
    ensures |Words(s, n)| == if |s| / 4 < n then |s| / 4 else n
  {
    if n > 0 && |s| >= 4 {
      WordsCount(s[4..], n - 1);
    }
  }

  lemma {:induction false} WordsMore(s: seq<byte>, n: nat)
    requires |s| >= 4 * (n + 1)
    ensures Words(s, n + 1) == Words(s, n) + [Dec(Little, s[4 * n..4 * n + 4])]
  {
    hide Dec;
    if n > 0 {
      WordsMore(s[4..], n - 1);
      var last := s[4 * n..4 * n + 4];
      assert s[4..][4 * (n - 1)..4 * (n - 1) + 4] == last;
      assert Words(s, n + 1) == [Dec(Little, s[..4])] + Words(s[4..], n);
      assert Words(s[4..], n) == Words(s[4..], n - 1) + [Dec(Little, last)];
    } else {
      assert s[0..4] == s[..4];
      assert Words(s[4..], 0) == [];
    }
  }

  lemma WordsStop(s: seq<byte>, n: nat, k: nat)
    requires n <= k && |s| < 4 * (n + 1) && |s| >= 4 * n
    ensures Words(s, k) == Words(s, n)
    decreases n
  {
    if n > 0 {
      WordsStop(s[4..], n - 1, k - 1);
    }
  }

  /** What the scanner gets: no table, or a table of `num` pairs of which only these words were read, the bounds and
      mask first, the rest of it being whatever was in memory. What happens for some counts C does not define. */
  datatype Loaded = Null | Table(num: nat, words: seq<nat>) | Undefined

  /** The count in the first four bytes, as an `int`. */
  function Count(file: seq<byte>): int
    requires |file| >= 4
  {
    Signed(4, Dec(Little, file[..4]))
  }

  /** Twice the count does not leave an `int`. */
  predicate Doubles(num: int) { -0x4000_0000 <= num < 0x4000_0000 }

  const WORD64 := 0x1_0000_0000_0000_0000

  /** The bytes asked for: the three fixed fields and two words a pair, in unsigned 64-bit arithmetic. */
  function BytesAsked(num: int): nat { (12 + 8 * num) % WORD64 }

  /** How many words follow the count. */
  function Expected(num: nat): nat { 2 + 2 * num }

  predicate Complete(t: Loaded) { t.Table? && |t.words| == Expected(t.num) }

  /** What loading a file gives when `granted` says whether there is memory for a table of a sensible size; no
      machine has nearly 2^64 bytes. A count of -1 asks for four bytes only, and the rest is written outside them.
      */
  function Loads(file: seq<byte>, granted: bool): Loaded {
    if |file| < 4 then Null
    else
      var num := Count(file);
      if !Doubles(num) then Undefined
      else if !granted || BytesAsked(num) > 0x10_0000_0000 then Null
      else if num < 0 then Undefined
      else Table(num, Words(file[4..], Expected(num)))
  }

  /** Which counts give a table: those from 0 to 2^30 - 1. For -1, and when twice the count overflows, anything may
      happen; for the other negative counts the memory is refused. */
  lemma CountsLoaded(file: seq<byte>)
    requires |file| >= 4
    ensures var num, t := Count(file), Loads(file, true);
      && (t.Table? <==> 0 <= num < 0x4000_0000)
      && (t == Null <==> -0x4000_0000 <= num <= -2)
      && (t == Undefined <==> num == -1 || !Doubles(num))
  {
    hide Dec;
    var num := Count(file);
    if num == -1 {
      assert BytesAsked(num) == 4;
    } else if Doubles(num) && num < 0 {
      assert 12 + 8 * num == -1 * WORD64 + (WORD64 + 12 + 8 * num);
      assert BytesAsked(num) == WORD64 + 12 + 8 * num;
    } else if Doubles(num) {
      assert BytesAsked(num) == 12 + 8 * num;
    }
  }

  method LoadRangeCfg(file: seq<byte>, granted: bool) returns (t: Loaded)
    ensures t == Loads(file, granted)
  {
    if |file| < 4 {
      return Null;
    }
    var num := Count(file);
    if !Doubles(num) {
      return Undefined;
    }
    if !granted || BytesAsked(num) > 0x10_0000_0000 {
      return Null;
    }
    if num < 0 {
      return Undefined;
    }
    var s, words: seq<nat>, r := file[4..], [], 0;
    while r < Expected(num)
      invariant r <= Expected(num) && |s| >= 4 * r && words == Words(s, r)
    {
      if |s| < 4 * r + 4 {
        WordsStop(s, r, Expected(num));
        return Table(num, words);
      }
      WordsMore(s, r);
      words := words + [Dec(Little, s[4 * r..4 * r + 4])];
      r := r + 1;
    }
    return Table(num, words);
  }

  /** The scanner reads back exactly the table the compiler wrote. */
  lemma LoadsWhatWasCompiled(cfg: RangeCfg)
    requires cfg.num < 0x4000_0000 && |cfg.ranges| == 2 * cfg.num && cfg.maxIdx < WORD && cfg.mask < WORD
    requires forall i :: 0 <= i < |cfg.ranges| ==> cfg.ranges[i] < WORD
    ensures Loads(TableBytes(cfg), true) == Table(cfg.num, [cfg.maxIdx, cfg.mask] + cfg.ranges)
  {
    hide Enc, Dec, Words;
    var rest := [cfg.maxIdx, cfg.mask] + cfg.ranges;
    assert [cfg.num, cfg.maxIdx, cfg.mask] + cfg.ranges == [cfg.num] + rest;
    assert ([cfg.num] + rest)[1..] == rest;
    Pow256Values();
    DecEnc(Little, 4, cfg.num);
    WordsPack(rest);
    assert TableBytes(cfg) == Enc(Little, 4, cfg.num) + Pack(rest);
    assert TableBytes(cfg)[..4] == Enc(Little, 4, cfg.num) && TableBytes(cfg)[4..] == Pack(rest);
    CountsLoaded(TableBytes(cfg));
  }

  /** A file cut short is refused only when not even the count can be read. Otherwise, for a count that gives a
      table, one comes back, and it is all there if and only if the file is long enough for it. */
  lemma TruncatedAccepted(file: seq<byte>)
    requires |file| >= 4 && 0 <= Count(file) < 0x4000_0000
    ensures var t := Loads(file, true);
      t.Table? && (Complete(t) <==> |file| >= 4 + 4 * Expected(t.num))
  {
    hide Dec;
    CountsLoaded(file);
    WordsCount(file[4..], Expected(Count(file)));
  }

  /** For instance, a file of nothing but a count of one is accepted as a table of which not a word was read. */
  lemma CountAlone()
    ensures Loads([1, 0, 0, 0], true) == Table(1, []) && !Complete(Table(1, []))
  {
    var file: seq<byte> := [1, 0, 0, 0];
    assert file[..4] == file && file[4..] == [];
    DecFour(1, 0, 0, 0);
    Pow256Values();
    CountsLoaded(file);
  }
}
