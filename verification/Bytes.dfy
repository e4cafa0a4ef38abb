/** Bytes, machine integers and the two byte orders a log file can be written in. */
module Bytes {

  type byte = b: int | 0 <= b < 256
  type uint32 = n: int | 0 <= n < 0x1_0000_0000
  type int32 = n: int | -0x8000_0000 <= n < 0x8000_0000
  type int64 = n: int | -0x8000_0000_0000_0000 <= n < 0x8000_0000_0000_0000

  datatype Option<+T> = None | Some(value: T)

  datatype Order = Little | Big

  function Pow256(k: nat): (r: nat)
    ensures r >= 1
  {
    if k == 0 then 1 else 256 * Pow256(k - 1)
  }

  lemma Pow256Values()
    ensures Pow256(1) == 0x100
    ensures Pow256(2) == 0x1_0000
    ensures Pow256(4) == 0x1_0000_0000
    ensures Pow256(8) == 0x1_0000_0000_0000_0000
  {
    assert Pow256(1) == 256 * Pow256(0);
    assert Pow256(2) == 256 * Pow256(1);
    assert Pow256(3) == 256 * Pow256(2);
    assert Pow256(4) == 256 * Pow256(3);
    assert Pow256(5) == 256 * Pow256(4);
    assert Pow256(6) == 256 * Pow256(5);
    assert Pow256(7) == 256 * Pow256(6);
    assert Pow256(8) == 256 * Pow256(7);
  }

  /** The low `k` bytes of `n` in memory order: what writing `k` bytes of an integer puts in the file. */
  function Enc(order: Order, k: nat, n: nat): (s: seq<byte>)
    ensures |s| == k
  {
    if k == 0 then []
    else match order
      case Little => [n % 256] + Enc(order, k - 1, n / 256)
      case Big => Enc(order, k - 1, n / 256) + [n % 256]
  }

  /** The integer that `struct.unpack` reads out of the bytes `s`. */
  function Dec(order: Order, s: seq<byte>): nat {
    if s == [] then 0
    else match order
      case Little => s[0] + 256 * Dec(order, s[1..])
      case Big => s[|s| - 1] + 256 * Dec(order, s[..|s| - 1])
  }

  lemma {:induction false} DecEnc(order: Order, k: nat, n: nat)
    requires n < Pow256(k)
    ensures Dec(order, Enc(order, k, n)) == n
  {
    if k > 0 {
      DecEnc(order, k - 1, n / 256);
      var s := Enc(order, k, n);
      match order
      case Little => assert s[1..] == Enc(order, k - 1, n / 256);
      case Big => assert s[..|s| - 1] == Enc(order, k - 1, n / 256);
    }
  }

  /** Two's complement of a signed number in `k` bytes, and back. */
  function Unsigned(k: nat, v: int): int {
    if v < 0 then v + Pow256(k) else v
  }

  function Signed(k: nat, n: nat): int {
    if 2 * n >= Pow256(k) then n - Pow256(k) else n
  }

  /** The first two bytes of a four-byte `int` are its two-byte form only on a little-endian machine. */
  lemma FirstTwoOfFour(order: Order, n: nat)
    requires n < 0x1_0000
    ensures Enc(Little, 4, n)[..2] == Enc(Little, 2, n)
    ensures Enc(Big, 4, n)[..2] == [0, 0]
    ensures Enc(order, 4, n)[..2] == Enc(order, 2, n) <==> order == Little || n == 0
  {
    assert Enc(Little, 4, n) == [n % 256] + ([n / 256 % 256] + Enc(Little, 2, n / 256 / 256));
    assert Enc(Little, 2, n) == [n % 256] + ([n / 256 % 256] + Enc(Little, 0, n / 256 / 256));
    assert Enc(Big, 4, n) == Enc(Big, 2, n / 256 / 256) + [n / 256 % 256] + [n % 256];
    assert Enc(Big, 2, 0) == Enc(Big, 1, 0) + [0] == Enc(Big, 0, 0) + [0] + [0];
    assert Enc(Big, 2, n) == Enc(Big, 1, n / 256) + [n % 256] == Enc(Big, 0, 0) + [n / 256 % 256] + [n % 256];
    if order == Big && Enc(Big, 2, n) == [0, 0] {
      assert Enc(Big, 2, n)[0] == n / 256 % 256 && Enc(Big, 2, n)[1] == n % 256;
    }
  }

  lemma EncLow(k: nat, low: byte, high: nat)
    ensures Enc(Little, k + 1, low + 256 * high) == [low] + Enc(Little, k, high)
  {
    assert (low + 256 * high) % 256 == low && (low + 256 * high) / 256 == high;
  }

  lemma EncNone(order: Order, n: nat)
    ensures Enc(order, 0, n) == []
  {
  }

  lemma FourBytes(a: byte, b: byte, c: byte, d: byte)
    ensures Enc(Little, 4, a + 0x100 * b + 0x1_0000 * c + 0x100_0000 * d) == [a, b, c, d]
  {
    hide Enc;
    EncNone(Little, 0);
    EncLow(0, d, 0);
    EncLow(1, c, d);
    EncLow(2, b, c + 0x100 * d);
    EncLow(3, a, b + 0x100 * c + 0x1_0000 * d);
    assert [a] + ([b] + ([c] + ([d] + []))) == [a, b, c, d];
  }

  lemma DecFour(a: byte, b: byte, c: byte, d: byte)
    ensures Dec(Little, [a, b, c, d]) == a + 0x100 * b + 0x1_0000 * c + 0x100_0000 * d
  {
    var n := a + 0x100 * b + 0x1_0000 * c + 0x100_0000 * d;
    FourBytes(a, b, c, d);
    Pow256Values();
    DecEnc(Little, 4, n);
  }

  /** Byte i of an integer is its i-th digit to the base 256, counted from the end that the order says. */
  lemma {:induction false} EncByte(k: nat, n: nat, i: nat)
    requires i < k
    ensures Enc(Little, k, n)[i] == n / Pow256(i) % 256
    ensures Enc(Big, k, n)[k - 1 - i] == n / Pow256(i) % 256
  {
    if i > 0 {
      EncByte(k - 1, n / 256, i - 1);
      Quotients(n, Pow256(i - 1));
    }
  }

  lemma Quotients(n: nat, m: nat)
    requires m > 0
    ensures n / 256 / m == n / (256 * m)
  {
    var q := n / 256 / m;
    var rest := n / 256 - q * m;
    assert 0 <= rest < m by { assert n / 256 == m * q + n / 256 % m; }
    var left := n - q * (256 * m);
    assert q * (256 * m) == 256 * (q * m) by { Regrouped(q, m); }
    assert 0 <= left < 256 * m;
    QuotientIs(n, 256 * m, q, left);
  }

  lemma Regrouped(q: nat, m: nat)
    ensures q * (256 * m) == 256 * (q * m)
  {
  }

  lemma QuotientIs(n: nat, d: nat, q: nat, left: nat)
    requires n == q * d + left && left < d
    ensures n / d == q
  {
    var p := n / d;
    assert n == p * d + n % d;
    if p < q {
      Between(p, q, d);
    } else if q < p {
      Between(q, p, d);
    }
  }

  lemma Between(p: nat, q: nat, d: nat)
    requires p < q
    ensures p * d + d <= q * d
  {
    assert (q - p) * d == q * d - p * d;
    assert (q - p - 1) * d >= 0;
    assert (q - p) * d == (q - p - 1) * d + d;
  }
}
