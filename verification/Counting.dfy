/** Powers of two, masking, and counting residues. */
module Counting {

  function Pow2(k: nat): (p: nat)
    ensures p >= 1
  {
    if k == 0 then 1 else 2 * Pow2(k - 1)
  }

  lemma Pow2Of32()
    ensures Pow2(32) == 0x1_0000_0000
  {
    assert Pow2(8) == 256;
    assert Pow2(16) == 256 * Pow2(8) by { Pow2Sum(8, 8); }
    assert Pow2(32) == Pow2(16) * Pow2(16) by { Pow2Sum(16, 16); }
  }

  lemma {:induction false} Pow2Sum(a: nat, b: nat)
    ensures Pow2(a + b) == Pow2(a) * Pow2(b)
  {
    if a > 0 {
      Pow2Sum(a - 1, b);
      assert Pow2(a + b) == 2 * (Pow2(a - 1) * Pow2(b));
    }
  }

  lemma {:induction false} Pow2Grows(a: nat, b: nat)
    requires a <= b
    ensures Pow2(a) <= Pow2(b)
  {
    if a < b {
      Pow2Grows(a, b - 1);
    }
  }

  /** Bitwise and. */
  function And(a: nat, b: nat): nat {
    if a == 0 || b == 0 then 0 else (a % 2) * (b % 2) + 2 * And(a / 2, b / 2)
  }

  lemma Multiple(d: int, m: int)
    requires m > 0
    ensures d >= 1 ==> d * m >= m
    ensures d <= -1 ==> d * m <= -m
  {
    if d >= 1 {
      assert d * m == (d - 1) * m + m;
    } else if d <= -1 {
      assert d * m == (d + 1) * m - m;
    }
  }

  /** Quotient and remainder are unique. */
  lemma Euclid(m: int, q: int, r: int, q': int, r': int)
    requires 0 <= r < m && 0 <= r' < m && q * m + r == q' * m + r'
    ensures q == q' && r == r'
  {
    Multiple(q' - q, m);
    assert (q' - q) * m == r - r';
  }

  lemma ModUnique(x: int, m: int, q: int, r: int)
    requires m > 0 && 0 <= r < m && x == q * m + r
    ensures x % m == r && x / m == q
  {
    assert x == (x / m) * m + x % m;
    Euclid(m, q, r, x / m, x % m);
  }

  lemma DoubleMod(w: nat, m: nat)
    requires m > 0
    ensures w % (2 * m) == w % 2 + 2 * (w / 2 % m)
  {
    var h := w / 2;
    var q, r := h / m, h % m;
    assert h == q * m + r;
    assert q * (2 * m) == 2 * (q * m);
    ModUnique(w, 2 * m, q, 2 * r + w % 2);
  }

  /** Masking with 2^k - 1 is taking the remainder by 2^k. */
  lemma {:induction false} AndMask(w: nat, k: nat)
    ensures And(w, Pow2(k) - 1) == w % Pow2(k)
  {
    if k == 0 {
    } else if w == 0 {
      ModUnique(0, Pow2(k), 0, 0);
    } else {
      var m := Pow2(k - 1);
      AndMask(w / 2, k - 1);
      assert (2 * m - 1) % 2 == 1 && (2 * m - 1) / 2 == m - 1;
      DoubleMod(w, m);
    }
  }

  /** The numbers below `bound` that leave remainder r by m. */
  ghost function Residues(bound: nat, m: nat, r: nat): set<nat>
    requires m > 0
  {
    set w: nat | w < bound && w % m == r
  }

  /** The next m numbers after a multiple of m hold one more of each residue. */
  lemma NextResidue(q: nat, m: nat, r: nat)
    requires r < m
    ensures Residues(q * m + m, m, r) == Residues(q * m, m, r) + {q * m + r} && q * m + r !in Residues(q * m, m, r)
  {
    var a := q * m;
    forall w: nat | a <= w < a + m ensures w % m == w - a {
      ModUnique(w, m, q, w - a);
    }
    OneResidue(a, m, r);
  }

  lemma OneResidue(a: nat, m: nat, r: nat)
    requires r < m && forall w: nat :: a <= w < a + m ==> w % m == w - a
    ensures Residues(a + m, m, r) == Residues(a, m, r) + {a + r} && a + r !in Residues(a, m, r)
  {
    forall w: nat ensures w in Residues(a + m, m, r) <==> w in Residues(a, m, r) || w == a + r {
    }
  }

  lemma OneMore(n: int, m: int)
    ensures n * m == (n - 1) * m + m
  {
  }

  /** Exactly n of the first n * m numbers leave remainder r by m. */
  lemma {:induction false} CountResidue(n: nat, m: nat, r: nat)
    requires r < m
    ensures |Residues(n * m, m, r)| == n
  {
    if n == 0 {
      assert Residues(0, m, r) == {};
    } else {
      hide Residues;
      CountResidue(n - 1, m, r);
      NextResidue(n - 1, m, r);
      OneMore(n, m);
    }
  }

  /** The numbers below `bound` that leave a remainder below t by m. */
  ghost function Below(bound: nat, m: nat, t: nat): set<nat>
    requires m > 0
  {
    set w: nat | w < bound && w % m < t
  }

  /** Exactly n * t of the first n * m numbers leave a remainder below t by m. */
  lemma {:induction false} CountBelow(n: nat, m: nat, t: nat)
    requires 0 < m && t <= m
    ensures |Below(n * m, m, t)| == n * t
  {
    if t == 0 {
      assert Below(n * m, m, t) == {};
    } else {
      CountBelow(n, m, t - 1);
      CountResidue(n, m, t - 1);
      BelowSplits(n * m, m, t);
      assert n * t == n * (t - 1) + n;
    }
  }

  lemma BelowSplits(bound: nat, m: nat, t: nat)
    requires 0 < t <= m
    ensures Below(bound, m, t) == Below(bound, m, t - 1) + Residues(bound, m, t - 1)
    ensures Below(bound, m, t - 1) !! Residues(bound, m, t - 1)
  {
  }
}
