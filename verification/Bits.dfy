/** Powers of two and the bitwise operators of the source, as functions on unbounded naturals. */
module Bits {

  function Pow2(k: nat): (p: nat)
    ensures p >= 1
  {
    if k == 0 then 1 else 2 * Pow2(k - 1)
  }

  lemma {:induction false} Pow2Add(j: nat, k: nat)
    ensures Pow2(j + k) == Pow2(j) * Pow2(k)
  {
    if j > 0 {
      Pow2Add(j - 1, k);
      assert 2 * (Pow2(j - 1) * Pow2(k)) == Pow2(j) * Pow2(k);
    }
  }

  lemma {:induction false} Pow2Monotone(j: nat, k: nat)
    requires j <= k
    ensures Pow2(j) <= Pow2(k)
  {
    if j < k { Pow2Monotone(j, k - 1); }
  }

  /** Bitwise or. */
  function BitOr(x: nat, y: nat): nat {
    if x == 0 then y
    else if y == 0 then x
    else (if x % 2 == 1 || y % 2 == 1 then 1 else 0) + 2 * BitOr(x / 2, y / 2)
  }

  /** Oring a number below 2^k into a multiple of 2^k adds it. */
  lemma {:induction false} BitOrDisjoint(x: nat, m: nat, k: nat)
    requires x < Pow2(k)
    ensures BitOr(x, m * Pow2(k)) == x + m * Pow2(k) == BitOr(m * Pow2(k), x)
  {
    if k > 0 {
      var y := m * Pow2(k);
      assert y == 2 * (m * Pow2(k - 1));
      BitOrDisjoint(x / 2, m, k - 1);
    }
  }

  /** Oring in a bit that is clear adds it. */
  lemma {:induction false} OrClearBit(x: nat, k: nat)
    requires (x / Pow2(k)) % 2 == 0
    ensures BitOr(x, Pow2(k)) == x + Pow2(k)
  {
    if k > 0 {
      DivByDouble(x, Pow2(k - 1));
      OrClearBit(x / 2, k - 1);
    }
  }

  lemma DivByDouble(x: nat, p: nat)
    requires p > 0
    ensures x / (2 * p) == (x / 2) / p
  {
    DivMod(x / 2, p);
    var q, r := (x / 2) / p, (x / 2) % p;
    assert (2 * p) * q == 2 * (p * q);
    ModIs(2 * r + x % 2, q, 2 * p, x);
  }

  // ----- Products and quotients -----

  lemma MulAtLeast(m: nat, k: int)
    requires k >= 1
    ensures m * k >= m
  {
    assert m * k == m + m * (k - 1);
  }

  lemma MulMonotone(x: nat, a: int, b: int)
    requires a <= b
    ensures x * a <= x * b
  {}

  lemma QuotientIsUnique(m: nat, q: int, r: int, q': int, r': int)
    requires m * q + r == m * q' + r' && 0 <= r < m && 0 <= r' < m
    ensures q == q' && r == r'
  {
    assert m * (q' - q) == m * q' - m * q;
    assert m * (q - q') == m * q - m * q';
    if q < q' { MulAtLeast(m, q' - q); }
    if q' < q { MulAtLeast(m, q - q'); }
  }

  lemma ModIs(r: nat, q: int, m: nat, t: int)
    requires r < m && t == r + m * q
    ensures t % m == r && t / m == q
  {
    QuotientIsUnique(m, q, r, t / m, t % m);
  }

  lemma DivMod(t: int, m: nat)
    requires m > 0
    ensures t == m * (t / m) + t % m && 0 <= t % m < m
  {}

  lemma QuotientIsNat(x: nat, p: nat)
    requires p > 0
    ensures x / p >= 0
  {
    DivMod(x, p);
    if x / p < 0 { MulMonotone(p, x / p, -1); }
  }
}
