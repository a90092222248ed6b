/** The generator e has order 1023: no nonzero element is fixed by fewer turns. */
module GF1024Order {
  import opened Bits
  import opened GF1024

  // Powers e^n, the three sums e^n + 1 and their inverses.
  const E1: Elem := 2
  const E2: Elem := 4
  const E4: Elem := 16
  const E8: Elem := 256
  const E16: Elem := 281
  const E32: Elem := 88
  const E33: Elem := 176
  const E64: Elem := 239
  const E68: Elem := 405
  const E84: Elem := 617
  const E85: Elem := 497
  const E93: Elem := 874
  const E170: Elem := 779
  const E340: Elem := 27
  const E341: Elem := 54
  const E682: Elem := 55
  const U33: Elem := 177
  const V33: Elem := 190
  const U93: Elem := 875
  const V93: Elem := 211
  const U341: Elem := 55
  const V341: Elem := 54

  function Pow(x: Elem, n: nat): Elem { if n == 0 then ONE else Mul(Pow(x, n - 1), x) }

  lemma TimesOne(x: Elem)
    ensures Mul(x, ONE) == x
  {
    hide Mul;
    MulCommutes(x, ONE);
    OneTimes(x);
  }

  lemma {:induction false} PowAdd(x: Elem, m: nat, n: nat)
    ensures Pow(x, m + n) == Mul(Pow(x, m), Pow(x, n))
  {
    hide Mul;
    if n == 0 { TimesOne(Pow(x, m)); } else {
      PowAdd(x, m, n - 1);
      MulAssociates(Pow(x, m), Pow(x, n - 1), x);
    }
  }

  lemma MulExchange(a: Elem, b: Elem, c: Elem, d: Elem)
    ensures Mul(Mul(a, b), Mul(c, d)) == Mul(Mul(a, c), Mul(b, d))
  {
    hide Mul;
    MulAssociates(Mul(a, b), c, d);
    MulSwap(a, c, b);
    MulAssociates(Mul(a, c), b, d);
  }

  lemma {:induction false} PowProduct(x: Elem, y: Elem, n: nat)
    ensures Pow(Mul(x, y), n) == Mul(Pow(x, n), Pow(y, n))
  {
    hide Mul;
    if n == 0 { OneTimes(ONE); } else {
      PowProduct(x, y, n - 1);
      MulExchange(Pow(x, n - 1), Pow(y, n - 1), x, y);
    }
  }

  // ----- The constants are the powers they are named after -----

  lemma Product2() ensures Mul(E1, E1) == E2 {}
  lemma Product4() ensures Mul(E2, E2) == E4 {}
  lemma Product8() ensures Mul(E4, E4) == E8 {}
  lemma Product16() ensures Mul(E8, E8) == E16 {}
  lemma Product32() ensures Mul(E16, E16) == E32 {}
  lemma Product33() ensures Mul(E32, E1) == E33 {}
  lemma Product64() ensures Mul(E32, E32) == E64 {}
  lemma Product68() ensures Mul(E64, E4) == E68 {}
  lemma Product84() ensures Mul(E68, E16) == E84 {}
  lemma Product85() ensures Mul(E84, E1) == E85 {}
  lemma Product93() ensures Mul(E85, E8) == E93 {}
  lemma Product170() ensures Mul(E85, E85) == E170 {}
  lemma Product340() ensures Mul(E170, E170) == E340 {}
  lemma Product341() ensures Mul(E340, E1) == E341 {}
  lemma Product682() ensures Mul(E341, E341) == E682 {}
  lemma Product1023() ensures Mul(E682, E341) == ONE {}
  lemma Unit33() ensures Mul(U33, V33) == ONE && Xor(E33, ONE) == U33 {}
  lemma Unit93() ensures Mul(U93, V93) == ONE && Xor(E93, ONE) == U93 {}
  lemma Unit341() ensures Mul(U341, V341) == ONE && Xor(E341, ONE) == U341 {}

  lemma PowersOfE(n: nat)
    ensures n == 33 ==> Pow(E1, n) == E33
    ensures n == 93 ==> Pow(E1, n) == E93
    ensures n == 341 ==> Pow(E1, n) == E341
    ensures n == 1023 ==> Pow(E1, n) == ONE
  {
    FirstPower();
    hide Mul, Pow;
    Product2();
    PowAdd(E1, 1, 1);
    Product4();
    PowAdd(E1, 2, 2);
    Product8();
    PowAdd(E1, 4, 4);
    Product16();
    PowAdd(E1, 8, 8);
    Product32();
    PowAdd(E1, 16, 16);
    Product33();
    PowAdd(E1, 32, 1);
    Product64();
    PowAdd(E1, 32, 32);
    Product68();
    PowAdd(E1, 64, 4);
    Product84();
    PowAdd(E1, 68, 16);
    Product85();
    PowAdd(E1, 84, 1);
    Product93();
    PowAdd(E1, 85, 8);
    Product170();
    PowAdd(E1, 85, 85);
    Product340();
    PowAdd(E1, 170, 170);
    Product341();
    PowAdd(E1, 340, 1);
    Product682();
    PowAdd(E1, 341, 341);
    Product1023();
    PowAdd(E1, 682, 341);
  }

  lemma FirstPower()
    ensures Pow(E1, 1) == E1
  {
    hide Mul;
    OneTimes(E1);
  }

  // ----- Periods -----

  predicate Fixed(y: Elem, d: nat) { Mul(y, Pow(E1, d)) == y }

  lemma FixedAdd(y: Elem, a: nat, b: nat)
    requires Fixed(y, a)
    ensures Fixed(y, a + b) <==> Fixed(y, b)
  {
    hide Mul, Pow;
    PowAdd(E1, a, b);
    MulAssociates(y, Pow(E1, a), Pow(E1, b));
  }

  lemma {:induction false} FixedMultiple(y: Elem, d: nat, k: nat)
    requires Fixed(y, d)
    ensures Fixed(y, d * k)
  {
    hide Mul;
    if k == 0 { TimesOne(y); } else {
      FixedMultiple(y, d, k - 1);
      FixedAdd(y, d, d * (k - 1));
    }
  }

  /** Two periods have their greatest common divisor as a period. */
  lemma {:induction false} CommonPeriod(y: Elem, a: nat, b: nat) returns (g: nat, i: nat, j: nat)
    requires a >= 1 && b >= 1 && Fixed(y, a) && Fixed(y, b)
    ensures g >= 1 && Fixed(y, g) && a == g * i && b == g * j
    decreases a + b
  {
    hide Fixed;
    if a == b { g, i, j := a, 1, 1; }
    else if a < b {
      FixedAdd(y, a, b - a);
      g, i, j := CommonPeriod(y, a, b - a);
      j := i + j;
    } else {
      FixedAdd(y, b, a - b);
      g, i, j := CommonPeriod(y, a - b, b);
      i := i + j;
    }
  }

  lemma NoFactor(p: nat, g: nat, j: nat)
    requires g * j == 1023 && p > 0 && 1023 % p != 0
    ensures j % p != 0
  {
    if j % p == 0 {
      DivMod(j, p);
      assert g * (p * (j / p)) == p * (g * (j / p));
      ModIs(0, g * (j / p), p, 1023);
    }
  }

  lemma SmallDivisor(g: nat, j: nat)
    requires g * j == 1023 && j <= 32
    ensures j == 1 || j == 3 || j == 11 || j == 31
  {
    NoFactor(2, g, j);
    NoFactor(5, g, j);
    NoFactor(7, g, j);
    NoFactor(9, g, j);
    NoFactor(13, g, j);
    NoFactor(17, g, j);
    NoFactor(19, g, j);
    NoFactor(23, g, j);
    NoFactor(29, g, j);
  }

  /** A proper divisor of 3 * 11 * 31 divides one of the three maximal ones. */
  lemma ProperDivisor(g: nat, j: nat)
    requires g * j == 1023 && j >= 2
    ensures 341 % g == 0 || 93 % g == 0 || 33 % g == 0
  {
    if j <= 32 { SmallDivisor(g, j); } else {
      MulMonotone(g, 33, j);
      SmallDivisor(j, g);
    }
  }

  lemma Annihilated(y: Elem, x: Elem, u: Elem, v: Elem)
    requires Mul(y, x) == y && Xor(x, ONE) == u && Mul(u, v) == ONE
    ensures y == ZERO
  {
    hide Mul, Xor;
    MulCommutes(y, u);
    MulLinear(x, ONE, y);
    MulCommutes(x, y);
    OneTimes(y);
    XorSelf(y);
    MulAssociates(y, u, v);
    TimesOne(y);
    ZeroTimes(v);
  }

  /** No nonzero element comes back to itself after 1 to 1022 multiplications by e. */
  lemma OrderOfE(y: Elem, d: nat)
    requires 1 <= d <= 1022 && Fixed(y, d)
    ensures y == ZERO
  {
    hide Mul, Pow, Xor;
    TimesOne(y);
    PowersOfE(1023);
    PowersOfE(341);
    PowersOfE(93);
    PowersOfE(33);
    var g, i, j := CommonPeriod(y, d, 1023);
    if j <= 1 { MulMonotone(g, j, 1); MulAtLeast(g, i); }
    ProperDivisor(g, j);
    var n := if 341 % g == 0 then 341 else if 93 % g == 0 then 93 else 33;
    DivMod(n, g);
    FixedMultiple(y, g, n / g);
    Unit341();
    Unit93();
    Unit33();
    if n == 341 { Annihilated(y, E341, U341, V341); }
    else if n == 93 { Annihilated(y, E93, U93, V93); }
    else { Annihilated(y, E33, U33, V33); }
  }
}
