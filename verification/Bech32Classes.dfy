/** Classes of field elements modulo the subfield of 32: what raising to the 32nd power multiplies them by. */
module Bech32Classes {
  import opened Bits
  import opened GF1024
  import opened GF1024Order
  import opened Bech32Code
  import opened Bech32Errors

  // ----- Raising to the 32nd power -----

  function Sq(x: Elem): Elem { Mul(x, x) }

  /** x^32. */
  function Frob(x: Elem): Elem { Sq(Sq(Sq(Sq(Sq(x))))) }

  lemma SqAdds(x: Elem, y: Elem)
    ensures Sq(Xor(x, y)) == Xor(Sq(x), Sq(y))
  {
    hide Mul, Xor;
    var s := Xor(x, y);
    MulLinear(x, y, s);
    MulCommutes(x, s);
    MulCommutes(y, s);
    MulLinear(x, y, x);
    MulLinear(x, y, y);
    MulCommutes(y, x);
    MiddleCancels(Sq(x), Mul(x, y), Sq(y));
  }

  lemma SqMultiplies(x: Elem, y: Elem)
    ensures Sq(Mul(x, y)) == Mul(Sq(x), Sq(y))
  {
    hide Mul;
    MulExchange(x, y, x, y);
  }

  lemma FrobAdds(x: Elem, y: Elem)
    ensures Frob(Xor(x, y)) == Xor(Frob(x), Frob(y))
  {
    hide Sq, Xor;
    SqAdds(x, y);
    SqAdds(Sq(x), Sq(y));
    SqAdds(Sq(Sq(x)), Sq(Sq(y)));
    SqAdds(Sq(Sq(Sq(x))), Sq(Sq(Sq(y))));
    SqAdds(Sq(Sq(Sq(Sq(x)))), Sq(Sq(Sq(Sq(y)))));
  }

  lemma FrobMultiplies(x: Elem, y: Elem)
    ensures Frob(Mul(x, y)) == Mul(Frob(x), Frob(y))
  {
    hide Sq, Mul;
    SqMultiplies(x, y);
    SqMultiplies(Sq(x), Sq(y));
    SqMultiplies(Sq(Sq(x)), Sq(Sq(y)));
    SqMultiplies(Sq(Sq(Sq(x))), Sq(Sq(Sq(y))));
    SqMultiplies(Sq(Sq(Sq(Sq(x)))), Sq(Sq(Sq(Sq(y)))));
  }

  lemma FrobOfOne()
    ensures Frob(ONE) == ONE && Frob(0) == 0
  {
    hide Mul;
    OneTimes(ONE);
    ZeroTimes(0);
  }

  lemma FrobOfE()
    ensures Frob(E1) == E32
  {
    hide Mul;
    Product2();
    Product4();
    Product8();
    Product16();
    Product32();
  }

  lemma {:induction false} FrobOfPower(x: Elem, n: nat)
    ensures Frob(Pow(x, n)) == Pow(Frob(x), n)
  {
    hide Frob, Mul;
    if n == 0 { FrobOfOne(); } else {
      FrobOfPower(x, n - 1);
      FrobMultiplies(Pow(x, n - 1), x);
    }
  }

  // ----- The subfield is fixed -----

  // The further squares of w.
  const W8: Elem := 1001
  const W16: Elem := 780

  lemma SquareOfW() ensures Sq(W1) == W2 {}
  lemma SquareOfW2() ensures Sq(W2) == W4 {}
  lemma SquareOfW4() ensures Sq(W4) == W8 {}
  lemma SquareOfW8() ensures Sq(W8) == W16 {}
  lemma SquareOfW16() ensures Sq(W16) == W1 {}

  lemma FrobOfW()
    ensures Frob(W1) == W1 && Frob(W2) == W2 && Frob(W3) == W3 && Frob(W4) == W4
  {
    assert Frob(W1) == W1 by {
      hide Sq;
      SquareOfW();
      SquareOfW2();
      SquareOfW4();
      SquareOfW8();
      SquareOfW16();
    }
    hide Frob, Mul;
    PowersOfW();
    FrobMultiplies(W1, W1);
    FrobMultiplies(W2, W1);
    FrobMultiplies(W3, W1);
  }

  lemma FrobOfPick(bit: bool, x: Elem)
    ensures Frob(Pick(bit, x)) == Pick(bit, Frob(x))
  {
    hide Frob;
    FrobOfOne();
  }

  lemma SymbolsAreFixed(x: Symbol)
    ensures Frob(Emb(x)) == Emb(x)
  {
    hide Frob, Xor, Pick, Has;
    FrobOfOne();
    FrobOfW();
    var a, b, c := Pick(Has(x, 1), ONE), Pick(Has(x, 2), W1), Pick(Has(x, 4), W2);
    var d, e := Pick(Has(x, 8), W3), Pick(Has(x, 16), W4);
    FrobAdds(Xor(Xor(Xor(a, b), c), d), e);
    FrobAdds(Xor(Xor(a, b), c), d);
    FrobAdds(Xor(a, b), c);
    FrobAdds(a, b);
    FrobOfPick(Has(x, 1), ONE);
    FrobOfPick(Has(x, 2), W1);
    FrobOfPick(Has(x, 4), W2);
    FrobOfPick(Has(x, 8), W3);
    FrobOfPick(Has(x, 16), W4);
  }

  // ----- Classes -----

  /** e^31, a root of unity of order 33. */
  const THETA: Elem := 44

  /** Raising y to the 32nd power multiplies it by the a-th power of theta. */
  predicate HasClass(y: Elem, a: nat) { Frob(y) == Mul(Pow(THETA, a), y) }

  lemma ClassOfProduct(x: Elem, a: nat, y: Elem, b: nat)
    requires HasClass(x, a) && HasClass(y, b)
    ensures HasClass(Mul(x, y), a + b)
  {
    hide Frob, Mul, Pow;
    FrobMultiplies(x, y);
    MulExchange(Pow(THETA, a), x, Pow(THETA, b), y);
    PowAdd(THETA, a, b);
  }

  lemma SymbolClass(x: Symbol)
    ensures HasClass(Emb(x), 0)
  {
    hide Frob, Mul, Emb;
    SymbolsAreFixed(x);
    OneTimes(Emb(x));
  }

  lemma ThetaTimesE() ensures Mul(THETA, E1) == E32 {}

  lemma PowerClass(n: nat)
    ensures HasClass(Pow(E1, n), n)
  {
    hide Frob, Mul, Pow;
    FrobOfPower(E1, n);
    FrobOfE();
    ThetaTimesE();
    PowProduct(THETA, E1, n);
  }

  // ----- The class is determined modulo 33 -----

  lemma Product24() ensures Mul(E16, E8) == R1 {}
  lemma Product28() ensures Mul(R1, E4) == E28 {}
  lemma Product30() ensures Mul(E28, E2) == E30 {}
  lemma Product31() ensures Mul(E30, E1) == THETA {}

  const E28: Elem := 660
  const E30: Elem := 22

  lemma ThetaIsPower(n: nat)
    ensures n == 24 ==> Pow(E1, n) == R1
    ensures n == 31 ==> Pow(E1, n) == THETA
  {
    FirstPower();
    hide Mul, Pow;
    Product2();
    PowAdd(E1, 1, 1);
    Product4();
    PowAdd(E1, 2, 2);
    Product8();
    PowAdd(E1, 4, 4);
    Product16();
    PowAdd(E1, 8, 8);
    Product24();
    PowAdd(E1, 16, 8);
    Product28();
    PowAdd(E1, 24, 4);
    Product30();
    PowAdd(E1, 28, 2);
    Product31();
    PowAdd(E1, 30, 1);
  }

  lemma {:induction false} PowerOfPower(x: Elem, m: nat, n: nat)
    ensures Pow(Pow(x, m), n) == Pow(x, m * n)
  {
    hide Mul;
    if n == 0 { assert m * n == 0; } else {
      PowerOfPower(x, m, n - 1);
      PowAdd(x, m * (n - 1), m);
      assert m * (n - 1) + m == m * n;
    }
  }

  /** Powers of e repeat after 1023. */
  lemma {:induction false} PowerReduces(q: nat, r: nat)
    ensures Pow(E1, 1023 * q + r) == Pow(E1, r)
  {
    hide Mul, Pow;
    if q > 0 {
      PowerReduces(q - 1, r);
      assert 1023 * q + r == 1023 + (1023 * (q - 1) + r);
      PowAdd(E1, 1023, 1023 * (q - 1) + r);
      PowersOfE(1023);
      OneTimes(Pow(E1, 1023 * (q - 1) + r));
    }
  }

  lemma ThetaPower(a: nat)
    ensures Pow(THETA, a) == Pow(E1, 31 * (a % 33))
  {
    hide Mul, Pow;
    ThetaIsPower(31);
    PowerOfPower(E1, 31, a);
    DivMod(a, 33);
    assert 31 * a == 1023 * (a / 33) + 31 * (a % 33);
    PowerReduces(a / 33, 31 * (a % 33));
  }

  lemma ClassIsUnique(y: Elem, a: nat, b: nat)
    requires HasClass(y, a) && HasClass(y, b) && y != 0
    ensures a % 33 == b % 33
  {
    hide Frob, Mul, Pow;
    ThetaPower(a);
    ThetaPower(b);
    MulCommutes(Pow(THETA, a), y);
    MulCommutes(Pow(THETA, b), y);
    if a % 33 < b % 33 { EqualTurns(y, 31 * (b % 33), 31 * (a % 33)); }
    if b % 33 < a % 33 { EqualTurns(y, 31 * (a % 33), 31 * (b % 33)); }
  }
}
