/** The field of 1024 elements in which the Bech32 code has its roots: ten bits modulo e^10 + e^8 + e^5 + e + 1. */
module GF1024 {

  /** Bit i is the coefficient of e^i. */
  type Elem = bv10

  const ZERO: Elem := 0
  const ONE: Elem := 1

  function Xor(x: Elem, y: Elem): Elem { x ^ y }

  /** Times the generator e. */
  function TimesE(x: Elem): Elem { Xor(Doubled(x), Pick(Top(x), 0x123)) }

  function Doubled(x: Elem): Elem { x << 1 }

  predicate Top(x: Elem) { x & 512 != 0 }

  function Pick(bit: bool, x: Elem): Elem { if bit then x else 0 }

  function Sum5(a: Elem, b: Elem, c: Elem, d: Elem, e: Elem): Elem { Xor(Xor(Xor(Xor(a, b), c), d), e) }

  /** e^k, for k up to 9. */
  function Unit(k: nat): Elem {
    if k == 0 then 1 else if k == 1 then 2 else if k == 2 then 4 else if k == 3 then 8 else if k == 4 then 16
    else if k == 5 then 32 else if k == 6 then 64 else if k == 7 then 128 else if k == 8 then 256 else 512
  }

  function BitAt(x: Elem, k: nat): bool { x & Unit(k) != 0 }

  /** x times the bits of y from position k on: double and add. */
  function MulFrom(x: Elem, y: Elem, k: nat): Elem
    decreases 10 - k, x, y
  {
    if k >= 10 then ZERO else Xor(Pick(BitAt(y, k), x), MulFrom(TimesE(x), y, k + 1))
  }

  function Mul(x: Elem, y: Elem): Elem { MulFrom(x, y, 0) }

  // ----- Addition -----

  lemma XorCommutes(x: Elem, y: Elem)
    ensures Xor(x, y) == Xor(y, x)
  {}

  lemma XorZero(x: Elem)
    ensures Xor(x, ZERO) == x && Xor(ZERO, x) == x
  {}

  lemma XorSelf(x: Elem)
    ensures Xor(x, x) == ZERO
  {}

  lemma XorIsZero(x: Elem, y: Elem)
    ensures Xor(x, y) == ZERO <==> x == y
  {}

  lemma XorAssociates(x: Elem, y: Elem, z: Elem)
    ensures Xor(x, Xor(y, z)) == Xor(Xor(x, y), z)
  {}

  lemma XorExchange(a: Elem, b: Elem, c: Elem, d: Elem)
    ensures Xor(Xor(a, b), Xor(c, d)) == Xor(Xor(a, c), Xor(b, d))
  {
    hide Xor;
    XorAssociates(Xor(a, b), c, d);
    XorAssociates(a, b, c);
    XorCommutes(b, c);
    XorAssociates(a, c, b);
    XorAssociates(Xor(a, c), b, d);
  }

  lemma PickXor(b: bool, b': bool, x: Elem)
    ensures Pick(b != b', x) == Xor(Pick(b, x), Pick(b', x))
  {}

  lemma TurnBits(x: Elem, y: Elem)
    ensures Doubled(Xor(x, y)) == Xor(Doubled(x), Doubled(y)) && Top(Xor(x, y)) == (Top(x) != Top(y))
  {}

  lemma TimesELinear(x: Elem, y: Elem)
    ensures TimesE(Xor(x, y)) == Xor(TimesE(x), TimesE(y))
  {
    hide Xor, Doubled, Top, Pick;
    TurnBits(x, y);
    PickXor(Top(x), Top(y), 0x123);
    XorExchange(Doubled(x), Pick(Top(x), 0x123), Doubled(y), Pick(Top(y), 0x123));
  }

  lemma PickLinear(bit: bool, x: Elem, y: Elem)
    ensures Pick(bit, Xor(x, y)) == Xor(Pick(bit, x), Pick(bit, y))
    ensures TimesE(Pick(bit, x)) == Pick(bit, TimesE(x))
  {}

  lemma Sum5Linear(a: Elem, b: Elem, c: Elem, d: Elem, e: Elem, a': Elem, b': Elem, c': Elem, d': Elem, e': Elem)
    ensures Sum5(Xor(a, a'), Xor(b, b'), Xor(c, c'), Xor(d, d'), Xor(e, e'))
            == Xor(Sum5(a, b, c, d, e), Sum5(a', b', c', d', e'))
  {
    hide Xor;
    XorExchange(a, a', b, b');
    XorExchange(Xor(a, b), Xor(a', b'), c, c');
    XorExchange(Xor(Xor(a, b), c), Xor(Xor(a', b'), c'), d, d');
    XorExchange(Xor(Xor(Xor(a, b), c), d), Xor(Xor(Xor(a', b'), c'), d'), e, e');
  }

  // ----- Multiplication is linear and commutes with itself -----

  lemma {:induction false} MulFromLinear(x: Elem, x': Elem, y: Elem, k: nat)
    ensures MulFrom(Xor(x, x'), y, k) == Xor(MulFrom(x, y, k), MulFrom(x', y, k))
    decreases 10 - k
  {
    hide Xor, TimesE, Pick, BitAt;
    if k >= 10 { XorSelf(ZERO); } else {
      MulFromLinear(TimesE(x), TimesE(x'), y, k + 1);
      TimesELinear(x, x');
      var b := BitAt(y, k);
      PickLinear(b, x, x');
      XorExchange(Pick(b, x), Pick(b, x'), MulFrom(TimesE(x), y, k + 1), MulFrom(TimesE(x'), y, k + 1));
    }
  }

  lemma {:induction false} MulFromTimesE(x: Elem, y: Elem, k: nat)
    ensures MulFrom(TimesE(x), y, k) == TimesE(MulFrom(x, y, k))
    decreases 10 - k
  {
    hide Xor, TimesE, Pick, BitAt;
    if k >= 10 { ZeroTurns(); } else {
      MulFromTimesE(TimesE(x), y, k + 1);
      PickLinear(BitAt(y, k), x, x);
      TimesELinear(Pick(BitAt(y, k), x), MulFrom(TimesE(x), y, k + 1));
    }
  }

  lemma ZeroTurns()
    ensures TimesE(ZERO) == ZERO
  {}

  lemma {:induction false} MulFromZero(y: Elem, k: nat)
    ensures MulFrom(ZERO, y, k) == ZERO
    decreases 10 - k
  {
    hide Xor, TimesE, BitAt;
    if k < 10 {
      MulFromZero(y, k + 1);
      ZeroTurns();
      XorSelf(ZERO);
    }
  }

  lemma MulLinear(x: Elem, x': Elem, y: Elem)
    ensures Mul(Xor(x, x'), y) == Xor(Mul(x, y), Mul(x', y))
  {
    hide Xor, MulFrom;
    MulFromLinear(x, x', y, 0);
  }

  lemma ZeroTimes(y: Elem)
    ensures Mul(ZERO, y) == ZERO
  {
    hide MulFrom;
    MulFromZero(y, 0);
  }

  lemma MulPick(bit: bool, x: Elem, y: Elem)
    ensures Mul(Pick(bit, x), y) == Pick(bit, Mul(x, y))
  {
    hide Mul;
    ZeroTimes(y);
  }

  lemma MulSum5(a: Elem, b: Elem, c: Elem, d: Elem, e: Elem, y: Elem)
    ensures Mul(Sum5(a, b, c, d, e), y) == Sum5(Mul(a, y), Mul(b, y), Mul(c, y), Mul(d, y), Mul(e, y))
  {
    hide Xor, Mul;
    MulLinear(a, b, y);
    MulLinear(Xor(a, b), c, y);
    MulLinear(Xor(Xor(a, b), c), d, y);
    MulLinear(Xor(Xor(Xor(a, b), c), d), e, y);
  }

  /** Multiplications by y and by z commute: both are sums of powers of TimesE. */
  lemma {:induction false} MulFromSwap(x: Elem, y: Elem, z: Elem, k: nat)
    ensures Mul(MulFrom(x, z, k), y) == MulFrom(Mul(x, y), z, k)
    decreases 10 - k
  {
    hide Xor, TimesE, BitAt, Mul, Pick;
    if k >= 10 { ZeroTimes(y); } else {
      MulFromSwap(TimesE(x), y, z, k + 1);
      TurnedTimes(x, y);
      MulPick(BitAt(z, k), x, y);
      MulLinear(Pick(BitAt(z, k), x), MulFrom(TimesE(x), z, k + 1), y);
    }
  }

  lemma TurnedTimes(x: Elem, y: Elem)
    ensures Mul(TimesE(x), y) == TimesE(Mul(x, y))
  {
    hide MulFrom, TimesE;
    MulFromTimesE(x, y, 0);
  }

  lemma MulSwap(x: Elem, y: Elem, z: Elem)
    ensures Mul(Mul(x, z), y) == Mul(Mul(x, y), z)
  {
    hide MulFrom;
    MulFromSwap(x, y, z, 0);
  }

  // ----- One -----

  lemma UnitTurns(k: nat)
    requires k < 9
    ensures TimesE(Unit(k)) == Unit(k + 1)
  {}

  /** The bits from position k on. */
  function Mask(k: nat): Elem {
    if k == 0 then 0x3ff else if k == 1 then 0x3fe else if k == 2 then 0x3fc else if k == 3 then 0x3f8
        else if k == 4 then 0x3f0
    else if k == 5 then 0x3e0 else if k == 6 then 0x3c0 else if k == 7 then 0x380 else if k == 8 then 0x300
    else if k == 9 then 0x200 else 0
  }

  function From(x: Elem, k: nat): Elem { x & Mask(k) }

  lemma MaskStep(k: nat)
    requires k < 10
    ensures Unit(k) ^ Mask(k + 1) == Mask(k)
  {}

  lemma PickUnit(x: Elem, k: nat)
    requires k < 10
    ensures Pick(BitAt(x, k), Unit(k)) == x & Unit(k)
  {
    SingleBits(x);
  }

  lemma SingleBits(x: Elem)
    ensures (x & 1 == 0 || x & 1 == 1) && (x & 2 == 0 || x & 2 == 2) && (x & 4 == 0 || x & 4 == 4)
    ensures (x & 8 == 0 || x & 8 == 8) && (x & 16 == 0 || x & 16 == 16) && (x & 32 == 0 || x & 32 == 32)
    ensures (x & 64 == 0 || x & 64 == 64) && (x & 128 == 0 || x & 128 == 128) && (x & 256 == 0 || x & 256 == 256)
    ensures x & 512 == 0 || x & 512 == 512
  {}

  lemma MaskXor(x: Elem, a: Elem, b: Elem)
    ensures (x & a) ^ (x & b) == x & (a ^ b)
  {}

  lemma FromStep(x: Elem, k: nat)
    requires k < 10
    ensures Xor(Pick(BitAt(x, k), Unit(k)), From(x, k + 1)) == From(x, k)
  {
    hide Unit, Mask, BitAt, Pick;
    MaskStep(k);
    PickUnit(x, k);
    MaskXor(x, Unit(k), Mask(k + 1));
  }

  lemma {:induction false} UnitTimes(x: Elem, k: nat)
    requires k <= 9
    ensures MulFrom(Unit(k), x, k) == From(x, k)
    decreases 9 - k
  {
    hide Xor, TimesE, BitAt, Unit, From;
    FromStep(x, k);
    if k < 9 {
      UnitTurns(k);
      UnitTimes(x, k + 1);
    } else {
      NothingLeft(x);
    }
  }

  lemma NothingLeft(x: Elem)
    ensures From(x, 10) == ZERO
  {}

  lemma AllLeft(x: Elem)
    ensures From(x, 0) == x && Unit(0) == ONE
  {}

  lemma OneTimes(x: Elem)
    ensures Mul(ONE, x) == x
  {
    hide MulFrom, From, Unit;
    AllLeft(x);
    UnitTimes(x, 0);
  }

  lemma MulCommutes(x: Elem, y: Elem)
    ensures Mul(x, y) == Mul(y, x)
  {
    hide Mul;
    OneTimes(x);
    OneTimes(y);
    MulSwap(ONE, y, x);
  }

  lemma MulAssociates(x: Elem, y: Elem, z: Elem)
    ensures Mul(x, Mul(y, z)) == Mul(Mul(x, y), z)
  {
    hide Mul;
    MulCommutes(x, y);
    MulSwap(y, z, x);
    MulCommutes(x, Mul(y, z));
  }
}
