/** The Bech32 checksum as a linear code: its steps on 30-bit words and their values at roots of the generator. */
module Bech32Code {
  import opened GF1024

  type Symbol = bv5

  /** The checksum word: six five-bit groups, the coefficients of a polynomial, highest first. */
  type Word = bv30

  function SXor(x: Symbol, y: Symbol): Symbol { x ^ y }

  function Add(p: Word, q: Word): Word { p ^ q }

  function Choose(bit: bool, k: Word): Word { if bit then k else 0 }

  predicate Has(x: Symbol, bit: Symbol) { x & bit != 0 }

  /** The words whose bit is set, added up. */
  function Combine(c: Symbol, k0: Word, k1: Word, k2: Word, k3: Word, k4: Word): Word {
    Add(Add(Add(Add(Choose(Has(c, 1), k0), Choose(Has(c, 2), k1)), Choose(Has(c, 4), k2)), Choose(Has(c, 8), k3)),
        Choose(Has(c, 16), k4))
  }

  // The generator without its leading term, times 1, a, a^2, a^3 and a^4.
  const K0: Word := 0x3b6a57b2
  const K1: Word := 0x26508e6d
  const K2: Word := 0x1ea119fa
  const K3: Word := 0x3d4233dd
  const K4: Word := 0x2a1462b3

  /** What the bits of the group shifted out add back. */
  function Feedback(c: Symbol): Word { Combine(c, K0, K1, K2, K3, K4) }

  function High(c: Word): Symbol { (c >> 25) as bv5 }

  function Shifted(c: Word, v: Symbol): Word { ((c & 0x1ffffff) << 5) ^ v as Word }

  /** One symbol fed into the checksum. */
  function Step(c: Word, v: Symbol): Word { Add(Shifted(c, v), Feedback(High(c))) }

  function Run(c: Word, v: seq<Symbol>): Word
    decreases |v|
  {
    if v == [] then c else Step(Run(c, v[..|v| - 1]), v[|v| - 1])
  }

  // ----- Linearity -----

  lemma AddCommutes(p: Word, q: Word)
    ensures Add(p, q) == Add(q, p)
  {}

  lemma AddAssociates(p: Word, q: Word, r: Word)
    ensures Add(Add(p, q), r) == Add(p, Add(q, r))
  {}

  lemma AddNil(p: Word)
    ensures Add(p, 0) == p && Add(0, p) == p && Add(p, p) == 0
  {}

  lemma AddIsNil(p: Word, q: Word)
    ensures Add(p, q) == 0 <==> p == q
  {}

  lemma SXorIsZero(x: Symbol, y: Symbol)
    ensures SXor(x, y) == 0 <==> x == y
  {}

  lemma SXorNeutral(x: Symbol)
    ensures SXor(x, 0) == x && SXor(0, x) == x
  {}

  lemma AddExchange(a: Word, b: Word, c: Word, d: Word)
    ensures Add(Add(a, b), Add(c, d)) == Add(Add(a, c), Add(b, d))
  {
    hide Add;
    AddAssociates(a, b, Add(c, d));
    AddAssociates(b, c, d);
    AddCommutes(b, c);
    AddAssociates(c, b, d);
    AddAssociates(a, c, Add(b, d));
  }

  lemma ChooseXor(b: bool, b': bool, k: Word)
    ensures Choose(b != b', k) == Add(Choose(b, k), Choose(b', k))
  {
    hide Add;
    AddNil(k);
    AddNil(0);
  }

  lemma HasXor(x: Symbol, y: Symbol)
    ensures Has(SXor(x, y), 1) == (Has(x, 1) != Has(y, 1)) && Has(SXor(x, y), 2) == (Has(x, 2) != Has(y, 2))
    ensures Has(SXor(x, y), 4) == (Has(x, 4) != Has(y, 4)) && Has(SXor(x, y), 8) == (Has(x, 8) != Has(y, 8))
    ensures Has(SXor(x, y), 16) == (Has(x, 16) != Has(y, 16))
  {}

  lemma SumLinear(a: Word, b: Word, c: Word, d: Word, e: Word, a': Word, b': Word, c': Word, d': Word, e': Word)
    ensures Add(Add(Add(Add(Add(a, a'), Add(b, b')), Add(c, c')), Add(d, d')), Add(e, e'))
            == Add(Add(Add(Add(Add(a, b), c), d), e), Add(Add(Add(Add(a', b'), c'), d'), e'))
  {
    hide Add;
    AddExchange(a, a', b, b');
    AddExchange(Add(a, b), Add(a', b'), c, c');
    AddExchange(Add(Add(a, b), c), Add(Add(a', b'), c'), d, d');
    AddExchange(Add(Add(Add(a, b), c), d), Add(Add(Add(a', b'), c'), d'), e, e');
  }

  predicate OneBit(bit: Symbol) { bit == 1 || bit == 2 || bit == 4 || bit == 8 || bit == 16 }

  lemma ChooseLinear(x: Symbol, y: Symbol, bit: Symbol, k: Word)
    requires OneBit(bit)
    ensures Choose(Has(SXor(x, y), bit), k) == Add(Choose(Has(x, bit), k), Choose(Has(y, bit), k))
  {
    HasXor(x, y);
    hide Add, Choose, SXor, Has;
    ChooseXor(Has(x, bit), Has(y, bit), k);
  }

  lemma CombineLinear(x: Symbol, y: Symbol, k0: Word, k1: Word, k2: Word, k3: Word, k4: Word)
    ensures Combine(SXor(x, y), k0, k1, k2, k3, k4)
            == Add(Combine(x, k0, k1, k2, k3, k4), Combine(y, k0, k1, k2, k3, k4))
  {
    hide Add, Choose, SXor, Has;
    ChooseLinear(x, y, 1, k0);
    ChooseLinear(x, y, 2, k1);
    ChooseLinear(x, y, 4, k2);
    ChooseLinear(x, y, 8, k3);
    ChooseLinear(x, y, 16, k4);
    SumLinear(Choose(Has(x, 1), k0), Choose(Has(x, 2), k1), Choose(Has(x, 4), k2), Choose(Has(x, 8), k3),
        Choose(Has(x, 16), k4),
              Choose(Has(y, 1), k0), Choose(Has(y, 2), k1), Choose(Has(y, 4), k2), Choose(Has(y, 8), k3),
                  Choose(Has(y, 16), k4));
  }

  lemma HighLinear(c: Word, d: Word)
    ensures High(Add(c, d)) == SXor(High(c), High(d))
  {}

  lemma ShiftedLinear(c: Word, d: Word, v: Symbol, w: Symbol)
    ensures Shifted(Add(c, d), SXor(v, w)) == Add(Shifted(c, v), Shifted(d, w))
  {}

  lemma StepLinear(c: Word, d: Word, v: Symbol, w: Symbol)
    ensures Step(Add(c, d), SXor(v, w)) == Add(Step(c, v), Step(d, w))
  {
    hide Combine, SXor, Add, High, Shifted;
    HighLinear(c, d);
    ShiftedLinear(c, d, v, w);
    CombineLinear(High(c), High(d), K0, K1, K2, K3, K4);
    AddExchange(Shifted(c, v), Shifted(d, w), Feedback(High(c)), Feedback(High(d)));
  }

  function Difference(v: seq<Symbol>, w: seq<Symbol>): (d: seq<Symbol>)
    requires |v| == |w|
    ensures |d| == |v|
  {
    seq(|v|, i requires 0 <= i < |v| => SXor(v[i], w[i]))
  }

  lemma {:induction false} RunLinear(p: Word, q: Word, v: seq<Symbol>, w: seq<Symbol>)
    requires |v| == |w|
    ensures Run(Add(p, q), Difference(v, w)) == Add(Run(p, v), Run(q, w))
    decreases |v|
  {
    hide Step, Add, SXor;
    if v != [] {
      var n := |v| - 1;
      RunLinear(p, q, v[..n], w[..n]);
      assert Difference(v, w)[..n] == Difference(v[..n], w[..n]);
      StepLinear(Run(p, v[..n]), Run(q, w[..n]), v[n], w[n]);
    }
  }

  /** Two inputs of one length have the same checksum exactly when their difference runs from zero to zero. */
  lemma SameChecksum(p: Word, v: seq<Symbol>, w: seq<Symbol>)
    requires |v| == |w|
    ensures Run(p, v) == Run(p, w) <==> Run(0, Difference(v, w)) == 0
  {
    hide Run, Add, Difference;
    RunLinear(p, p, v, w);
    AddIsNil(p, p);
    AddIsNil(Run(p, v), Run(p, w));
  }

  // ----- Symbols as elements of the larger field -----

  // Powers of w = e + e^2 + e^3, the image of a; w^5 = w^3 + 1.
  const W1: Elem := 14
  const W2: Elem := 84
  const W3: Elem := 856
  const W4: Elem := 191

  function Weigh(x: Symbol, w0: Elem, w1: Elem, w2: Elem, w3: Elem, w4: Elem): Elem {
    Sum5(Pick(Has(x, 1), w0), Pick(Has(x, 2), w1), Pick(Has(x, 4), w2), Pick(Has(x, 8), w3), Pick(Has(x, 16), w4))
  }

  function Emb(x: Symbol): Elem { Weigh(x, ONE, W1, W2, W3, W4) }

  lemma PickSymbol(x: Symbol, y: Symbol, bit: Symbol, w: Elem)
    requires OneBit(bit)
    ensures Pick(Has(SXor(x, y), bit), w) == Xor(Pick(Has(x, bit), w), Pick(Has(y, bit), w))
  {
    HasXor(x, y);
    hide Xor, Pick, SXor, Has;
    PickXor(Has(x, bit), Has(y, bit), w);
  }

  lemma WeighLinear(x: Symbol, y: Symbol, w0: Elem, w1: Elem, w2: Elem, w3: Elem, w4: Elem)
    ensures Weigh(SXor(x, y), w0, w1, w2, w3, w4) == Xor(Weigh(x, w0, w1, w2, w3, w4), Weigh(y, w0, w1, w2, w3, w4))
  {
    hide Xor, Pick, Sum5, SXor, Has;
    PickSymbol(x, y, 1, w0);
    PickSymbol(x, y, 2, w1);
    PickSymbol(x, y, 4, w2);
    PickSymbol(x, y, 8, w3);
    PickSymbol(x, y, 16, w4);
    Sum5Linear(Pick(Has(x, 1), w0), Pick(Has(x, 2), w1), Pick(Has(x, 4), w2), Pick(Has(x, 8), w3), Pick(Has(x, 16), w4),
               Pick(Has(y, 1), w0), Pick(Has(y, 2), w1), Pick(Has(y, 4), w2), Pick(Has(y, 8), w3),
                   Pick(Has(y, 16), w4));
  }

  lemma EmbXor(x: Symbol, y: Symbol)
    ensures Emb(SXor(x, y)) == Xor(Emb(x), Emb(y))
  {
    hide Weigh, Xor, SXor;
    WeighLinear(x, y, ONE, W1, W2, W3, W4);
  }

  lemma EmbIsZero(x: Symbol)
    ensures Emb(x) == 0 <==> x == 0
  {}

  // ----- Evaluation at a root of the generator -----

  function Group1(c: Word): Symbol { ((c >> 20) & 31) as bv5 }
  function Group2(c: Word): Symbol { ((c >> 15) & 31) as bv5 }
  function Group3(c: Word): Symbol { ((c >> 10) & 31) as bv5 }
  function Group4(c: Word): Symbol { ((c >> 5) & 31) as bv5 }
  function Low(c: Word): Symbol { (c & 31) as bv5 }

  function Horner(a: Elem, x: Symbol, r: Elem): Elem { Xor(Mul(a, r), Emb(x)) }

  /** The value at r of a x^6 + c(x). */
  function Value(a: Elem, c: Word, r: Elem): Elem {
    var top := Horner(Horner(Horner(a, High(c), r), Group1(c), r), Group2(c), r);
    Horner(Horner(Horner(top, Group3(c), r), Group4(c), r), Low(c), r)
  }

  function Eval(c: Word, r: Elem): Elem { Value(0, c, r) }

  /** r is a root of the generator. */
  predicate IsRoot(r: Elem) { Value(ONE, K0, r) == 0 }

  // ----- The five constants -----

  /** Times a in the field of 32 elements, where a^5 = a^3 + 1. */
  function TimesA(x: Symbol): Symbol { (x << 1) ^ (if Has(x, 16) then 9 else 0) }

  lemma EmbMoves(x: Symbol)
    ensures Emb(TimesA(x)) == Weigh(x, W1, W2, W3, W4, Xor(ONE, W3))
  {}

  lemma PowersOfW()
    ensures Mul(ONE, W1) == W1 && Mul(W1, W1) == W2 && Mul(W2, W1) == W3 && Mul(W3, W1) == W4
    ensures Mul(W4, W1) == Xor(ONE, W3)
  {}

  lemma EmbTimesA(x: Symbol)
    ensures Emb(TimesA(x)) == Mul(Emb(x), W1)
  {
    hide Mul, Sum5, Xor, Pick, Has, TimesA;
    EmbMoves(x);
    PowersOfW();
    MulSum5(Pick(Has(x, 1), ONE), Pick(Has(x, 2), W1), Pick(Has(x, 4), W2), Pick(Has(x, 8), W3), Pick(Has(x, 16), W4),
        W1);
    MulPick(Has(x, 1), ONE, W1);
    MulPick(Has(x, 2), W1, W1);
    MulPick(Has(x, 4), W2, W1);
    MulPick(Has(x, 8), W3, W1);
    MulPick(Has(x, 16), W4, W1);
  }

  /** d is a times c, group by group. */
  predicate IsTimesA(c: Word, d: Word) {
    High(d) == TimesA(High(c)) && Group1(d) == TimesA(Group1(c)) && Group2(d) == TimesA(Group2(c)) &&
    Group3(d) == TimesA(Group3(c)) && Group4(d) == TimesA(Group4(c)) && Low(d) == TimesA(Low(c))
  }

  /** Each of the source's constants is a times the one before. */
  lemma ConstantsAreMultiples()
    ensures IsTimesA(K0, K1) && IsTimesA(K1, K2) && IsTimesA(K2, K3) && IsTimesA(K3, K4)
  {}

  lemma HornerScales(a: Elem, x: Symbol, r: Elem)
    ensures Horner(Mul(a, W1), TimesA(x), r) == Mul(Horner(a, x, r), W1)
  {
    hide Mul, Xor, Emb, TimesA;
    EmbTimesA(x);
    MulAssociates(a, W1, r);
    MulCommutes(W1, r);
    MulAssociates(a, r, W1);
    MulLinear(Mul(a, r), Emb(x), W1);
  }

  lemma ValueScales(a: Elem, c: Word, d: Word, r: Elem)
    requires IsTimesA(c, d)
    ensures Value(Mul(a, W1), d, r) == Mul(Value(a, c, r), W1)
  {
    hide Mul, Horner, TimesA, High, Group1, Group2, Group3, Group4, Low;
    var h0 := Horner(a, High(c), r);
    var h1 := Horner(h0, Group1(c), r);
    var h2 := Horner(h1, Group2(c), r);
    var h3 := Horner(h2, Group3(c), r);
    var h4 := Horner(h3, Group4(c), r);
    HornerScales(a, High(c), r);
    HornerScales(h0, Group1(c), r);
    HornerScales(h1, Group2(c), r);
    HornerScales(h2, Group3(c), r);
    HornerScales(h3, Group4(c), r);
    HornerScales(h4, Low(c), r);
  }

  /** A root of the generator is a root of every constant with its leading term. */
  lemma RootOfGenerator(r: Elem)
    requires IsRoot(r)
    ensures Value(W1, K1, r) == 0 && Value(W2, K2, r) == 0 && Value(W3, K3, r) == 0 && Value(W4, K4, r) == 0
  {
    hide Value, Mul, IsTimesA, Xor;
    ConstantsAreMultiples();
    PowersOfW();
    ZeroTimes(W1);
    ValueScales(ONE, K0, K1, r);
    ValueScales(W1, K1, K2, r);
    ValueScales(W2, K2, K3, r);
    ValueScales(W3, K3, K4, r);
  }

  // ----- Linearity of the value -----

  lemma Group1Linear(c: Word, d: Word)
    ensures Group1(Add(c, d)) == SXor(Group1(c), Group1(d))
  {}

  lemma Group2Linear(c: Word, d: Word)
    ensures Group2(Add(c, d)) == SXor(Group2(c), Group2(d))
  {}

  lemma Group3Linear(c: Word, d: Word)
    ensures Group3(Add(c, d)) == SXor(Group3(c), Group3(d))
  {}

  lemma Group4Linear(c: Word, d: Word)
    ensures Group4(Add(c, d)) == SXor(Group4(c), Group4(d))
  {}

  lemma LowLinear(c: Word, d: Word)
    ensures Low(Add(c, d)) == SXor(Low(c), Low(d))
  {}

  lemma HornerLinear(a: Elem, a': Elem, x: Symbol, y: Symbol, r: Elem)
    ensures Horner(Xor(a, a'), SXor(x, y), r) == Xor(Horner(a, x, r), Horner(a', y, r))
  {
    hide Xor, Mul, Emb, SXor;
    MulLinear(a, a', r);
    EmbXor(x, y);
    XorExchange(Mul(a, r), Mul(a', r), Emb(x), Emb(y));
  }

  lemma ValueLinear(a: Elem, c: Word, a': Elem, d: Word, r: Elem)
    ensures Value(Xor(a, a'), Add(c, d), r) == Xor(Value(a, c, r), Value(a', d, r))
  {
    hide Xor, Horner, SXor, Add, High, Group1, Group2, Group3, Group4, Low;
    HighLinear(c, d);
    Group1Linear(c, d);
    Group2Linear(c, d);
    Group3Linear(c, d);
    Group4Linear(c, d);
    LowLinear(c, d);
    var h0, g0 := Horner(a, High(c), r), Horner(a', High(d), r);
    var h1, g1 := Horner(h0, Group1(c), r), Horner(g0, Group1(d), r);
    var h2, g2 := Horner(h1, Group2(c), r), Horner(g1, Group2(d), r);
    var h3, g3 := Horner(h2, Group3(c), r), Horner(g2, Group3(d), r);
    var h4, g4 := Horner(h3, Group4(c), r), Horner(g3, Group4(d), r);
    HornerLinear(a, a', High(c), High(d), r);
    HornerLinear(h0, g0, Group1(c), Group1(d), r);
    HornerLinear(h1, g1, Group2(c), Group2(d), r);
    HornerLinear(h2, g2, Group3(c), Group3(d), r);
    HornerLinear(h3, g3, Group4(c), Group4(d), r);
    HornerLinear(h4, g4, Low(c), Low(d), r);
  }

  lemma ZeroVanishes(r: Elem)
    ensures Value(0, 0, r) == 0
  {
    hide Value, Xor, Add;
    ValueLinear(0, 0, 0, 0, r);
    XorSelf(0);
    AddNil(0);
    XorSelf(Value(0, 0, r));
  }

  /** Taking the shifted-out group off and adding its feedback leaves the value at a root alone. */
  lemma FeedbackVanishes(c: Symbol, r: Elem)
    requires IsRoot(r)
    ensures Value(Emb(c), Feedback(c), r) == 0
  {
    hide Value, Xor, Add, Has;
    RootOfGenerator(r);
    ZeroVanishes(r);
    XorSelf(0);
    var w0, w1, w2, w3, w4 := Pick(Has(c, 1), ONE), Pick(Has(c, 2), W1), Pick(Has(c, 4), W2), Pick(Has(c, 8), W3),
        Pick(Has(c, 16), W4);
    var p0, p1, p2, p3, p4 := Choose(Has(c, 1), K0), Choose(Has(c, 2), K1), Choose(Has(c, 4), K2),
        Choose(Has(c, 8), K3), Choose(Has(c, 16), K4);
    ValueLinear(w0, p0, w1, p1, r);
    ValueLinear(Xor(w0, w1), Add(p0, p1), w2, p2, r);
    ValueLinear(Xor(Xor(w0, w1), w2), Add(Add(p0, p1), p2), w3, p3, r);
    ValueLinear(Xor(Xor(Xor(w0, w1), w2), w3), Add(Add(Add(p0, p1), p2), p3), w4, p4, r);
  }

  lemma ShiftedGroups(c: Word, v: Symbol)
    ensures High(Shifted(c, v)) == Group1(c) && Group1(Shifted(c, v)) == Group2(c) && Group2(Shifted(c, v)) == Group3(c)
    ensures Group3(Shifted(c, v)) == Group4(c) && Group4(Shifted(c, v)) == Low(c) && Low(Shifted(c, v)) == v
  {}

  lemma ShiftedValue(c: Word, v: Symbol, r: Elem)
    ensures Value(Emb(High(c)), Shifted(c, v), r) == Horner(Eval(c, r), v, r)
  {
    hide Mul, Xor, Emb, Shifted, High, Group1, Group2, Group3, Group4, Low;
    ShiftedGroups(c, v);
    ZeroTimes(r);
    XorZero(Emb(High(c)));
  }

  /** At a root, feeding in a symbol multiplies by the root and adds the symbol. */
  lemma EvalStep(c: Word, v: Symbol, r: Elem)
    requires IsRoot(r)
    ensures Eval(Step(c, v), r) == Horner(Eval(c, r), v, r)
  {
    hide Value, Feedback, Add, Xor, Emb, Horner, High, Shifted, IsRoot;
    var shifted, fed := Shifted(c, v), Feedback(High(c));
    FeedbackVanishes(High(c), r);
    ValueLinear(0, Add(shifted, fed), Emb(High(c)), fed, r);
    AddAssociates(shifted, fed, fed);
    AddNil(fed);
    AddNil(shifted);
    XorZero(Emb(High(c)));
    XorZero(Value(0, Add(shifted, fed), r));
    ShiftedValue(c, v, r);
  }
}
