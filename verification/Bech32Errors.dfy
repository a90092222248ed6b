/** Which changes of a word sequence the Bech32 checksum always notices. */
module Bech32Errors {
  import opened GF1024
  import opened GF1024Order
  import opened Bech32Code

  // ----- Three roots of the generator, each e times the one before -----

  const R1: Elem := 1008
  const R2: Elem := 707
  const R3: Elem := 165
  const R1INV: Elem := 733
  const E1INV: Elem := 657

  lemma GeneratorUnit() ensures Mul(E1, E1INV) == ONE {}
  lemma SecondRoot() ensures Mul(R1, E1) == R2 {}
  lemma ThirdRoot() ensures Mul(R2, E1) == R3 {}
  lemma RootUnit() ensures Mul(R1, R1INV) == ONE {}

  lemma GroupsOfGenerator()
    ensures High(K0) == 29 && Group1(K0) == 22 && Group2(K0) == 20 && Group3(K0) == 21 && Group4(K0) == 29
    ensures Low(K0) == 18
  {}

  lemma Root1High() ensures Horner(Horner(Horner(ONE, 29, R1), 22, R1), 20, R1) == 708 {}
  lemma Root1Low() ensures Horner(Horner(Horner(708, 21, R1), 29, R1), 18, R1) == 0 {}
  lemma Root2High() ensures Horner(Horner(Horner(ONE, 29, R2), 22, R2), 20, R2) == 745 {}
  lemma Root2Low() ensures Horner(Horner(Horner(745, 21, R2), 29, R2), 18, R2) == 0 {}
  lemma Root3High() ensures Horner(Horner(Horner(ONE, 29, R3), 22, R3), 20, R3) == 204 {}
  lemma Root3Low() ensures Horner(Horner(Horner(204, 21, R3), 29, R3), 18, R3) == 0 {}

  lemma AreRoots()
    ensures IsRoot(R1) && IsRoot(R2) && IsRoot(R3)
  {
    hide Horner;
    GroupsOfGenerator();
    hide High, Group1, Group2, Group3, Group4, Low;
    Root1High();
    Root1Low();
    Root2High();
    Root2Low();
    Root3High();
    Root3Low();
  }

  // ----- Syndromes -----

  /** The value at r of the polynomial with these coefficients, highest first. */
  function Syndrome(v: seq<Symbol>, r: Elem): Elem {
    if v == [] then 0 else Horner(Syndrome(v[..|v| - 1], r), v[|v| - 1], r)
  }

  lemma {:induction false} EvalRun(v: seq<Symbol>, r: Elem)
    requires IsRoot(r)
    ensures Eval(Run(0, v), r) == Syndrome(v, r)
    decreases |v|
  {
    hide Eval, Step, Horner, IsRoot;
    if v == [] { NilEval(r); } else {
      EvalRun(v[..|v| - 1], r);
      EvalStep(Run(0, v[..|v| - 1]), v[|v| - 1], r);
    }
  }

  lemma NilEval(r: Elem)
    ensures Eval(0, r) == 0
  {
    hide Value;
    ZeroVanishes(r);
  }

  /** What a coefficient at position i contributes to the first n. */
  function Term(x: Elem, r: Elem, i: nat, n: nat): Elem { if i < n then Mul(x, Pow(r, n - 1 - i)) else 0 }

  lemma TermNext(x: Elem, r: Elem, i: nat, n: nat)
    ensures Term(x, r, i, n + 1) == Xor(Mul(Term(x, r, i, n), r), Pick(i == n, x))
  {
    hide Mul, Xor;
    ZeroTimes(r);
    XorZero(x);
    XorZero(0);
    if i < n {
      MulAssociates(x, Pow(r, n - 1 - i), r);
      XorZero(Mul(Term(x, r, i, n), r));
    } else if i == n {
      TimesOne(x);
    }
  }

  predicate ZeroExcept(d: seq<Symbol>, i: nat, j: nat, k: nat) {
    i < j < k < |d| && forall p :: 0 <= p < |d| && p != i && p != j && p != k ==> d[p] == 0
  }

  lemma NextCoefficient(d: seq<Symbol>, i: nat, j: nat, k: nat, n: nat)
    requires ZeroExcept(d, i, j, k) && n < |d|
    ensures Xor(Xor(Pick(i == n, Emb(d[i])), Pick(j == n, Emb(d[j]))), Pick(k == n, Emb(d[k]))) == Emb(d[n])
  {
    hide Xor, Emb;
    EmbIsZero(0);
    XorZero(0);
    XorZero(Emb(d[n]));
  }

  /** The syndrome of a sequence with three nonzero places is the sum of three terms. */
  lemma {:induction false} Sparse(d: seq<Symbol>, r: Elem, i: nat, j: nat, k: nat, n: nat)
    requires ZeroExcept(d, i, j, k) && n <= |d|
    ensures Syndrome(d[..n], r)
            == Xor(Xor(Term(Emb(d[i]), r, i, n), Term(Emb(d[j]), r, j, n)), Term(Emb(d[k]), r, k, n))
  {
    hide Mul, Xor, Emb, Pick;
    if n == 0 { XorZero(0); } else {
      var m := n - 1;
      Sparse(d, r, i, j, k, m);
      assert d[..n][..m] == d[..m];
      var x, y, z := Emb(d[i]), Emb(d[j]), Emb(d[k]);
      NextCoefficient(d, i, j, k, m);
      TermNext(x, r, i, m);
      TermNext(y, r, j, m);
      TermNext(z, r, k, m);
      hide Term;
      var tx, ty, tz := Term(x, r, i, m), Term(y, r, j, m), Term(z, r, k, m);
      MulLinear(Xor(tx, ty), tz, r);
      MulLinear(tx, ty, r);
      XorExchange(Mul(tx, r), Mul(ty, r), Pick(i == m, x), Pick(j == m, y));
      XorExchange(Xor(Mul(tx, r), Mul(ty, r)), Mul(tz, r), Xor(Pick(i == m, x), Pick(j == m, y)), Pick(k == m, z));
    }
  }

  // ----- Three terms cannot cancel at three consecutive roots -----

  lemma {:induction false} CancelPower(x: Elem, u: Elem, v: Elem, n: nat)
    requires Mul(u, v) == ONE && Mul(x, Pow(u, n)) == 0
    ensures x == 0
  {
    hide Mul;
    if n == 0 { TimesOne(x); } else {
      var y := Mul(x, Pow(u, n - 1));
      MulAssociates(x, Pow(u, n - 1), u);
      MulAssociates(y, u, v);
      TimesOne(y);
      ZeroTimes(v);
      CancelPower(x, u, v, n - 1);
    }
  }

  lemma EqualTurns(t: Elem, a: nat, b: nat)
    requires b < a <= b + 1022 && Mul(t, Pow(E1, a)) == Mul(t, Pow(E1, b))
    ensures t == 0
  {
    hide Mul, Pow;
    PowAdd(E1, b, a - b);
    MulAssociates(t, Pow(E1, b), Pow(E1, a - b));
    OrderOfE(Mul(t, Pow(E1, b)), a - b);
    GeneratorUnit();
    CancelPower(t, E1, E1INV, b);
  }

  lemma MoveTerm(x: Elem, y: Elem, x': Elem, y': Elem)
    requires Xor(Xor(x, y), Xor(x', y')) == 0
    ensures Xor(x, x') == Xor(y, y')
  {
    hide Xor;
    XorExchange(x, y, x', y');
    XorIsZero(Xor(x, x'), Xor(y, y'));
  }

  /** x A^2 + x C^2 = (x A + x C) A + (x A + x C) C. */
  lemma SquareDifference(x: Elem, a: Elem, c: Elem)
    ensures Xor(Mul(Mul(x, a), a), Mul(Mul(x, c), c))
            == Xor(Mul(Xor(Mul(x, a), Mul(x, c)), a), Mul(Xor(Mul(x, a), Mul(x, c)), c))
  {
    hide Mul, Xor;
    var p, q := Mul(x, a), Mul(x, c);
    MulLinear(p, q, a);
    MulLinear(p, q, c);
    MulSwap(x, a, c);
    var m := Mul(p, c);
    XorExchange(Mul(p, a), m, m, Mul(q, c));
    XorSelf(m);
    XorZero(Xor(Mul(p, a), Mul(q, c)));
    MiddleCancels(Mul(p, a), m, Mul(q, c));
  }

  lemma MiddleCancels(a: Elem, m: Elem, c: Elem)
    ensures Xor(Xor(a, m), Xor(m, c)) == Xor(a, c)
  {
    hide Xor;
    XorAssociates(Xor(a, m), m, c);
    XorAssociates(a, m, m);
    XorSelf(m);
    XorZero(a);
  }

  lemma Vandermonde(x: Elem, y: Elem, a: nat, b: nat, c: nat)
    requires c < b < a <= c + 1022
    requires var z, fa, fb, fc := Xor(x, y), Pow(E1, a), Pow(E1, b), Pow(E1, c);
             Xor(Xor(Mul(x, fa), Mul(y, fb)), Mul(z, fc)) == 0
             && Xor(Xor(Mul(Mul(x, fa), fa), Mul(Mul(y, fb), fb)), Mul(Mul(z, fc), fc)) == 0
    ensures x == y == 0
  {
    hide Mul, Xor, Pow;
    var fa, fb, fc := Pow(E1, a), Pow(E1, b), Pow(E1, c);
    MulLinear(x, y, fc);
    MulLinear(Mul(x, fc), Mul(y, fc), fc);
    MoveTerm(Mul(x, fa), Mul(y, fb), Mul(x, fc), Mul(y, fc));
    MoveTerm(Mul(Mul(x, fa), fa), Mul(Mul(y, fb), fb), Mul(Mul(x, fc), fc), Mul(Mul(y, fc), fc));
    var t := Xor(Mul(x, fa), Mul(x, fc));
    SquareDifference(x, fa, fc);
    SquareDifference(y, fb, fc);
    CancelRight(Mul(t, fa), Mul(t, fb), Mul(t, fc));
    EqualTurns(t, a, b);
    XorIsZero(Mul(x, fa), Mul(x, fc));
    XorIsZero(Mul(y, fb), Mul(y, fc));
    EqualTurns(x, a, c);
    EqualTurns(y, b, c);
  }

  lemma CancelRight(p: Elem, q: Elem, m: Elem)
    requires Xor(p, m) == Xor(q, m)
    ensures p == q
  {
    hide Xor;
    MiddleCancels(p, m, q);
    XorCommutes(q, m);
    XorSelf(Xor(p, m));
    XorIsZero(p, q);
  }

  lemma TermsAtRoots(x: Elem, n: nat)
    ensures Mul(x, Pow(R2, n)) == Mul(Mul(x, Pow(R1, n)), Pow(E1, n))
    ensures Mul(x, Pow(R3, n)) == Mul(Mul(Mul(x, Pow(R1, n)), Pow(E1, n)), Pow(E1, n))
  {
    hide Mul, Pow;
    SecondRoot();
    ThirdRoot();
    PowProduct(R1, E1, n);
    PowProduct(R2, E1, n);
    MulAssociates(x, Pow(R1, n), Pow(E1, n));
    MulAssociates(x, Pow(R2, n), Pow(E1, n));
  }

  /** A difference in at most three places, no two more than 1022 apart, cannot cancel out. */
  lemma ThreePlaces(d: seq<Symbol>, i: nat, j: nat, k: nat)
    requires ZeroExcept(d, i, j, k) && k <= i + 1022 && Run(0, d) == 0
    ensures d[i] == d[j] == d[k] == 0
  {
    hide Mul, Xor, Pow, Emb, Run, IsRoot, Syndrome, Eval;
    var n := |d|;
    var x, y, z := Emb(d[i]), Emb(d[j]), Emb(d[k]);
    var a, b, c := n - 1 - i, n - 1 - j, n - 1 - k;
    assert d[..n] == d;
    AreRoots();
    Vanishing(d, R1, i, j, k);
    Vanishing(d, R2, i, j, k);
    Vanishing(d, R3, i, j, k);
    TermsAtRoots(x, a);
    TermsAtRoots(y, b);
    TermsAtRoots(z, c);
    var x', y', z' := Mul(x, Pow(R1, a)), Mul(y, Pow(R1, b)), Mul(z, Pow(R1, c));
    XorIsZero(Xor(x', y'), z');
    Vandermonde(x', y', a, b, c);
    XorSelf(0);
    RootUnit();
    CancelPower(x, R1, R1INV, a);
    CancelPower(y, R1, R1INV, b);
    CancelPower(z, R1, R1INV, c);
    EmbIsZero(d[i]);
    EmbIsZero(d[j]);
    EmbIsZero(d[k]);
  }

  function ThreeTerms(d: seq<Symbol>, r: Elem, i: nat, j: nat, k: nat): Elem
    requires ZeroExcept(d, i, j, k)
  {
    var n := |d|;
    Xor(Xor(Mul(Emb(d[i]), Pow(r, n - 1 - i)), Mul(Emb(d[j]), Pow(r, n - 1 - j))), Mul(Emb(d[k]), Pow(r, n - 1 - k)))
  }

  lemma TermsOf(d: seq<Symbol>, r: Elem, i: nat, j: nat, k: nat)
    requires ZeroExcept(d, i, j, k) && IsRoot(r)
    ensures Eval(Run(0, d), r) == ThreeTerms(d, r, i, j, k)
  {
    hide Mul, Xor, Pow, Emb, Run, IsRoot, Syndrome, Eval;
    assert d[..|d|] == d;
    EvalRun(d, r);
    Sparse(d, r, i, j, k, |d|);
  }

  lemma Vanishing(d: seq<Symbol>, r: Elem, i: nat, j: nat, k: nat)
    requires ZeroExcept(d, i, j, k) && IsRoot(r) && Run(0, d) == 0
    ensures ThreeTerms(d, r, i, j, k) == 0
  {
    hide Run, IsRoot, Eval, ThreeTerms;
    NilEval(r);
    TermsOf(d, r, i, j, k);
  }

  /** Changing one to three symbols, no two more than 1022 apart, always changes the checksum. */
  lemma DetectsThreeErrors(p: Word, v: seq<Symbol>, w: seq<Symbol>, i: nat, j: nat, k: nat)
    requires |v| == |w| && v != w && i < j < k < |v| && k <= i + 1022
    requires forall q :: 0 <= q < |v| && q != i && q != j && q != k ==> v[q] == w[q]
    ensures Run(p, v) != Run(p, w)
  {
    hide Run, SXor;
    var d := Difference(v, w);
    forall q | 0 <= q < |v| ensures d[q] == 0 <==> v[q] == w[q] { SXorIsZero(v[q], w[q]); }
    SameChecksum(p, v, w);
    var q :| 0 <= q < |v| && v[q] != w[q];
    if Run(0, d) == 0 { ThreePlaces(d, i, j, k); }
  }

  // ----- Bursts -----

  lemma FeedbackTail(c: Symbol)
    ensures Low(Feedback(c)) == 0 ==> c == 0
    ensures Feedback(0) == 0
  {}

  lemma ShiftedIsZero(c: Word)
    ensures High(c) == 0 && Shifted(c, 0) == 0 ==> c == 0
    ensures Low(Shifted(c, 0)) == 0 && Shifted(0, 0) == 0 && High(0) == 0
  {}

  /** Only the zero word runs to the zero word on a zero symbol. */
  lemma StepToZero(c: Word)
    ensures Step(c, 0) == 0 <==> c == 0
  {
    hide Feedback, Add, High, Shifted, Low;
    FeedbackTail(High(c));
    ShiftedIsZero(c);
    AddIsNil(Shifted(c, 0), Feedback(High(c)));
  }

  lemma {:induction false} ZerosKeepNonzero(p: Word, v: seq<Symbol>, n: nat)
    requires n <= |v| && forall i :: n <= i < |v| ==> v[i] == 0
    ensures Run(p, v) == 0 <==> Run(p, v[..n]) == 0
    decreases |v|
  {
    hide Step;
    if |v| == n {
      assert v[..n] == v;
    } else {
      ZerosKeepNonzero(p, v[..|v| - 1], n);
      assert v[..|v| - 1][..n] == v[..n];
      StepToZero(Run(p, v[..|v| - 1]));
    }
  }

  /** The word with these groups. */
  function Pack(a: Symbol, b: Symbol, c: Symbol, d: Symbol, e: Symbol, f: Symbol): Word {
    (a as Word << 25) ^ (b as Word << 20) ^ (c as Word << 15) ^ (d as Word << 10) ^ (e as Word << 5) ^ f as Word
  }

  lemma PackShifts(b: Symbol, c: Symbol, d: Symbol, e: Symbol, f: Symbol, g: Symbol)
    ensures Shifted(Pack(0, b, c, d, e, f), g) == Pack(b, c, d, e, f, g) && High(Pack(0, b, c, d, e, f)) == 0
  {}

  lemma StepPacks(b: Symbol, c: Symbol, d: Symbol, e: Symbol, f: Symbol, g: Symbol)
    ensures Step(Pack(0, b, c, d, e, f), g) == Pack(b, c, d, e, f, g)
  {
    hide Feedback, Add, High, Shifted, Pack;
    PackShifts(b, c, d, e, f, g);
    FeedbackTail(0);
    AddNil(Pack(b, c, d, e, f, g));
  }

  lemma PackIsZero(a: Symbol, b: Symbol, c: Symbol, d: Symbol, e: Symbol, f: Symbol)
    ensures Pack(a, b, c, d, e, f) == 0 <==> a == 0 && b == 0 && c == 0 && d == 0 && e == 0 && f == 0
  {}

  lemma RunPrefix(p: Word, u: seq<Symbol>, n: nat)
    requires n < |u|
    ensures Run(p, u[..n + 1]) == Step(Run(p, u[..n]), u[n]) && Run(p, u[..0]) == p
  {
    hide Step;
    assert u[..n + 1][..n] == u[..n];
  }

  /** Six symbols from the zero word are just packed. */
  lemma SixPacked(u: seq<Symbol>)
    requires |u| == 6
    ensures Run(0, u) == Pack(u[0], u[1], u[2], u[3], u[4], u[5])
  {
    hide Step, Run, Pack;
    RunPrefix(0, u, 0);
    RunPrefix(0, u, 1);
    RunPrefix(0, u, 2);
    RunPrefix(0, u, 3);
    RunPrefix(0, u, 4);
    RunPrefix(0, u, 5);
    PackIsZero(0, 0, 0, 0, 0, 0);
    StepPacks(0, 0, 0, 0, 0, u[0]);
    StepPacks(0, 0, 0, 0, u[0], u[1]);
    StepPacks(0, 0, 0, u[0], u[1], u[2]);
    StepPacks(0, 0, u[0], u[1], u[2], u[3]);
    StepPacks(0, u[0], u[1], u[2], u[3], u[4]);
    StepPacks(u[0], u[1], u[2], u[3], u[4], u[5]);
    assert u[..6] == u;
  }

  lemma {:induction false} RunConcat(p: Word, u: seq<Symbol>, v: seq<Symbol>)
    ensures Run(p, u + v) == Run(Run(p, u), v)
    decreases |v|
  {
    hide Step;
    if v == [] { assert u + v == u; } else {
      var n := |v| - 1;
      assert (u + v)[..|u + v| - 1] == u + v[..n];
      RunConcat(p, u, v[..n]);
    }
  }

  lemma BurstIsZero(d: seq<Symbol>, i: nat)
    requires i + 6 <= |d| && Run(0, d) == 0
    requires forall q :: 0 <= q < |d| && !(i <= q < i + 6) ==> d[q] == 0
    ensures forall q :: 0 <= q < |d| ==> d[q] == 0
  {
    hide Run, Step, Pack;
    var u := d[i..i + 6];
    ZerosKeepNonzero(0, d, i + 6);
    assert d[..i + 6] == d[..i] + u;
    RunConcat(0, d[..i], u);
    ZerosKeepNonzero(0, d[..i], 0);
    EmptyRun(0, d[..i]);
    SixPacked(u);
    PackIsZero(u[0], u[1], u[2], u[3], u[4], u[5]);
    assert forall q :: i <= q < i + 6 ==> d[q] == u[q - i];
  }

  /** Any change confined to six consecutive symbols changes the checksum. */
  lemma DetectsBursts(p: Word, v: seq<Symbol>, w: seq<Symbol>, i: nat)
    requires |v| == |w| && v != w && i + 6 <= |v|
    requires forall q :: 0 <= q < |v| && !(i <= q < i + 6) ==> v[q] == w[q]
    ensures Run(p, v) != Run(p, w)
  {
    hide Run, SXor;
    var d := Difference(v, w);
    forall q | 0 <= q < |v| ensures d[q] == 0 <==> v[q] == w[q] { SXorIsZero(v[q], w[q]); }
    SameChecksum(p, v, w);
    var q :| 0 <= q < |v| && v[q] != w[q];
    if Run(0, d) == 0 { BurstIsZero(d, i); }
  }

  lemma EmptyRun(p: Word, v: seq<Symbol>)
    ensures Run(p, v[..0]) == p
  {}
}
