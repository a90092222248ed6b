/** Four changed symbols are noticed too, if no two are more than 88 apart. */
module Bech32Four {
  import opened GF1024
  import opened GF1024Order
  import opened Bech32Code
  import opened Bech32Errors
  import opened Bech32Classes
  import opened Bech32Distances
  import opened Bech32Residues

  // ----- Sums of four -----

  function Sum4(a: Elem, b: Elem, c: Elem, d: Elem): Elem { Xor(Xor(a, b), Xor(c, d)) }

  lemma Sum4Adds(a: Elem, b: Elem, c: Elem, d: Elem, a': Elem, b': Elem, c': Elem, d': Elem)
    ensures Sum4(Xor(a, a'), Xor(b, b'), Xor(c, c'), Xor(d, d')) == Xor(Sum4(a, b, c, d), Sum4(a', b', c', d'))
  {
    hide Xor;
    XorExchange(a, a', b, b');
    XorExchange(c, c', d, d');
    XorExchange(Xor(a, b), Xor(a', b'), Xor(c, d), Xor(c', d'));
  }

  lemma Sum4Times(a: Elem, b: Elem, c: Elem, d: Elem, u: Elem)
    ensures Sum4(Mul(a, u), Mul(b, u), Mul(c, u), Mul(d, u)) == Mul(Sum4(a, b, c, d), u)
  {
    hide Xor, Mul;
    MulLinear(a, b, u);
    MulLinear(c, d, u);
    MulLinear(Xor(a, b), Xor(c, d), u);
  }

  lemma Sum4Turns(a: Elem, b: Elem, c: Elem, d: Elem)
    ensures Sum4(a, c, b, d) == Sum4(a, b, c, d) && Sum4(a, d, b, c) == Sum4(a, b, c, d)
  {
    hide Xor;
    XorExchange(a, b, c, d);
    XorCommutes(c, d);
    XorExchange(a, b, d, c);
  }

  lemma Distribute(b: Elem, x: Elem, u: Elem)
    ensures Mul(b, Xor(x, u)) == Xor(Mul(b, x), Mul(b, u))
  {
    hide Xor, Mul;
    MulCommutes(b, Xor(x, u));
    MulCommutes(b, x);
    MulCommutes(b, u);
    MulLinear(x, u, b);
  }

  /** Terms that cancel, and do once each is multiplied by its own factor, do once each is multiplied by its factor
      plus u. */
  lemma Eliminate(a: Elem, b: Elem, c: Elem, d: Elem, fa: Elem, fb: Elem, fc: Elem, fd: Elem, u: Elem)
    requires Sum4(a, b, c, d) == 0 && Sum4(Mul(a, fa), Mul(b, fb), Mul(c, fc), Mul(d, fd)) == 0
    ensures Sum4(Mul(a, Xor(fa, u)), Mul(b, Xor(fb, u)), Mul(c, Xor(fc, u)), Mul(d, Xor(fd, u))) == 0
  {
    hide Sum4, Xor, Mul;
    Distribute(a, fa, u);
    Distribute(b, fb, u);
    Distribute(c, fc, u);
    Distribute(d, fd, u);
    Sum4Adds(Mul(a, fa), Mul(b, fb), Mul(c, fc), Mul(d, fd), Mul(a, u), Mul(b, u), Mul(c, u), Mul(d, u));
    Sum4Times(a, b, c, d, u);
    ZeroTimes(u);
    XorZero(0);
  }

  /** The four terms cancel at each of three consecutive roots. */
  predicate Cancel(a: Elem, b: Elem, c: Elem, d: Elem, fa: Elem, fb: Elem, fc: Elem, fd: Elem) {
    Sum4(a, b, c, d) == 0 && Sum4(Mul(a, fa), Mul(b, fb), Mul(c, fc), Mul(d, fd)) == 0
    && Sum4(Mul(Mul(a, fa), fa), Mul(Mul(b, fb), fb), Mul(Mul(c, fc), fc), Mul(Mul(d, fd), fd)) == 0
  }

  /** A term without its factor's differences from two others. */
  function Both(a: Elem, fa: Elem, u: Elem, v: Elem): Elem { Mul(Mul(a, Xor(fa, u)), Xor(fa, v)) }

  /** What the first two of four cancelling terms share. */
  lemma PairIsEqual(a: Elem, b: Elem, c: Elem, d: Elem, fa: Elem, fb: Elem, fc: Elem, fd: Elem)
    requires Cancel(a, b, c, d, fa, fb, fc, fd)
    ensures Both(a, fa, fc, fd) == Both(b, fb, fc, fd)
  {
    hide Sum4, Xor, Mul;
    var a', b', c', d' := Mul(a, Xor(fa, fc)), Mul(b, Xor(fb, fc)), Mul(c, Xor(fc, fc)), Mul(d, Xor(fd, fc));
    Eliminate(a, b, c, d, fa, fb, fc, fd, fc);
    Eliminate(Mul(a, fa), Mul(b, fb), Mul(c, fc), Mul(d, fd), fa, fb, fc, fd, fc);
    MulSwap(a, Xor(fa, fc), fa);
    MulSwap(b, Xor(fb, fc), fb);
    MulSwap(c, Xor(fc, fc), fc);
    MulSwap(d, Xor(fd, fc), fd);
    Eliminate(a', b', c', d', fa, fb, fc, fd, fd);
    XorSelf(fc);
    XorSelf(fd);
    TimesZero(c);
    TimesZero(d');
    ZeroTimes(Xor(fc, fd));
    TwoLeft(Both(a, fa, fc, fd), Both(b, fb, fc, fd));
  }

  lemma TimesZero(x: Elem)
    ensures Mul(x, 0) == 0
  {
    hide Mul;
    MulCommutes(x, 0);
    ZeroTimes(x);
  }

  lemma TwoLeft(a: Elem, b: Elem)
    requires Sum4(a, b, 0, 0) == 0
    ensures a == b
  {
    hide Xor;
    XorZero(0);
    XorZero(Xor(a, b));
    XorIsZero(a, b);
  }

  // ----- The class of each side -----

  /** e^p + e^q. */
  function Diff(p: nat, q: nat): Elem { Xor(Pow(E1, p), Pow(E1, q)) }

  lemma DiffIs(p: nat, q: nat)
    requires p < q
    ensures Diff(p, q) == Mul(Pow(E1, p), Xor(ONE, Pow(E1, q - p))) && Diff(q, p) == Diff(p, q)
  {
    hide Xor, Mul, Pow;
    Distribute(Pow(E1, p), ONE, Pow(E1, q - p));
    TimesOne(Pow(E1, p));
    PowAdd(E1, p, q - p);
    XorCommutes(Pow(E1, p), Pow(E1, q));
  }

  /** The class of e^p + e^q. */
  function DiffClass(p: nat, q: nat): nat
    requires p <= q + 88 && q <= p + 88
  {
    if p < q then p + Gap(q - p) else q + Gap(p - q)
  }

  lemma ClassOfDiff(p: nat, q: nat)
    requires p != q && p <= q + 88 && q <= p + 88
    ensures HasClass(Diff(p, q), DiffClass(p, q))
  {
    hide HasClass, Diff, Gap, Mul, Xor, Pow;
    var l, h := if p < q then p else q, if p < q then q else p;
    DiffIs(l, h);
    PowerClass(l);
    ClassOfGap(h - l);
    ClassOfProduct(Pow(E1, l), l, Xor(ONE, Pow(E1, h - l)), Gap(h - l));
  }

  lemma DiffCancels(x: Elem, p: nat, q: nat)
    requires p != q && p <= q + 88 && q <= p + 88 && Mul(x, Diff(p, q)) == 0
    ensures x == 0
  {
    hide Mul, Xor, Pow;
    Distribute(x, Pow(E1, p), Pow(E1, q));
    XorIsZero(Mul(x, Pow(E1, p)), Mul(x, Pow(E1, q)));
    if p < q { EqualTurns(x, q, p); } else { EqualTurns(x, p, q); }
  }

  /** The term of symbol s at exponent p, at the first root. */
  function AtRoot(s: Symbol, p: nat): Elem { Mul(Emb(s), Pow(R1, p)) }

  /** Places no two of which are more than 88 apart. */
  predicate Near(p: nat, q: nat) { p != q && p <= q + 88 && q <= p + 88 }

  function Whole(s: Symbol, p: nat, u: nat, v: nat): Elem { Both(AtRoot(s, p), Pow(E1, p), Pow(E1, u), Pow(E1, v)) }

  lemma PairClasses(s: Symbol, p: nat, t: Symbol, q: nat, u: nat, v: nat)
    requires Near(p, u) && Near(p, v) && Near(q, u) && Near(q, v) && s != 0
    requires Whole(s, p, u, v) == Whole(t, q, u, v)
    ensures Congruent(24 * p + DiffClass(p, u) + DiffClass(p, v), 24 * q + DiffClass(q, u) + DiffClass(q, v))
  {
    hide HasClass, Mul, Xor, Pow, Emb, DiffClass;
    var a, b := AtRoot(s, p), AtRoot(t, q);
    ThetaIsPower(24);
    assert HasClass(a, 24 * p) && HasClass(b, 24 * q) by {
      PowerOfPower(E1, 24, p);
      PowerOfPower(E1, 24, q);
      PowerClass(24 * p);
      PowerClass(24 * q);
      SymbolClass(s);
      SymbolClass(t);
      ClassOfProduct(Emb(s), 0, Pow(R1, p), 24 * p);
      ClassOfProduct(Emb(t), 0, Pow(R1, q), 24 * q);
    }
    ClassOfDiff(p, u);
    ClassOfDiff(p, v);
    ClassOfProduct(a, 24 * p, Diff(p, u), DiffClass(p, u));
    ClassOfProduct(Mul(a, Diff(p, u)), 24 * p + DiffClass(p, u), Diff(p, v), DiffClass(p, v));
    ClassOfDiff(q, u);
    ClassOfDiff(q, v);
    ClassOfProduct(b, 24 * q, Diff(q, u), DiffClass(q, u));
    ClassOfProduct(Mul(b, Diff(q, u)), 24 * q + DiffClass(q, u), Diff(q, v), DiffClass(q, v));
    if Whole(s, p, u, v) == 0 { WholeIsZero(s, p, u, v); }
    ClassIsUnique(Whole(s, p, u, v), 24 * p + DiffClass(p, u) + DiffClass(p, v),
                  24 * q + DiffClass(q, u) + DiffClass(q, v));
  }

  lemma WholeIsZero(s: Symbol, p: nat, u: nat, v: nat)
    requires Near(p, u) && Near(p, v) && Whole(s, p, u, v) == 0
    ensures s == 0
  {
    hide Mul, Xor, Pow, Emb;
    DiffCancels(Mul(AtRoot(s, p), Diff(p, u)), p, v);
    DiffCancels(AtRoot(s, p), p, u);
    RootUnit();
    CancelPower(Emb(s), R1, R1INV, p);
    EmbIsZero(s);
  }

  // ----- The three congruences -----

  lemma Quotient(a: int, b: int) returns (q: int)
    requires Congruent(a, b)
    ensures a == b + 33 * q
  {
    q := a / 33 - b / 33;
  }

  lemma FromQuotient(a: int, b: int, q: int)
    requires a == b + 33 * q
    ensures Congruent(a, b)
  {
    Shift33(q, b);
  }

  lemma FirstCongruence(p: nat, i: nat, j: nat, k: nat)
    requires 1 <= i < j < k <= 88
    requires Congruent(24 * p + (p + Gap(j)) + (p + Gap(k)), 24 * (p + i) + (p + i + Gap(j - i)) + (p + i + Gap(k - i)))
    ensures Congruent(Off(j) + Off(k), 25 * i + Off(j - i) + Off(k - i))
  {
    hide Gap, Off, Congruent, Residue;
    GapIs(j);
    var a := Quotient(Gap(j), 17 * j + Off(j));
    GapIs(k);
    var b := Quotient(Gap(k), 17 * k + Off(k));
    GapIs(j - i);
    var c := Quotient(Gap(j - i), 17 * (j - i) + Off(j - i));
    GapIs(k - i);
    var d := Quotient(Gap(k - i), 17 * (k - i) + Off(k - i));
    var t := Quotient(24 * p + (p + Gap(j)) + (p + Gap(k)),
                      24 * (p + i) + (p + i + Gap(j - i)) + (p + i + Gap(k - i)));
    FromQuotient(Off(j) + Off(k), 25 * i + Off(j - i) + Off(k - i), t - a - b + c + d - i);
  }

  lemma SecondCongruence(p: nat, i: nat, j: nat, k: nat)
    requires 1 <= i < j < k <= 88
    requires Congruent(24 * p + (p + Gap(i)) + (p + Gap(k)), 24 * (p + j) + (p + i + Gap(j - i)) + (p + j + Gap(k - j)))
    ensures Congruent(Off(i) + Off(k), 25 * j + Off(j - i) + Off(k - j))
  {
    hide Gap, Off, Congruent, Residue;
    GapIs(i);
    var a := Quotient(Gap(i), 17 * i + Off(i));
    GapIs(k);
    var b := Quotient(Gap(k), 17 * k + Off(k));
    GapIs(j - i);
    var c := Quotient(Gap(j - i), 17 * (j - i) + Off(j - i));
    GapIs(k - j);
    var d := Quotient(Gap(k - j), 17 * (k - j) + Off(k - j));
    var t := Quotient(24 * p + (p + Gap(i)) + (p + Gap(k)),
                      24 * (p + j) + (p + i + Gap(j - i)) + (p + j + Gap(k - j)));
    FromQuotient(Off(i) + Off(k), 25 * j + Off(j - i) + Off(k - j), t - a - b + c + d - i);
  }

  lemma ThirdCongruence(p: nat, i: nat, j: nat, k: nat)
    requires 1 <= i < j < k <= 88
    requires Congruent(24 * p + (p + Gap(i)) + (p + Gap(j)), 24 * (p + k) + (p + i + Gap(k - i)) + (p + j + Gap(k - j)))
    ensures Congruent(Off(i) + Off(j), 25 * k + Off(k - i) + Off(k - j))
  {
    hide Gap, Off, Congruent, Residue;
    GapIs(i);
    var a := Quotient(Gap(i), 17 * i + Off(i));
    GapIs(j);
    var b := Quotient(Gap(j), 17 * j + Off(j));
    GapIs(k - i);
    var c := Quotient(Gap(k - i), 17 * (k - i) + Off(k - i));
    GapIs(k - j);
    var d := Quotient(Gap(k - j), 17 * (k - j) + Off(k - j));
    var t := Quotient(24 * p + (p + Gap(i)) + (p + Gap(j)),
                      24 * (p + k) + (p + i + Gap(k - i)) + (p + j + Gap(k - j)));
    FromQuotient(Off(i) + Off(j), 25 * k + Off(k - i) + Off(k - j), t - a - b + c + d - i - j + k);
  }

  /** The classes of four terms, no two more than 88 apart, cannot all agree in this way. */
  lemma NotAllThree(p: nat, q: nat, u: nat, v: nat)
    requires p < q < u < v <= p + 88
    ensures !(Congruent(24 * p + DiffClass(p, u) + DiffClass(p, v), 24 * q + DiffClass(q, u) + DiffClass(q, v))
              && Congruent(24 * p + DiffClass(p, q) + DiffClass(p, v), 24 * u + DiffClass(u, q) + DiffClass(u, v))
              && Congruent(24 * p + DiffClass(p, q) + DiffClass(p, u), 24 * v + DiffClass(v, q) + DiffClass(v, u)))
  {
    hide Gap, Off, Congruent, Residue;
    var i, j, k := q - p, u - p, v - p;
    NoCongruences(i, j, k);
    if Congruent(24 * p + DiffClass(p, u) + DiffClass(p, v), 24 * q + DiffClass(q, u) + DiffClass(q, v))
       && Congruent(24 * p + DiffClass(p, q) + DiffClass(p, v), 24 * u + DiffClass(u, q) + DiffClass(u, v))
       && Congruent(24 * p + DiffClass(p, q) + DiffClass(p, u), 24 * v + DiffClass(v, q) + DiffClass(v, u)) {
      FirstCongruence(p, i, j, k);
      SecondCongruence(p, i, j, k);
      ThirdCongruence(p, i, j, k);
    }
  }

  // ----- Four changed places -----

  predicate FourExcept(d: seq<Symbol>, i: nat, j: nat, k: nat, l: nat) {
    i < j < k < l < |d| && forall q :: 0 <= q < |d| && q != i && q != j && q != k && q != l ==> d[q] == 0
  }

  /** Only the symbol at l. */
  function Alone(d: seq<Symbol>, l: nat): (r: seq<Symbol>)
    requires l < |d|
    ensures |r| == |d|
  {
    seq(|d|, q requires 0 <= q < |d| => if q == l then d[l] else 0)
  }

  lemma Apart(d: seq<Symbol>, l: nat)
    requires l < |d|
    ensures Difference(d[l := 0], Alone(d, l)) == d
  {
    hide SXor;
    forall q | 0 <= q < |d| ensures Difference(d[l := 0], Alone(d, l))[q] == d[q] { SXorNeutral(d[q]); SXorNeutral(0); }
  }

  lemma ApartCancel(d: seq<Symbol>, l: nat, r: Elem)
    requires l < |d| && Run(0, d) == 0
    ensures Xor(Eval(Run(0, d[l := 0]), r), Eval(Run(0, Alone(d, l)), r)) == 0
  {
    hide Run, Add, Value, Difference, Alone, Xor;
    Apart(d, l);
    var e, f := d[l := 0], Alone(d, l);
    RunLinear(0, 0, e, f);
    AddNil(0);
    XorZero(0);
    ValueLinear(0, Run(0, e), 0, Run(0, f), r);
    NilEval(r);
  }

  /** The four terms at the root r, the lowest exponent first. */
  function FourParts(d: seq<Symbol>, r: Elem, i: nat, j: nat, k: nat, l: nat): Elem
    requires FourExcept(d, i, j, k, l)
  {
    var n := |d| - 1;
    Sum4(Mul(Emb(d[l]), Pow(r, n - l)), Mul(Emb(d[k]), Pow(r, n - k)), Mul(Emb(d[j]), Pow(r, n - j)),
         Mul(Emb(d[i]), Pow(r, n - i)))
  }

  lemma FourTerms(d: seq<Symbol>, r: Elem, i: nat, j: nat, k: nat, l: nat)
    requires FourExcept(d, i, j, k, l) && IsRoot(r) && Run(0, d) == 0
    ensures FourParts(d, r, i, j, k, l) == 0
  {
    hide Run, IsRoot, Eval, Emb, Mul, Xor, Pow;
    var n := |d| - 1;
    var e, f := d[l := 0], Alone(d, l);
    ApartCancel(d, l, r);
    TermsOf(e, r, i, j, k);
    TermsOf(f, r, j, k, l);
    EmbIsZero(0);
    ZeroTimes(Pow(r, n - j));
    ZeroTimes(Pow(r, n - k));
    var a, b, c, y := Mul(Emb(d[i]), Pow(r, n - i)), Mul(Emb(d[j]), Pow(r, n - j)), Mul(Emb(d[k]), Pow(r, n - k)),
                      Mul(Emb(d[l]), Pow(r, n - l));
    XorZero(0);
    XorZero(y);
    assert Xor(Xor(Xor(a, b), c), y) == 0;
    Regroup(a, b, c, y);
  }

  lemma Regroup(a: Elem, b: Elem, c: Elem, d: Elem)
    ensures Sum4(d, c, b, a) == Xor(Xor(Xor(a, b), c), d)
  {
    hide Xor;
    XorCommutes(Xor(d, c), Xor(b, a));
    XorCommutes(b, a);
    XorCommutes(d, c);
    XorAssociates(Xor(a, b), c, d);
  }

  /** The last of four changed places did not change. */
  lemma LastIsZero(d: seq<Symbol>, i: nat, j: nat, k: nat, l: nat)
    requires FourExcept(d, i, j, k, l) && l <= i + 88 && Run(0, d) == 0
    ensures d[l] == 0
  {
    hide Run, IsRoot, Emb, Mul, Xor, Pow, Sum4, Both, DiffClass, Congruent;
    var n := |d| - 1;
    var p, q, u, v := n - l, n - k, n - j, n - i;
    var a, b, c, e := AtRoot(d[l], p), AtRoot(d[k], q), AtRoot(d[j], u), AtRoot(d[i], v);
    var fa, fb, fc, fe := Pow(E1, p), Pow(E1, q), Pow(E1, u), Pow(E1, v);
    assert Cancel(a, b, c, e, fa, fb, fc, fe) by {
      AreRoots();
      FourTerms(d, R1, i, j, k, l);
      FourTerms(d, R2, i, j, k, l);
      FourTerms(d, R3, i, j, k, l);
      TermsAtRoots(Emb(d[l]), p);
      TermsAtRoots(Emb(d[k]), q);
      TermsAtRoots(Emb(d[j]), u);
      TermsAtRoots(Emb(d[i]), v);
    }
    assert Cancel(a, c, b, e, fa, fc, fb, fe) && Cancel(a, e, b, c, fa, fe, fb, fc) by {
      Sum4Turns(a, b, c, e);
      Sum4Turns(Mul(a, fa), Mul(b, fb), Mul(c, fc), Mul(e, fe));
      Sum4Turns(Mul(Mul(a, fa), fa), Mul(Mul(b, fb), fb), Mul(Mul(c, fc), fc), Mul(Mul(e, fe), fe));
    }
    hide AtRoot, Cancel;
    PairIsEqual(a, b, c, e, fa, fb, fc, fe);
    PairIsEqual(a, c, b, e, fa, fc, fb, fe);
    PairIsEqual(a, e, b, c, fa, fe, fb, fc);
    if d[l] != 0 {
      PairClasses(d[l], p, d[k], q, u, v);
      PairClasses(d[l], p, d[j], u, q, v);
      PairClasses(d[l], p, d[i], v, q, u);
      NotAllThree(p, q, u, v);
    }
  }

  /** A difference in at most four places, no two more than 88 apart, cannot cancel out. */
  lemma FourPlaces(d: seq<Symbol>, i: nat, j: nat, k: nat, l: nat)
    requires FourExcept(d, i, j, k, l) && l <= i + 88 && Run(0, d) == 0
    ensures d[i] == d[j] == d[k] == d[l] == 0
  {
    hide Run;
    LastIsZero(d, i, j, k, l);
    ThreePlaces(d, i, j, k);
  }

  /** Changing one to four symbols, no two more than 88 apart, always changes the checksum. */
  lemma DetectsFourErrors(p: Word, v: seq<Symbol>, w: seq<Symbol>, i: nat, j: nat, k: nat, l: nat)
    requires |v| == |w| && v != w && i < j < k < l < |v| && l <= i + 88
    requires forall q :: 0 <= q < |v| && q != i && q != j && q != k && q != l ==> v[q] == w[q]
    ensures Run(p, v) != Run(p, w)
  {
    hide Run, SXor;
    var d := Difference(v, w);
    forall q | 0 <= q < |v| ensures d[q] == 0 <==> v[q] == w[q] { SXorIsZero(v[q], w[q]); }
    SameChecksum(p, v, w);
    var q :| 0 <= q < |v| && v[q] != w[q];
    if Run(0, d) == 0 { FourPlaces(d, i, j, k, l); }
  }
}
