/** Bech32 strings: the checksum over five-bit values, encoding and decoding. */
module Bech32 {
  import opened Bytes
  import opened Bech32Code
  import opened Bech32Errors
  import opened Bech32Four

  /** A five-bit value. */
  type Value = x: int | 0 <= x < 32

  function SymOf(n: Value): Symbol { n as Symbol }

  function NumOf(x: Symbol): Value { x as int }

  lemma SymOfNum(x: Symbol)
    ensures SymOf(NumOf(x)) == x
  {
    if x < 16 {
      assert x == 0 || x == 1 || x == 2 || x == 3 || x == 4 || x == 5 || x == 6 || x == 7
          || x == 8 || x == 9 || x == 10 || x == 11 || x == 12 || x == 13 || x == 14 || x == 15;
    } else {
      assert x == 16 || x == 17 || x == 18 || x == 19 || x == 20 || x == 21 || x == 22 || x == 23
          || x == 24 || x == 25 || x == 26 || x == 27 || x == 28 || x == 29 || x == 30 || x == 31;
    }
  }

  lemma LowValue(n: Value)
    requires n < 16
    ensures NumOf(SymOf(n)) == n && n as bv8 == SymOf(n) as bv8
  {
    assert n == 0 || n == 1 || n == 2 || n == 3 || n == 4 || n == 5 || n == 6 || n == 7
        || n == 8 || n == 9 || n == 10 || n == 11 || n == 12 || n == 13 || n == 14 || n == 15;
  }

  lemma HighValue(n: Value)
    requires n >= 16
    ensures NumOf(SymOf(n)) == n && n as bv8 == SymOf(n) as bv8
  {
    assert n == 16 || n == 17 || n == 18 || n == 19 || n == 20 || n == 21 || n == 22 || n == 23
        || n == 24 || n == 25 || n == 26 || n == 27 || n == 28 || n == 29 || n == 30 || n == 31;
  }

  lemma NumOfSym(n: Value)
    ensures NumOf(SymOf(n)) == n && n as bv8 == SymOf(n) as bv8
  {
    if n < 16 { LowValue(n); } else { HighValue(n); }
  }

  function Syms(v: seq<Value>): (s: seq<Symbol>)
    ensures |s| == |v| && forall i :: 0 <= i < |v| ==> s[i] == SymOf(v[i])
  {
    seq(|v|, i requires 0 <= i < |v| => SymOf(v[i]))
  }

  // ----- The 32-bit variable of PolyMod -----

  function Wide(c: Word): bv32 { c as bv32 }

  lemma WideXor(c: Word, k: Word)
    ensures Wide(c) ^ Wide(k) == Wide(Add(c, k))
  {}

  lemma WideIsInjective(c: Word, d: Word)
    ensures Wide(c) == Wide(d) ==> c == d
  {}

  /** What a byte adds to the shifted word: beyond five bits it reaches into the next group. */
  function Mixed(c: Word, x: bv8): Word { Add(Shifted(c, 0), x as Word) }

  lemma WideMixed(c: Word, x: bv8)
    ensures ((Wide(c) & 0x1ffffff) << 5) ^ x as bv32 == Wide(Mixed(c, x))
  {}

  lemma MixedSymbol(c: Word, v: Symbol)
    ensures Mixed(c, v as bv8) == Shifted(c, v)
  {}

  /** One byte fed into the checksum. */
  function FeedByte(c: Word, v: byte): Word { Add(Mixed(c, v as bv8), Feedback(High(c))) }

  function FeedBytes(c: Word, v: Bytes): Word
    decreases |v|
  {
    if v == [] then c else FeedByte(FeedBytes(c, v[..|v| - 1]), v[|v| - 1])
  }

  /** A five-bit value is fed in as its symbol. */
  lemma ValueIsSymbol(c: Word, n: Value)
    ensures FeedByte(c, n) == Step(c, SymOf(n))
  {
    hide Mixed, Shifted, Add, Feedback, High, SymOf, NumOf;
    NumOfSym(n);
    MixedSymbol(c, SymOf(n));
  }

  lemma {:induction false} ValuesAreSymbols(c: Word, v: seq<Value>)
    ensures FeedBytes(c, v) == Run(c, Syms(v))
    decreases |v|
  {
    hide FeedByte, Step, SymOf;
    if v != [] {
      var n := |v| - 1;
      ValuesAreSymbols(c, v[..n]);
      assert Syms(v)[..n] == Syms(v[..n]);
      ValueIsSymbol(Run(c, Syms(v[..n])), v[n]);
    }
  }

  lemma WideHigh(c: Word, bit: Symbol)
    ensures (Wide(c) >> 25) as bv8 & bit as bv8 != 0 <==> Has(High(c), bit)
  {}

  lemma ConstantsWiden()
    ensures Wide(K0) == 0x3b6a57b2 && Wide(K1) == 0x26508e6d && Wide(K2) == 0x1ea119fa
    ensures Wide(K3) == 0x3d4233dd && Wide(K4) == 0x2a1462b3 && Wide(1) == 1
  {}

  /** The conditional xors one after another add the combination of the constants. */
  lemma XorsInTurn(c: Word, b: Symbol)
    ensures Add(c, Feedback(b)) ==
      Add(Add(Add(Add(Add(c, Choose(Has(b, 1), K0)), Choose(Has(b, 2), K1)), Choose(Has(b, 4), K2)),
          Choose(Has(b, 8), K3)), Choose(Has(b, 16), K4))
  {
    hide Add, Choose, Has;
    var a0, a1, a2, a3 := Choose(Has(b, 1), K0), Choose(Has(b, 2), K1), Choose(Has(b, 4), K2), Choose(Has(b, 8), K3);
    AddAssociates(c, a0, a1);
    AddAssociates(c, Add(a0, a1), a2);
    AddAssociates(c, Add(Add(a0, a1), a2), a3);
    AddAssociates(c, Add(Add(Add(a0, a1), a2), a3), Choose(Has(b, 16), K4));
  }

  /** if (bit) c ^= k. */
  method XorIf(bit: bool, c: bv32, k: bv32, ghost w: Word, ghost k': Word) returns (r: bv32)
    requires c == Wide(w) && k == Wide(k')
    ensures r == Wide(Add(w, Choose(bit, k')))
  {
    hide Wide, Add;
    WideXor(w, k');
    AddNil(w);
    r := if bit then c ^ k else c;
  }

  /** One round of PolyMod. */
  method Round(c: bv32, v: byte, ghost w: Word) returns (r: bv32)
    requires c == Wide(w)
    ensures r == Wide(FeedByte(w, v))
  {
    hide Wide, Add, Choose, Has, Mixed, High, Feedback;
    ConstantsWiden();
    WideMixed(w, v as bv8);
    XorsInTurn(Mixed(w, v as bv8), High(w));
    WideHigh(w, 1);
    WideHigh(w, 2);
    WideHigh(w, 4);
    WideHigh(w, 8);
    WideHigh(w, 16);
    var c0 := (c >> 25) as bv8;
    r := ((c & 0x1ffffff) << 5) ^ v as bv8 as bv32;
    ghost var w' := Mixed(w, v as bv8);
    r := XorIf(c0 & 1 != 0, r, 0x3b6a57b2, w', K0);
    w' := Add(w', Choose(c0 & 1 != 0, K0));
    r := XorIf(c0 & 2 != 0, r, 0x26508e6d, w', K1);
    w' := Add(w', Choose(c0 & 2 != 0, K1));
    r := XorIf(c0 & 4 != 0, r, 0x1ea119fa, w', K2);
    w' := Add(w', Choose(c0 & 4 != 0, K2));
    r := XorIf(c0 & 8 != 0, r, 0x3d4233dd, w', K3);
    w' := Add(w', Choose(c0 & 8 != 0, K3));
    r := XorIf(c0 & 16 != 0, r, 0x2a1462b3, w', K4);
  }

  /** PolyMod: the word after feeding in every byte. */
  method PolyMod(v: Bytes) returns (c: bv32)
    ensures c == Wide(FeedBytes(1, v))
  {
    hide Wide, FeedByte;
    ConstantsWiden();
    c := 1;
    for i := 0 to |v|
      invariant c == Wide(FeedBytes(1, v[..i]))
    {
      assert v[..i + 1][..i] == v[..i];
      c := Round(c, v[i], FeedBytes(1, v[..i]));
    }
    assert v[..|v|] == v;
  }

  // ----- The checksum -----

  /** The high bits of every character, a zero, and the low bits. */
  function Expanded(hrp: Bytes): (r: seq<Value>)
    ensures |r| == 2 * |hrp| + 1
  {
    seq(|hrp|, i requires 0 <= i < |hrp| => hrp[i] / 32) + [0] + seq(|hrp|, i requires 0 <= i < |hrp| => hrp[i] % 32)
  }

  method ExpandHrp(hrp: Bytes) returns (r: seq<Value>)
    ensures r == Expanded(hrp)
  {
    var n := |hrp|;
    var ret := new Value[2 * n + 1](_ => 0);
    for i := 0 to n
      invariant forall j :: 0 <= j < i ==> ret[j] == hrp[j] / 32 && ret[j + n + 1] == hrp[j] % 32
    {
      ret[i] := hrp[i] / 32;
      ret[i + n + 1] := hrp[i] % 32;
    }
    ret[n] := 0;
    r := ret[..];
    assert r == Expanded(hrp);
  }

  /** The word reached by the human-readable part alone. */
  function Start(hrp: Bytes): Word { Run(1, Syms(Expanded(hrp))) }

  /** What VerifyChecksum accepts: the whole sequence leaves the word 1. */
  predicate ValidChecksum(hrp: Bytes, values: seq<Value>) { Run(Start(hrp), Syms(values)) == 1 }

  lemma SymsConcat(u: seq<Value>, v: seq<Value>)
    ensures Syms(u + v) == Syms(u) + Syms(v)
  {
    hide SymOf;
  }

  lemma RunWhole(hrp: Bytes, values: seq<Value>)
    ensures Run(1, Syms(Expanded(hrp) + values)) == Run(Start(hrp), Syms(values))
  {
    hide Run, SymOf;
    SymsConcat(Expanded(hrp), values);
    RunConcat(1, Syms(Expanded(hrp)), Syms(values));
  }

  method VerifyChecksum(hrp: Bytes, values: seq<Value>) returns (ok: bool)
    ensures ok == ValidChecksum(hrp, values)
  {
    hide Run, Wide;
    var e := ExpandHrp(hrp);
    var c := PolyMod(e + values);
    ValuesAreSymbols(1, e + values);
    RunWhole(hrp, values);
    ConstantsWiden();
    WideIsInjective(Run(1, Syms(e + values)), 1);
    ok := c == 1;
  }

  const SIX: seq<Value> := [0, 0, 0, 0, 0, 0]

  /** The six values that complete the sequence: what six zeros would leave, off by one. */
  function Checksum(hrp: Bytes, values: seq<Value>): (r: seq<Value>)
    ensures |r| == 6
  {
    Numbers(Add(Run(Start(hrp), Syms(values + SIX)), 1))
  }

  /** The groups of a word, highest first. */
  function Numbers(p: Word): (r: seq<Value>)
    ensures |r| == 6
  {
    [NumOf(High(p)), NumOf(Group1(p)), NumOf(Group2(p)), NumOf(Group3(p)), NumOf(Group4(p)), NumOf(Low(p))]
  }

  lemma PackGroups(p: Word)
    ensures Pack(High(p), Group1(p), Group2(p), Group3(p), Group4(p), Low(p)) == p
  {}

  lemma NumbersUnpack(p: Word)
    ensures Run(0, Syms(Numbers(p))) == p
  {
    hide Run, NumOf, SymOf, Pack, High, Group1, Group2, Group3, Group4, Low;
    SixPacked(Syms(Numbers(p)));
    PackGroups(p);
    SymOfNum(High(p));
    SymOfNum(Group1(p));
    SymOfNum(Group2(p));
    SymOfNum(Group3(p));
    SymOfNum(Group4(p));
    SymOfNum(Low(p));
  }

  lemma ZerosFromZero(v: seq<Symbol>)
    requires forall i :: 0 <= i < |v| ==> v[i] == 0
    ensures Run(0, v) == 0
  {
    hide Run;
    ZerosKeepNonzero(0, v, 0);
    EmptyRun(0, v);
  }

  /** Adding six values to the trailing zeros adds their word to the result. */
  lemma TrailingSix(p: Word, u: seq<Symbol>, six: seq<Symbol>)
    requires |six| == 6
    ensures Run(p, u + six) == Add(Run(p, u + Syms(SIX)), Run(0, six))
  {
    hide Run, SXor, Add;
    var z := seq(|u|, _ => 0);
    var v, w := u + Syms(SIX), z + six;
    RunLinear(p, 0, v, w);
    AddNil(p);
    forall i | 0 <= i < |v| ensures Difference(v, w)[i] == (u + six)[i] {
      if i < |u| { SXorNeutral(u[i]); } else { SXorNeutral(six[i - |u|]); }
    }
    assert Difference(v, w) == u + six;
    RunConcat(0, z, six);
    ZerosFromZero(z);
  }

  /** CreateChecksum yields what VerifyChecksum accepts. */
  lemma ChecksumIsValid(hrp: Bytes, values: seq<Value>)
    ensures ValidChecksum(hrp, values + Checksum(hrp, values))
  {
    hide Run, Add, Numbers, SymOf;
    var r := Run(Start(hrp), Syms(values + SIX));
    var p := Add(r, 1);
    SymsConcat(values, SIX);
    SymsConcat(values, Numbers(p));
    TrailingSix(Start(hrp), Syms(values), Syms(Numbers(p)));
    NumbersUnpack(p);
    AddAssociates(r, r, 1);
    AddIsNil(r, r);
    AddNil(1);
  }

  /** mod >> 5 * (5 - i). */
  function Down(mod: bv32, i: nat): bv32 {
    if i == 0 then mod >> 25 else if i == 1 then mod >> 20 else if i == 2 then mod >> 15
    else if i == 3 then mod >> 10 else if i == 4 then mod >> 5 else mod
  }

  function Bottom(c: bv32): Symbol { (c & 31) as bv5 }

  lemma DownGroups(w: Word)
    ensures Bottom(Down(Wide(w), 0)) == High(w) && Bottom(Down(Wide(w), 1)) == Group1(w)
    ensures Bottom(Down(Wide(w), 2)) == Group2(w) && Bottom(Down(Wide(w), 3)) == Group3(w)
    ensures Bottom(Down(Wide(w), 4)) == Group4(w) && Bottom(Down(Wide(w), 5)) == Low(w)
  {}

  /** The five-bit groups of a word as values, highest first. */
  method GroupValues(mod: bv32, ghost w: Word) returns (r: seq<Value>)
    requires mod == Wide(w)
    ensures r == Numbers(w)
  {
    hide High, Group1, Group2, Group3, Group4, Low, NumOf, Bottom, Down;
    DownGroups(w);
    r := [];
    for i := 0 to 6
      invariant |r| == i && forall j :: 0 <= j < i ==> r[j] == NumOf(Bottom(Down(mod, j)))
    {
      r := r + [NumOf(Bottom(Down(mod, i)))];
    }
  }

  method CreateChecksum(hrp: Bytes, values: seq<Value>) returns (r: seq<Value>)
    ensures r == Checksum(hrp, values)
  {
    hide Run, Add, Wide, Numbers;
    var e := ExpandHrp(hrp);
    var c := PolyMod(e + values + SIX);
    ValuesAreSymbols(1, e + values + SIX);
    assert e + values + SIX == e + (values + SIX);
    RunWhole(hrp, values + SIX);
    ConstantsWiden();
    WideXor(Run(Start(hrp), Syms(values + SIX)), 1);
    r := GroupValues(c ^ 1, Add(Run(Start(hrp), Syms(values + SIX)), 1));
  }

  // ----- What the checksum detects -----

  lemma DifferentSyms(v: seq<Value>, w: seq<Value>)
    requires |v| == |w|
    ensures Syms(v) == Syms(w) ==> v == w
    ensures forall q :: 0 <= q < |v| && v[q] == w[q] ==> Syms(v)[q] == Syms(w)[q]
  {
    hide SymOf, NumOf;
    if Syms(v) == Syms(w) {
      forall q | 0 <= q < |v| ensures v[q] == w[q] {
        NumOfSym(v[q]);
        NumOfSym(w[q]);
        assert Syms(v)[q] == Syms(w)[q];
      }
    }
  }

  /** No change of one, two or three values of a valid sequence is valid, within 1023 values. */
  lemma ThreeChangesDetected(hrp: Bytes, v: seq<Value>, w: seq<Value>, i: nat, j: nat, k: nat)
    requires |v| == |w| && v != w && i < j < k < |v| && k <= i + 1022
    requires forall q :: 0 <= q < |v| && q != i && q != j && q != k ==> v[q] == w[q]
    requires ValidChecksum(hrp, v)
    ensures !ValidChecksum(hrp, w)
  {
    hide Run, Syms;
    DifferentSyms(v, w);
    DetectsThreeErrors(Start(hrp), Syms(v), Syms(w), i, j, k);
  }

  /** No change of one to four values of a valid sequence is valid, within 89 values. */
  lemma FourChangesDetected(hrp: Bytes, v: seq<Value>, w: seq<Value>, i: nat, j: nat, k: nat, l: nat)
    requires |v| == |w| && v != w && i < j < k < l < |v| && l <= i + 88
    requires forall q :: 0 <= q < |v| && q != i && q != j && q != k && q != l ==> v[q] == w[q]
    requires ValidChecksum(hrp, v)
    ensures !ValidChecksum(hrp, w)
  {
    hide Run, Syms;
    DifferentSyms(v, w);
    DetectsFourErrors(Start(hrp), Syms(v), Syms(w), i, j, k, l);
  }

  /** No change confined to six consecutive values of a valid sequence is valid, at any length. */
  lemma BurstDetected(hrp: Bytes, v: seq<Value>, w: seq<Value>, i: nat)
    requires |v| == |w| && v != w && i + 6 <= |v|
    requires forall q :: 0 <= q < |v| && !(i <= q < i + 6) ==> v[q] == w[q]
    requires ValidChecksum(hrp, v)
    ensures !ValidChecksum(hrp, w)
  {
    hide Run, Syms;
    DifferentSyms(v, w);
    DetectsBursts(Start(hrp), Syms(v), Syms(w), i);
  }

  /** The checksum of a sequence is the only one. */
  lemma ChecksumIsUnique(hrp: Bytes, values: seq<Value>, six: seq<Value>)
    requires |six| == 6
    ensures ValidChecksum(hrp, values + six) <==> six == Checksum(hrp, values)
  {
    hide ValidChecksum, Checksum;
    ChecksumIsValid(hrp, values);
    var c := Checksum(hrp, values);
    if six != c {
      assert (values + six)[|values|..] == six && (values + c)[|values|..] == c;
      BurstDetected(hrp, values + c, values + six, |values|);
    }
  }
}
