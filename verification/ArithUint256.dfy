/** base_uint<256>: eight 32-bit limbs rewritten in place by every operator. */
module ArithUint256 {
  import opened Bits
  import opened Limbs

  const WIDTH := 8

  /** 2^256. */
  function Modulus(): nat { PowB(WIDTH) }

  /** One link of a carry chain: limb i of the result and the carry into the rest. */
  lemma ChainStep(full: seq<Word>, p: seq<Word>, b: seq<Word>, x: Word, c: Word, i: nat)
    requires |full| == |p| == |b| && i < |p| && full[i..] == MulAdd(p[i..], b[i..], x, c)
    ensures var n := c + p[i] + x * b[i];
            0 <= n < 0x1_0000_0000_0000_0000 && 0 <= n / B < B
            && full[i] == n % B && full[i + 1..] == MulAdd(p[i + 1..], b[i + 1..], x, n / B)
  {
    PartialSumFits(c, p[i], x, b[i]);
    assert p[i..][1..] == p[i + 1..] && b[i..][1..] == b[i + 1..];
    assert full[i..][0] == full[i] && full[i..][1..] == full[i + 1..];
  }

  lemma {:induction false} ShiftUpAt(a: seq<Word>, s: nat, c: nat, i: nat)
    requires s < 32 && c < Pow2(s) && i < |a|
    ensures ShiftUp(a, s, c)[i] == Low(a[i], s) + if i == 0 then c else High(a[i - 1], s)
    decreases |a|
  {
    ShiftParts(a[0], s);
    if i > 0 { ShiftUpAt(a[1..], s, High(a[0], s), i - 1); }
  }

  lemma {:induction false} ShiftDownAt(a: seq<Word>, s: nat, i: nat)
    requires s < 32 && i < |a|
    ensures ShiftDown(a, s)[i] == a[i] / Pow2(s) + ((if i + 1 < |a| then a[i + 1] else 0) % Pow2(s)) * Pow2(32 - s)
    decreases |a|
  {
    if i > 0 { ShiftDownAt(a[1..], s, i - 1); }
  }

  lemma {:induction false} ComplementAt(s: seq<Word>, i: nat)
    requires i < |s|
    ensures Complement(s)[i] == B - 1 - s[i]
    decreases |s|
  {
    if i > 0 { ComplementAt(s[1..], i - 1); }
  }

  lemma IncrementStep(full: seq<Word>, p: seq<Word>, i: nat)
    requires |full| == |p| && i < |p| && full[i..] == Increment(p[i..])
    ensures full[i] == (p[i] as int + 1) % B
    ensures p[i] == B - 1 ==> full[i + 1..] == Increment(p[i + 1..])
    ensures p[i] != B - 1 ==> forall j :: i < j < |p| ==> full[j] == p[j]
  {
    assert p[i..][1..] == p[i + 1..];
    assert full[i..][0] == full[i] && full[i..][1..] == full[i + 1..];
  }

  lemma OrZero(x: nat)
    ensures BitOr(0, x) == x
  {}

  /** What a limb holds once the first i source limbs were shifted left into place. */
  function LeftSoFar(a: seq<Word>, k: nat, s: nat, i: nat, j: nat): int
    requires s < 32 && i <= |a| && j < |a|
  {
    (if k <= j < k + i then Low(a[j - k], s) else 0) +
    (if k < j <= k + i then High(a[j - k - 1], s) else 0)
  }

  /** What a limb holds once the first i source limbs were shifted right into place. */
  function RightSoFar(a: seq<Word>, k: nat, s: nat, i: nat, j: nat): int
    requires s < 32 && i <= |a| && j < |a|
  {
    (if j + k < i then a[j + k] / Pow2(s) else 0) +
    (if j + k + 1 < i then (a[j + k + 1] % Pow2(s)) * Pow2(32 - s) else 0)
  }

  lemma LeftDone(a: seq<Word>, k: nat, s: nat, r: seq<Word>)
    requires s < 32 && |r| == |a| && forall j :: 0 <= j < |a| ==> r[j] as int == LeftSoFar(a, k, s, |a|, j)
    ensures r == ShiftLeft(a, k, s)
  {
    hide Pow2, Low, High;
    forall j | 0 <= j < |a| ensures r[j] == ShiftLeft(a, k, s)[j] {
      if j >= k { ShiftUpAt(a[..|a| - k], s, 0, j - k); }
    }
  }

  lemma RightDone(a: seq<Word>, k: nat, s: nat, r: seq<Word>)
    requires s < 32 && |r| == |a| && forall j :: 0 <= j < |a| ==> r[j] as int == RightSoFar(a, k, s, |a|, j)
    ensures r == ShiftRight(a, k, s)
  {
    hide Pow2;
    ModIs(0, 0, Pow2(s), 0);
    forall j | 0 <= j < |a| ensures r[j] == ShiftRight(a, k, s)[j] {
      if j + k < |a| { ShiftDownAt(a[k..], s, j); }
    }
  }

  /** Oring a limb's low part over the high part of its neighbour adds them. */
  lemma OrLow(x: Word, high: nat, s: nat)
    requires s < 32 && high < Pow2(s)
    ensures BitOr(high, Low(x, s)) == high + Low(x, s) < B
  {
    hide Pow2, BitOr;
    ShiftParts(x, s);
    BitOrDisjoint(high, x % Pow2(32 - s), s);
  }

  lemma HighOfNoShift(x: Word)
    ensures High(x, 0) == 0
  {
    hide Pow2;
    Pow2Of32();
    ModIs(x, 0, B, x);
  }

  lemma OrDown(x: Word, next: Word, s: nat)
    requires 0 < s < 32
    ensures (next * Pow2(32 - s)) % B == (next % Pow2(s)) * Pow2(32 - s)
    ensures BitOr(x / Pow2(s), (next * Pow2(32 - s)) % B) == x / Pow2(s) + (next % Pow2(s)) * Pow2(32 - s) < B
  {
    hide Pow2, BitOr;
    DownParts(x, next, s);
    ShiftParts(next, 32 - s);
    BitOrDisjoint(x / Pow2(s), next % Pow2(s), 32 - s);
  }

  class BaseUint {
    const pn: array<Word>

    ghost predicate Valid() { pn.Length == WIDTH }

    ghost function Value(): nat
      requires Valid()
      reads pn
    { Val(pn[..]) }

    constructor ()
      ensures Valid() && fresh(pn) && pn[..] == Zeros(WIDTH)
    {
      pn := new Word[WIDTH](_ => 0);
    }

    /** The copy constructor. */
    constructor Copy(b: BaseUint)
      requires b.Valid()
      ensures Valid() && fresh(pn) && pn[..] == b.pn[..]
    {
      pn := new Word[WIDTH](i requires 0 <= i < WIDTH && b.pn.Length == WIDTH reads b.pn => b.pn[i]);
    }

    /** Assignment from a 64-bit number. */
    method Assign(b: nat)
      requires Valid() && b < 0x1_0000_0000_0000_0000
      modifies pn
      ensures Value() == b
    {
      hide Val;
      Clear();
      pn[0], pn[1] := b % B, b / B;
      assert pn[..] == [b % B, b / B] + Zeros(WIDTH - 2);
      TwoLimbs(pn[..]);
      ZerosValue(WIDTH - 2);
    }

    method GetLow64() returns (r: nat)
      requires Valid()
      ensures r == Value() % 0x1_0000_0000_0000_0000
    {
      TwoLimbs(pn[..]);
      r := pn[0] as int + B * pn[1] as int;
      ModIs(r, Val(pn[2..]), 0x1_0000_0000_0000_0000, Value());
    }

    /** EqualTo: comparison with a 64-bit number. */
    method EqualTo(b: nat) returns (r: bool)
      requires Valid() && b < 0x1_0000_0000_0000_0000
      ensures r == (Value() == b)
    {
      hide Val;
      TwoLimbs(pn[..]);
      for i := WIDTH downto 2
        invariant forall j :: i <= j < WIDTH ==> pn[j] == 0
      {
        if pn[i] != 0 {
          assert pn[..][2..][i - 2] != 0;
          ValPositive(pn[..][2..], i - 2);
          return false;
        }
      }
      assert pn[..][2..] == Zeros(WIDTH - 2);
      ZerosValue(WIDTH - 2);
      if pn[1] != b / B { return false; }
      if pn[0] != b % B { return false; }
      return true;
    }

    /** operator+=. */
    method AddAssign(b: BaseUint)
      requires Valid() && b.Valid()
      modifies pn
      ensures Value() == (old(Value()) + old(b.Value())) % Modulus()
    {
      hide MulAdd, Val;
      ghost var p0, b0 := pn[..], b.pn[..];
      ghost var full := MulAdd(p0, b0, 1, 0);
      assert p0[0..] == p0 && b0[0..] == b0 && full[0..] == full;
      var carry: Word := 0;
      for i := 0 to WIDTH
        invariant full[i..] == MulAdd(p0[i..], b0[i..], 1, carry)
        invariant forall j :: 0 <= j < i ==> pn[j] == full[j]
        invariant forall j :: i <= j < WIDTH ==> pn[j] == p0[j] && b.pn[j] == b0[j]
      {
        ChainStep(full, p0, b0, 1, carry, i);
        var n: int := carry as int + pn[i] as int + b.pn[i] as int;
        pn[i] := n % B;
        carry := n / B;
      }
      assert pn[..] == full;
      MulAddMod(p0, b0, 1, 0);
    }

    /** operator++, the carry running up through full limbs. */
    method PlusPlus()
      requires Valid()
      modifies pn
      ensures pn[..] == Increment(old(pn[..]))
    {
      hide Increment;
      ghost var p0 := pn[..];
      ghost var full := Increment(p0);
      assert p0[0..] == p0 && full[0..] == full;
      var i := 0;
      while i < WIDTH
        invariant 0 <= i <= WIDTH
        invariant full[i..] == Increment(p0[i..])
        invariant forall j :: 0 <= j < i ==> pn[j] == full[j]
        invariant forall j :: i <= j < WIDTH ==> pn[j] == p0[j]
      {
        IncrementStep(full, p0, i);
        pn[i] := (pn[i] as int + 1) % B;
        if pn[i] != 0 { break; }
        i := i + 1;
      }
      assert pn[..] == full;
    }

    /** Unary minus: complement, then add one. */
    method Negate() returns (r: BaseUint)
      requires Valid()
      ensures r.Valid() && fresh(r) && fresh(r.pn)
      ensures r.Value() == if Value() == 0 then 0 else Modulus() - Value()
    {
      r := new BaseUint();
      for i := 0 to WIDTH
        invariant forall j :: 0 <= j < i ==> r.pn[j] == B - 1 - pn[j]
      {
        r.pn[i] := B - 1 - pn[i];
      }
      forall j | 0 <= j < WIDTH ensures r.pn[j] == Complement(pn[..])[j] { ComplementAt(pn[..], j); }
      assert r.pn[..] == Complement(pn[..]);
      r.PlusPlus();
      NegateValue(pn[..]);
    }

    /** operator-=. */
    method SubAssign(b: BaseUint)
      requires Valid() && b.Valid()
      modifies pn
      ensures Value() == if old(Value()) >= old(b.Value()) then old(Value()) - old(b.Value())
                         else old(Value()) - old(b.Value()) + Modulus()
    {
      ghost var x, y := Value(), b.Value();
      ValBound(pn[..]);
      ValBound(b.pn[..]);
      var neg := b.Negate();
      AddAssign(neg);
      SubMod(x, y, Modulus());
    }

    method Clear()
      requires Valid()
      modifies pn
      ensures forall j :: 0 <= j < WIDTH ==> pn[j] == 0
    {
      for i := 0 to WIDTH
        invariant forall j :: 0 <= j < i ==> pn[j] == 0
      { pn[i] := 0; }
    }

    /** One round of operator<<=: the two parts of source limb i. */
    method OrInLeft(x: Word, k: nat, s: nat, i: nat, ghost a: seq<Word>)
      requires Valid() && s < 32 && |a| == WIDTH && i < WIDTH && x == a[i]
      requires forall j :: 0 <= j < WIDTH ==> pn[j] as int == LeftSoFar(a, k, s, i, j)
      modifies pn
      ensures forall j :: 0 <= j < WIDTH ==> pn[j] as int == LeftSoFar(a, k, s, i + 1, j)
    {
      hide Pow2, Low, High, BitOr;
      ShiftParts(x, s);
      if s == 0 { HighOfNoShift(x); }
      if i + k + 1 < WIDTH && s != 0 {
        OrZero(High(x, s));
        assert pn[i + k + 1] == 0;
        pn[i + k + 1] := BitOr(pn[i + k + 1], High(x, s));
      }
      if i + k < WIDTH {
        if i > 0 { ShiftParts(a[i - 1], s); }
        OrLow(x, pn[i + k], s);
        pn[i + k] := BitOr(pn[i + k], Low(x, s));
      }
    }

    /** operator<<=. */
    method ShiftLeftAssign(shift: nat)
      requires Valid()
      modifies pn
      ensures Value() == (old(Value()) * Pow2(shift)) % Modulus()
    {
      hide Pow2, Val, LeftSoFar;
      ghost var a0 := pn[..];
      var a := new BaseUint.Copy(this);
      Clear();
      var k, s := shift / 32, shift % 32;
      NothingYet(a0, k, s);
      for i := 0 to WIDTH
        invariant a.pn[..] == a0
        invariant forall j :: 0 <= j < WIDTH ==> pn[j] as int == LeftSoFar(a0, k, s, i, j)
      {
        assert a.pn[i] == a.pn[..][i];
        OrInLeft(a.pn[i], k, s, i, a0);
      }
      LeftDone(a0, k, s, pn[..]);
      ShiftLeftValue(a0, shift);
    }

    /** One round of operator>>=: the two parts of source limb i. */
    method OrInRight(x: Word, k: nat, s: nat, i: nat, ghost a: seq<Word>)
      requires Valid() && s < 32 && |a| == WIDTH && i < WIDTH && x == a[i]
      requires forall j :: 0 <= j < WIDTH ==> pn[j] as int == RightSoFar(a, k, s, i, j)
      modifies pn
      ensures forall j :: 0 <= j < WIDTH ==> pn[j] as int == RightSoFar(a, k, s, i + 1, j)
    {
      hide Pow2, BitOr;
      if s == 0 { ModOfNoShift(x); }
      DownParts(x, 0, s);
      if i >= k + 1 && s != 0 {
        OrDown(a[i - 1], x, s);
        pn[i - k - 1] := BitOr(pn[i - k - 1], (x * Pow2(32 - s)) % B);
      }
      if i >= k {
        OrZero(x / Pow2(s));
        assert pn[i - k] == 0;
        pn[i - k] := BitOr(pn[i - k], x / Pow2(s));
      }
    }

    /** operator>>=. */
    method ShiftRightAssign(shift: nat)
      requires Valid()
      modifies pn
      ensures Value() == old(Value()) / Pow2(shift)
    {
      hide Pow2, Val, RightSoFar;
      ghost var a0 := pn[..];
      var a := new BaseUint.Copy(this);
      Clear();
      var k, s := shift / 32, shift % 32;
      NothingYet(a0, k, s);
      for i := 0 to WIDTH
        invariant a.pn[..] == a0
        invariant forall j :: 0 <= j < WIDTH ==> pn[j] as int == RightSoFar(a0, k, s, i, j)
      {
        assert a.pn[i] == a.pn[..][i];
        OrInRight(a.pn[i], k, s, i, a0);
      }
      RightDone(a0, k, s, pn[..]);
      ShiftRightValue(a0, shift);
    }

    /** operator*= by a 32-bit number. */
    method MulAssign32(b32: Word)
      requires Valid()
      modifies pn
      ensures Value() == (b32 * old(Value())) % Modulus()
    {
      hide MulAdd, Val;
      ghost var p0, z := pn[..], Zeros(WIDTH);
      ghost var full := MulAdd(z, p0, b32, 0);
      assert p0[0..] == p0 && z[0..] == z && full[0..] == full;
      var carry: Word := 0;
      for i := 0 to WIDTH
        invariant full[i..] == MulAdd(z[i..], p0[i..], b32, carry)
        invariant forall j :: 0 <= j < i ==> pn[j] == full[j]
        invariant forall j :: i <= j < WIDTH ==> pn[j] == p0[j]
      {
        ChainStep(full, z, p0, b32, carry, i);
        var n: int := carry as int + b32 as int * pn[i] as int;
        pn[i] := n % B;
        carry := n / B;
      }
      assert pn[..] == full;
      MulAddMod(z, p0, b32, 0);
      ZerosValue(WIDTH);
    }

    /** CompareTo: the sign of the difference. */
    method CompareTo(b: BaseUint) returns (sign: int)
      requires Valid() && b.Valid()
      ensures sign == if Value() < b.Value() then -1 else if Value() > b.Value() then 1 else 0
    {
      hide Val;
      var i := WIDTH;
      while i > 0
        invariant 0 <= i <= WIDTH
        invariant forall j :: i <= j < WIDTH ==> pn[j] == b.pn[j]
      {
        i := i - 1;
        if pn[i] != b.pn[i] {
          assert pn[..][i + 1..] == b.pn[..][i + 1..];
          if pn[i] < b.pn[i] { TopLimbDecides(pn[..], b.pn[..], i); return -1; }
          TopLimbDecides(b.pn[..], pn[..], i);
          return 1;
        }
      }
      assert pn[..] == b.pn[..];
      return 0;
    }

    /** One row of operator*=: add x times b, shifted by j limbs. */
    method MulRow(b: BaseUint, x: Word, j: nat)
      requires Valid() && b.Valid() && j < WIDTH
      requires b.pn == pn ==> pn[..] == Zeros(WIDTH)
      modifies pn
      ensures b.pn == pn ==> pn[..] == Zeros(WIDTH)
      ensures b.pn != pn ==> pn[..j] == old(pn[..j]) && pn[j..] == MulAdd(old(pn[j..]), b.pn[..WIDTH - j], x, 0)
    {
      hide MulAdd, Val;
      ghost var p0, b0 := pn[j..], b.pn[..WIDTH - j];
      ghost var full := MulAdd(p0, b0, x, 0);
      assert p0[0..] == p0 && b0[0..] == b0 && full[0..] == full;
      var carry: Word := 0;
      for i := 0 to WIDTH - j
        invariant b.pn == pn ==> carry == 0 && forall t :: 0 <= t < WIDTH ==> pn[t] == 0
        invariant b.pn != pn ==> full[i..] == MulAdd(p0[i..], b0[i..], x, carry)
        invariant b.pn != pn ==> forall t :: 0 <= t < i ==> pn[j + t] == full[t]
        invariant b.pn != pn ==> forall t :: i <= t < WIDTH - j ==> pn[j + t] == p0[t]
        invariant b.pn != pn ==> forall t :: 0 <= t < j ==> pn[t] == old(pn[t])
      {
        if b.pn != pn { ChainStep(full, p0, b0, x, carry, i); }
        PartialSumFits(carry, pn[i + j], x, b.pn[i]);
        var n: int := carry as int + pn[i + j] as int + x as int * b.pn[i] as int;
        if b.pn == pn { assert x * b.pn[i] == 0; }
        pn[i + j] := n % B;
        carry := n / B;
      }
      if b.pn != pn { assert pn[j..] == full; }
    }

    /** operator*=. The target is cleared before the other factor is read, so x *= x loses x. */
    method MulAssign(b: BaseUint)
      requires Valid() && b.Valid()
      modifies pn
      ensures Value() == if b.pn == pn then 0 else (old(Value()) * old(b.Value())) % Modulus()
      ensures var product := (old(Value()) * old(b.Value())) % Modulus();
              Value() == product <==> b.pn != pn || product == 0
    {
      hide MulAdd, Val, PowB;
      ghost var a0, b0, q := pn[..], b.pn[..], 0;
      var a := new BaseUint.Copy(this);
      Clear();
      assert pn[..] == Zeros(WIDTH);
      ZerosValue(WIDTH);
      ValEmpty();
      for j := 0 to WIDTH
        invariant a.pn[..] == a0 && (b.pn != pn ==> b.pn[..] == b0)
        invariant b.pn == pn ==> pn[..] == Zeros(WIDTH)
        invariant b.pn != pn ==> Val(pn[..]) + PowB(WIDTH) * q == Val(a0[..j]) * Val(b0)
      {
        ghost var p := pn[..];
        assert a.pn[j] == a0[j];
        label before:
        MulRow(b, a.pn[j], j);
        if b.pn != pn {
          assert p[j..] == old@before(pn[j..]);
          q := RowValue(p, pn[..], a0, b0, j, q);
        }
      }
      if b.pn != pn {
        assert a0[..WIDTH] == a0;
        ValBound(pn[..]);
        ModIs(Value(), q, PowB(WIDTH), Val(a0) * Val(b0));
      }
    }

    /** bits: the position above the highest bit set. */
    method Bits() returns (n: nat)
      requires Valid()
      ensures n <= 256 && Value() < Pow2(n) && (n > 0 ==> Pow2(n - 1) <= Value())
    {
      hide Val, Pow2, PowB;
      var pos := WIDTH;
      while pos > 0
        invariant 0 <= pos <= WIDTH
        invariant forall j :: pos <= j < WIDTH ==> pn[j] == 0
      {
        pos := pos - 1;
        if pn[pos] != 0 {
          Pow2Of32();
          var nbits := 31;
          while nbits > 0
            invariant 0 <= nbits <= 31 && pn[pos] < Pow2(nbits + 1)
          {
            BitTest(pn[pos], nbits);
            if (pn[pos] / Pow2(nbits)) % 2 == 1 {
              TopBit(pn[..], pos, nbits);
              return 32 * pos + nbits + 1;
            }
            nbits := nbits - 1;
          }
          Pow2Of0();
          TopBit(pn[..], pos, 0);
          return 32 * pos + 1;
        }
      }
      assert pn[..] == Zeros(WIDTH);
      ZerosValue(WIDTH);
      Pow2Of0();
      return 0;
    }

    /** Set one bit of a number that has no bit at or below it. */
    method SetBit(shift: nat)
      requires Valid() && shift < 256
      requires Value() % Pow2(shift + 1) == 0
      modifies pn
      ensures Value() == old(Value()) + Pow2(shift)
    {
      hide Val, Pow2, PowB, BitOr;
      var k, s := shift / 32, shift % 32;
      ghost var p := pn[..];
      BitIsClear(p, k, s);
      pn[k] := BitOr(pn[k], Pow2(s));
      assert pn[..] == p[k := p[k] + Pow2(s)];
      PowBIsPow2(k);
      Pow2Add(32 * k, s);
      ValUpdate(p, k, p[k] + Pow2(s));
    }

    /** One round of operator/=: subtract the shifted divisor if it fits, then shift it back. */
    method DivRound(num: BaseUint, div: BaseUint, shift: nat, ghost d: nat)
      requires Valid() && num.Valid() && div.Valid() && pn != num.pn && pn != div.pn && num.pn != div.pn
      requires shift < 256 && div.Value() == d * Pow2(shift)
      requires num.Value() < d * Pow2(shift + 1) && Value() % Pow2(shift + 1) == 0
      modifies pn, num.pn, div.pn
      ensures shift > 0 ==> div.Value() == d * Pow2(shift - 1)
      ensures num.Value() < d * Pow2(shift) && Value() % Pow2(shift) == 0
      ensures Value() * d + num.Value() == old(Value()) * d + old(num.Value())
    {
      hide Val, Pow2, PowB;
      DivStep(Value(), num.Value(), d, shift);
      var cmp := num.CompareTo(div);
      if cmp >= 0 {
        num.SubAssign(div);
        SetBit(shift);
      }
      div.ShiftRightAssign(1);
    }

    /** The rounds of operator/=, from the highest possible quotient bit down. */
    method DivRounds(num: BaseUint, div: BaseUint, top: nat, ghost d: nat)
      requires Valid() && num.Valid() && div.Valid() && pn != num.pn && pn != div.pn && num.pn != div.pn
      requires top < 256 && div.Value() == d * Pow2(top)
      requires num.Value() < d * Pow2(top + 1) && Value() == 0
      modifies pn, num.pn, div.pn
      ensures num.Value() < d && old(num.Value()) == num.Value() + d * Value()
    {
      hide Val, Pow2, PowB;
      ghost var n := num.Value();
      ModIs(0, 0, Pow2(top + 1), 0);
      var shift: int := top;
      while shift >= 0
        invariant -1 <= shift < 256
        invariant shift >= 0 ==> div.Value() == d * Pow2(shift)
        invariant num.Value() < d * Pow2(shift + 1) && Value() % Pow2(shift + 1) == 0
        invariant Value() * d + num.Value() == n
      {
        DivRound(num, div, shift, d);
        shift := shift - 1;
      }
      Pow2Of0();
    }

    /** operator/=. Division by zero is refused, with the target already cleared. */
    method DivAssign(b: BaseUint) returns (ok: bool)
      requires Valid() && b.Valid()
      modifies pn
      ensures ok == (old(b.Value()) != 0)
      ensures Value() == if ok then old(Value()) / old(b.Value()) else 0
    {
      hide Val, Pow2, PowB;
      ghost var n0, d0 := Value(), b.Value();
      var div := new BaseUint.Copy(b);
      var num := new BaseUint.Copy(this);
      Clear();
      assert pn[..] == Zeros(WIDTH);
      ZerosValue(WIDTH);
      var numBits := num.Bits();
      var divBits := div.Bits();
      Pow2Of0();
      if divBits == 0 { return false; }
      Pow2Monotone(0, divBits - 1);
      if divBits > numBits {
        Pow2Monotone(numBits, divBits - 1);
        ModIs(n0, 0, d0, n0);
        return true;
      }
      var shift := numBits - divBits;
      DivStart(n0, d0, numBits, divBits);
      div.ShiftLeftAssign(shift);
      DivRounds(num, div, shift, d0);
      ModIs(num.Value(), Value(), d0, n0);
      return true;
    }
  }

  /** The product rule fails for x *= x: one squared in place is zero. */
  method SquareInPlace() returns (before: seq<Word>, after: seq<Word>)
    ensures Val(before) == 1 && Val(after) == 0
  {
    hide Val;
    var x := new BaseUint();
    x.Assign(1);
    before := x.pn[..];
    x.MulAssign(x);
    after := x.pn[..];
  }

  lemma TwoLimbs(s: seq<Word>)
    requires |s| >= 2
    ensures Val(s) == s[0] + B * s[1] + 0x1_0000_0000_0000_0000 * Val(s[2..])
  {
    assert s[1..][1..] == s[2..];
  }

  lemma {:induction false} ValPositive(s: seq<Word>, i: nat)
    requires i < |s| && s[i] != 0
    ensures Val(s) > 0
    decreases |s|
  {
    if i > 0 { ValPositive(s[1..], i - 1); }
  }

  lemma ValEmpty()
    ensures Val([]) == 0
  {}

  lemma Pow2Of0()
    ensures Pow2(0) == 1
  {}

  // ----- What one row of a product adds -----

  lemma ValPrefix(a: seq<Word>, j: nat)
    requires j < |a|
    ensures Val(a[..j + 1]) == Val(a[..j]) + PowB(j) * a[j]
  {
    ValAppend(a[..j], [a[j]]);
    assert a[..j + 1] == a[..j] + [a[j]];
  }

  lemma RowValue(p: seq<Word>, p': seq<Word>, a: seq<Word>, b: seq<Word>, j: nat, q: int) returns (q': int)
    requires |p| == |p'| == |a| == |b| && j < |p|
    requires p'[..j] == p[..j] && p'[j..] == MulAdd(p[j..], b[..|b| - j], a[j], 0)
    requires Val(p) + PowB(|p|) * q == Val(a[..j]) * Val(b)
    ensures Val(p') + PowB(|p|) * q' == Val(a[..j + 1]) * Val(b)
  {
    hide Val, PowB, MulAdd, CarryOut;
    var n := |p| - j;
    MulAddValue(p[j..], b[..n], a[j], 0);
    var co := CarryOut(p[j..], b[..n], a[j], 0);
    ValAppend(p[..j], p[j..]);
    ValAppend(p'[..j], p'[j..]);
    ValAppend(b[..n], b[n..]);
    assert p[..j] + p[j..] == p && p'[..j] + p'[j..] == p' && b[..n] + b[n..] == b;
    ValPrefix(a, j);
    PowBAdd(j, n);
    q' := q + co * 1 + a[j] * Val(b[n..]);
    RowArith(Val(p'), Val(p), Val(p[..j]), Val(p'[j..]), Val(p[j..]), Val(b), Val(b[..n]), Val(b[n..]),
             PowB(j), PowB(n), co, a[j], Val(a[..j]), q);
  }

  lemma RowArith(v': int, v: int, low: int, h': int, h: int, b: int, bl: int, bh: int,
                 pj: int, pn: int, co: int, x: int, a: int, q: int)
    requires v == low + pj * h && v' == low + pj * h' && b == bl + pn * bh
    requires h' + pn * co == h + x * bl
    requires v + (pj * pn) * q == a * b
    ensures v' + (pj * pn) * (q + co + x * bh) == (a + pj * x) * b
  {
    calc {
      (a + pj * x) * b;
      a * b + pj * x * b;
      v + (pj * pn) * q + (pj * x) * (bl + pn * bh);
      v + (pj * pn) * q + pj * (x * bl) + (pj * pn) * (x * bh);
      low + pj * h + pj * (h' + pn * co - h) + (pj * pn) * q + (pj * pn) * (x * bh);
      low + pj * h' + (pj * pn) * co + (pj * pn) * q + (pj * pn) * (x * bh);
    }
  }

  // ----- The highest bit set -----

  lemma BitTest(x: Word, n: nat)
    requires x < Pow2(n + 1)
    ensures if (x / Pow2(n)) % 2 == 1 then Pow2(n) <= x else x < Pow2(n)
  {
    DivMod(x, Pow2(n));
    var q, r := x / Pow2(n), x % Pow2(n);
    if q >= 2 { MulMonotone(Pow2(n), 2, q); }
    if q < 0 { MulMonotone(Pow2(n), q, -1); }
  }

  lemma TopBit(s: seq<Word>, pos: nat, n: nat)
    requires pos < |s| && n < 32 && Pow2(n) <= s[pos] < Pow2(n + 1)
    requires forall j :: pos < j < |s| ==> s[j] == 0
    ensures Pow2(32 * pos + n) <= Val(s) < Pow2(32 * pos + n + 1)
  {
    hide Pow2, Val, PowB;
    assert s == s[..pos + 1] + Zeros(|s| - pos - 1);
    ValAppend(s[..pos + 1], Zeros(|s| - pos - 1));
    ZerosValue(|s| - pos - 1);
    ValPrefix(s, pos);
    ValBound(s[..pos]);
    PowBIsPow2(pos);
    Pow2Add(32 * pos, n);
    Pow2Add(32 * pos, n + 1);
    MulMonotone(PowB(pos), Pow2(n), s[pos]);
    MulMonotone(PowB(pos), s[pos] as int + 1, Pow2(n + 1));
    assert PowB(pos) * (s[pos] as int + 1) == PowB(pos) * s[pos] + PowB(pos);
  }

  // ----- Long division -----

  lemma ValUpdate(p: seq<Word>, k: nat, x: Word)
    requires k < |p|
    ensures Val(p[k := x]) == Val(p) + PowB(k) * (x - p[k])
  {
    hide Val, PowB;
    ValAppend(p[..k + 1], p[k + 1..]);
    ValAppend(p[k := x][..k + 1], p[k + 1..]);
    assert p == p[..k + 1] + p[k + 1..] && p[k := x] == p[k := x][..k + 1] + p[k + 1..];
    ValPrefix(p, k);
    ValPrefix(p[k := x], k);
    assert p[k := x][..k] == p[..k];
    assert PowB(k) * (x - p[k]) == PowB(k) * x - PowB(k) * p[k];
  }

  lemma BitIsClear(p: seq<Word>, k: nat, s: nat)
    requires k < |p| && s < 32 && Val(p) % Pow2(32 * k + s + 1) == 0
    ensures BitOr(p[k], Pow2(s)) == p[k] + Pow2(s) < B
  {
    hide Val, PowB, Pow2, BitOr;
    var m := Pow2(s + 1);
    PowBIsPow2(k);
    Pow2Add(32 * k, s + 1);
    DivMod(Val(p), Pow2(32 * k + s + 1));
    var t := Val(p) / Pow2(32 * k + s + 1);
    ValAppend(p[..k], p[k..]);
    assert p == p[..k] + p[k..];
    ValBound(p[..k]);
    assert PowB(k) * (m * t) == (PowB(k) * m) * t;
    QuotientIsUnique(PowB(k), Val(p[k..]), Val(p[..k]), m * t, 0);
    var rest := ValHead(p, k);
    WordSplits(s + 1);
    var u := t - Pow2(31 - s) * rest;
    assert p[k] == m * u by { MulDifference(m, t, Pow2(31 - s), rest); }
    ClearBelow(p[k], u, s);
  }

  lemma ValHead(p: seq<Word>, k: nat) returns (rest: nat)
    requires k < |p|
    ensures Val(p[k..]) == p[k] + B * rest
  {
    rest := Val(p[k..][1..]);
  }

  lemma MulDifference(m: int, t: int, w: int, r: int)
    ensures m * (t - w * r) == m * t - (m * w) * r
  {
    assert m * (t - w * r) == m * t - m * (w * r);
    assert m * (w * r) == (m * w) * r;
  }

  lemma ClearBelow(x: Word, u: int, s: nat)
    requires s < 32 && x == Pow2(s + 1) * u
    ensures BitOr(x, Pow2(s)) == x + Pow2(s) < B
  {
    hide Pow2, BitOr;
    Pow2Step(s);
    WordSplits(s + 1);
    MultipleFits(x, u, Pow2(s + 1), Pow2(31 - s));
    BitOrDisjoint(Pow2(s), u, s + 1);
  }

  lemma Pow2Step(k: nat)
    ensures Pow2(k + 1) == 2 * Pow2(k)
  {}

  lemma MultipleFits(x: Word, u: int, m: nat, w: nat)
    requires m > 0 && m * w == B && x == m * u
    ensures u >= 0 && x == u * m && x <= B - m
  {
    if u < 0 { MulMonotone(m, u, -1); }
    if u >= w { MulMonotone(m, w, u); }
    MulMonotone(m, u, w - 1);
    assert m * (w - 1) == m * w - m;
  }

  lemma DivStart(n: nat, d: nat, nb: nat, db: nat)
    requires 1 <= db <= nb <= 256 && n < Pow2(nb) && Pow2(db - 1) <= d < Pow2(db)
    ensures n < d * Pow2(nb - db + 1)
    ensures (d * Pow2(nb - db)) % PowB(WIDTH) == d * Pow2(nb - db)
  {
    hide Pow2, PowB;
    Pow2Add(db - 1, nb - db + 1);
    MulMonotone(Pow2(nb - db + 1), Pow2(db - 1), d);
    AlignedFits(d, nb, db);
    ModIs(d * Pow2(nb - db), 0, PowB(WIDTH), d * Pow2(nb - db));
  }

  lemma AlignedFits(d: nat, nb: nat, db: nat)
    requires 1 <= db <= nb <= 256 && d < Pow2(db)
    ensures 0 <= d * Pow2(nb - db) < PowB(WIDTH)
  {
    hide Pow2, PowB;
    Pow2Add(db, nb - db);
    ScaledBelow(d, Pow2(db), Pow2(nb - db));
    PowBIsPow2(WIDTH);
    Pow2Monotone(nb, 256);
  }

  lemma ScaledBelow(d: nat, m: nat, p: nat)
    requires d < m && p > 0
    ensures 0 <= d * p < m * p
  {
    MulMonotone(p, 0, d);
    MulMonotone(p, d + 1, m);
    assert p * (d + 1) == p * d + p;
  }

  /** One round keeps quotient times divisor plus remainder, and halves the bound on the remainder. */
  lemma DivStep(q: nat, r: nat, d: nat, shift: nat)
    requires q % Pow2(shift + 1) == 0 && r < d * Pow2(shift + 1)
    ensures q % Pow2(shift) == 0 && (q + Pow2(shift)) % Pow2(shift) == 0
    ensures (q + Pow2(shift)) * d == q * d + d * Pow2(shift)
    ensures r - d * Pow2(shift) < d * Pow2(shift)
    ensures shift > 0 ==> (d * Pow2(shift)) / Pow2(1) == d * Pow2(shift - 1)
  {
    hide Pow2;
    Pow2Step(shift);
    Pow2Step(0);
    Pow2Of0();
    EvenMultiple(q, Pow2(shift));
    assert d * (2 * Pow2(shift)) == 2 * (d * Pow2(shift));
    if shift > 0 {
      Pow2Step(shift - 1);
      assert d * (2 * Pow2(shift - 1)) == 2 * (d * Pow2(shift - 1));
    }
  }

  lemma EvenMultiple(q: nat, m: nat)
    requires m > 0 && q % (2 * m) == 0
    ensures q % m == 0 && (q + m) % m == 0
  {
    DivMod(q, 2 * m);
    var t := q / (2 * m);
    assert (2 * m) * t == m * (2 * t);
    ModIs(0, 2 * t, m, q);
    assert m * (2 * t + 1) == m * (2 * t) + m;
    ModIs(0, 2 * t + 1, m, q + m);
  }

  lemma NothingYet(a: seq<Word>, k: nat, s: nat)
    requires s < 32
    ensures forall j :: 0 <= j < |a| ==> LeftSoFar(a, k, s, 0, j) == RightSoFar(a, k, s, 0, j) == 0
  {}

  lemma ModOfNoShift(x: Word)
    ensures x % Pow2(0) == 0
  {}

  lemma SubMod(x: nat, y: nat, m: nat)
    requires x < m && y < m
    ensures (x + if y == 0 then 0 else m - y) % m == if x >= y then x - y else x - y + m
  {
    if y == 0 { ModIs(x, 0, m, x); }
    else if x >= y { ModIs(x - y, 1, m, x + m - y); }
    else { ModIs(x - y + m, 0, m, x + m - y); }
  }
}
