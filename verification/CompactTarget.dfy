/** The compact difficulty format: a 23-bit mantissa, a sign bit and a base-256 exponent in one word. */
module CompactTarget {
  import opened Bytes
  import opened Bits
  import opened Limbs
  import opened ArithUint256

  const MANTISSA := 0x80_0000
  const EXPONENT := 0x100_0000

  function Mantissa(c: Word): nat { c % MANTISSA }
  function Exponent(c: Word): nat { c / EXPONENT }
  predicate SignBit(c: Word) { (c / MANTISSA) % 2 == 1 }

  /** The number a compact word stands for: mantissa times 256^(exponent - 3), unbounded. */
  function Target(c: Word): nat { Mantissa(c) * Pow256(Exponent(c)) / EXPONENT }

  predicate Negative(c: Word) { Target(c) != 0 && SignBit(c) }

  predicate Overflows(c: Word) { Target(c) >= Modulus() }

  /** How many bytes a number needs. */
  function ByteLength(v: nat): nat { |NatLe(v)| }

  /** The n-byte number's three leading bytes. */
  function Leading(v: nat, n: nat): nat {
    QuotientIsNat(v * EXPONENT, Pow256(n));
    v * EXPONENT / Pow256(n)
  }

  /** Exponent and mantissa of a number: its leading three bytes, or two when the sign bit would be hit. */
  function Parts(v: nat): (nat, nat) {
    var n := ByteLength(v);
    var m := Leading(v, n);
    if m >= MANTISSA then (n + 1, m / 256) else (n, m)
  }

  /** The compact word of a 256-bit number. */
  function CompactOf(v: nat, negative: bool): Word
    requires v < Modulus()
  {
    var (n, m) := Parts(v);
    PartsFit(v);
    n * EXPONENT + m + if negative && m != 0 then MANTISSA else 0
  }

  // ----- Byte lengths -----

  lemma {:induction false} ByteLengthBounds(v: nat)
    ensures v < Pow256(ByteLength(v))
    ensures v > 0 ==> ByteLength(v) >= 1 && Pow256(ByteLength(v) - 1) <= v
  {
    if v > 0 { ByteLengthBounds(v / 256); }
  }

  lemma {:induction false} ByteLengthIs(v: nat, n: nat)
    requires n >= 1 && Pow256(n - 1) <= v < Pow256(n)
    ensures ByteLength(v) == n
  {
    assert NatLe(0) == [];
    if n > 1 { ByteLengthIs(v / 256, n - 1); }
  }

  lemma {:induction false} Pow256Monotone(j: nat, k: nat)
    requires j <= k
    ensures Pow256(j) <= Pow256(k)
  {
    if j < k { Pow256Monotone(j, k - 1); }
  }

  lemma ModulusIs()
    ensures Modulus() == Pow256(32) == Pow2(256)
  {
    hide Pow2, PowB, Pow256;
    PowBIsPow2(WIDTH);
    Pow256IsPow2(32);
  }

  lemma Pow256Step(n: nat)
    requires n > 0
    ensures Pow256(n) == 256 * Pow256(n - 1)
  {}

  lemma SmallPowers()
    ensures Pow256(0) == 1 && Pow256(1) == 256 && Pow256(2) == 65536 && Pow256(3) == EXPONENT
  {
    assert Pow256(1) == 256;
    assert Pow256(2) == 65536;
  }

  // ----- Encoding -----

  lemma LeadingBytes(v: nat, p: nat, m0: nat)
    requires p > 0 && p <= v < 256 * p && m0 == v * EXPONENT / (256 * p)
    ensures 0x1_0000 <= m0 < EXPONENT && m0 * (256 * p) <= v * EXPONENT < (m0 + 1) * (256 * p)
  {
    DivMod(v * EXPONENT, 256 * p);
    var d := 256 * p;
    assert d * m0 <= v * EXPONENT < d * m0 + d;
    if m0 < 0x1_0000 { MulMonotone(d, m0 + 1, 0x1_0000); }
    if m0 >= EXPONENT { MulMonotone(d, EXPONENT, m0); }
    assert (m0 + 1) * d == d * m0 + d;
  }

  lemma DropByte(m0: nat, p: nat, v: nat)
    requires m0 * p <= v < (m0 + 1) * p
    ensures (m0 / 256) * (256 * p) <= v < (m0 / 256 + 1) * (256 * p)
  {
    var m := m0 / 256;
    MulMonotone(p, 256 * m, m0);
    MulMonotone(p, m0 + 1, 256 * m + 256);
    assert p * (256 * m) == m * (256 * p);
    assert p * (256 * m + 256) == (m + 1) * (256 * p);
  }

  /** The mantissa is the leading bytes, rounded down, and never needs the sign bit. */
  lemma PartsBounds(v: nat)
    requires v > 0
    ensures var (n, m) := Parts(v);
            n >= 1 && 0x8000 <= m < MANTISSA && m * Pow256(n) <= v * EXPONENT < (m + 1) * Pow256(n)
  {
    hide Pow256, ByteLength;
    var k := ByteLength(v);
    ByteLengthBounds(v);
    Pow256Step(k);
    Pow256Step(k + 1);
    var m0 := v * EXPONENT / Pow256(k);
    LeadingBytes(v, Pow256(k - 1), m0);
    DropByte(m0, Pow256(k), v * EXPONENT);
  }

  lemma PartsOfZero()
    ensures Parts(0) == (0, 0)
  {}

  lemma PartsFit(v: nat)
    requires v < Modulus()
    ensures var (n, m) := Parts(v); n <= 33 && m < MANTISSA
  {
    hide Pow256, ByteLength, PowB;
    ModulusIs();
    ByteLengthBounds(v);
    if ByteLength(v) > 32 { Pow256Monotone(32, ByteLength(v) - 1); }
    if v > 0 { PartsBounds(v); } else { PartsOfZero(); }
  }

  /** Only whole numbers are ever encoded: the discarded fraction is zero. */
  lemma PartsAreWhole(v: nat)
    requires v > 0
    ensures var (n, m) := Parts(v); (m * Pow256(n)) % EXPONENT == 0
  {
    hide Pow256, Parts;
    PartsBounds(v);
    var (n, m) := Parts(v);
    SmallPowers();
    if n == 1 {
      assert m * 256 == v * EXPONENT;
    } else if n == 2 {
      assert m * 65536 == v * EXPONENT;
    } else {
      WholePower(n);
      assert m * (EXPONENT * Pow256(n - 3)) == EXPONENT * (m * Pow256(n - 3));
      ModIs(0, m * Pow256(n - 3), EXPONENT, m * Pow256(n));
    }
  }

  lemma WholePower(n: nat)
    requires n >= 3
    ensures Pow256(n) == EXPONENT * Pow256(n - 3)
  {
    hide Pow256;
    Pow256Step(n);
    Pow256Step(n - 1);
    Pow256Step(n - 2);
  }

  // ----- A word that is its own encoding -----

  lemma ThreeByteMantissa(n: nat, m: nat, t: nat)
    requires n >= 1 && 0x1_0000 <= m < MANTISSA && t * EXPONENT == m * Pow256(n)
    ensures Parts(t) == (n, m)
  {
    hide Pow256, ByteLength;
    var p := Pow256(n - 1);
    Pow256Step(n);
    assert m * (256 * p) == 256 * (m * p);
    MulMonotone(p, 0x1_0000, m);
    MulMonotone(p, m, MANTISSA);
    ByteLengthIs(t, n);
    ModIs(0, m, Pow256(n), t * EXPONENT);
  }

  lemma TwoByteMantissa(n: nat, m: nat, t: nat)
    requires n >= 2 && 0x8000 <= m < 0x1_0000 && t * EXPONENT == m * Pow256(n)
    ensures Parts(t) == (n, m)
  {
    hide Pow256, ByteLength;
    var p := Pow256(n - 2);
    Pow256Step(n);
    Pow256Step(n - 1);
    TwoByteArith(p, m, t);
    ByteLengthIs(t, n - 1);
    ModIs(0, 256 * m, Pow256(n - 1), t * EXPONENT);
  }

  lemma TwoByteArith(p: nat, m: nat, t: nat)
    requires 0x8000 <= m < 0x1_0000 && t * EXPONENT == m * (256 * (256 * p))
    ensures p <= t && (t < 256 * p || p == 0) && (256 * p) * (256 * m) == t * EXPONENT
  {
    assert m * (256 * (256 * p)) == 65536 * (m * p);
    assert (256 * p) * (256 * m) == 65536 * (m * p);
    MulMonotone(p, 0x8000, m);
    MulMonotone(p, m, 0xffff);
  }

  lemma NormalParts(n: nat, m: nat, t: nat)
    requires 0x8000 <= m < MANTISSA && t * EXPONENT == m * Pow256(n)
    ensures Parts(t) == (n, m)
  {
    hide Pow256, Parts;
    SmallPowers();
    if m >= 0x1_0000 { ThreeByteMantissa(n, m, t); } else { TwoByteMantissa(n, m, t); }
  }

  lemma Fields(n: nat, m: nat, sign: bool)
    requires n <= 33 && m < MANTISSA
    ensures var c: Word := n * EXPONENT + m + if sign then MANTISSA else 0;
            Exponent(c) == n && Mantissa(c) == m && SignBit(c) == sign
  {}

  /** The word of a number decodes without sign or overflow trouble to the number with everything
      below the mantissa cleared, and that number has the same word. */
  lemma EncodedDecodes(v: nat, negative: bool)
    requires v < Modulus()
    ensures var c := CompactOf(v, negative);
            Target(c) <= v && (v - Target(c)) * EXPONENT < Pow256(Exponent(c))
            && !Overflows(c) && Negative(c) == (negative && v != 0) && (Target(c) == 0 <==> v == 0)
            && CompactOf(Target(c), negative) == c
  {
    hide Pow256, Parts, PowB, Exponent, Mantissa, SignBit;
    var (n, m) := Parts(v);
    PartsFit(v);
    Fields(n, m, negative && m != 0);
    SmallPowers();
    PartsOfZero();
    if v > 0 {
      PartsBounds(v);
      PartsAreWhole(v);
      var t := m * Pow256(n) / EXPONENT;
      DivMod(m * Pow256(n), EXPONENT);
      assert (m + 1) * Pow256(n) == m * Pow256(n) + Pow256(n);
      NormalParts(n, m, t);
    }
  }

  /** The words GetCompact can produce. */
  predicate Canonical(c: Word) {
    if Mantissa(c) == 0 then c == 0
    else Mantissa(c) >= 0x8000 && (Mantissa(c) * Pow256(Exponent(c))) % EXPONENT == 0 && !Overflows(c)
  }

  lemma WordOfFields(c: Word)
    ensures c == Exponent(c) * EXPONENT + Mantissa(c) + if SignBit(c) then MANTISSA else 0
    ensures Mantissa(c) < MANTISSA
  {}

  /** A word survives decoding and encoding exactly when it is canonical. */
  lemma RoundTripIffCanonical(c: Word)
    ensures Target(c) % Modulus() < Modulus()
    ensures CompactOf(Target(c) % Modulus(), Negative(c)) == c <==> Canonical(c)
  {
    hide Pow256, Parts, PowB, Exponent, Mantissa, SignBit;
    var v, neg := Target(c) % Modulus(), Negative(c);
    DivMod(Target(c), Modulus());
    WordOfFields(c);
    PartsOfZero();
    if Canonical(c) {
      CanonicalSurvives(c);
    }
    if CompactOf(v, neg) == c {
      EncodedDecodes(v, neg);
      PartsFit(v);
      var (n, m) := Parts(v);
      Fields(n, m, neg && m != 0);
      if v > 0 {
        PartsBounds(v);
        PartsAreWhole(v);
      }
    }
  }

  lemma CanonicalSurvives(c: Word)
    requires Canonical(c)
    ensures Target(c) < Modulus() && CompactOf(Target(c), Negative(c)) == c
  {
    hide Pow256, Parts, PowB, Exponent, Mantissa, SignBit;
    WordOfFields(c);
    PartsOfZero();
    var n, m := Exponent(c), Mantissa(c);
    if m == 0 {
      ZeroWord();
    } else {
      DivMod(m * Pow256(n), EXPONENT);
      NormalParts(n, m, Target(c));
    }
  }

  lemma ZeroWord()
    ensures Target(0) == 0 && 0 < Modulus()
  {}

  // ----- SetCompact and GetCompact -----

  lemma SmallExponent(w: nat, size: nat)
    requires size <= 3
    ensures w * Pow256(size) / EXPONENT == w / Pow2(8 * (3 - size))
  {
    hide Pow2, Pow256;
    var p, q := Pow256(size), Pow256(3 - size);
    Pow256IsPow2(3 - size);
    Pow256IsPow2(size);
    Pow256IsPow2(3);
    Pow2Add(8 * size, 8 * (3 - size));
    SmallPowers();
    DivMod(w, q);
    MulMonotone(p, 0, w % q);
    MulMonotone(p, w % q, q - 1);
    assert p * (q - 1) == p * q - p;
    assert w * p == p * (w % q) + (p * q) * (w / q) by { SplitProduct(p, q, w / q, w % q); }
    ModIs(p * (w % q), w / q, EXPONENT, w * p);
  }

  lemma SplitProduct(p: int, q: int, x: int, r: int)
    ensures (q * x + r) * p == p * r + (p * q) * x
  {
    assert (q * x + r) * p == (q * x) * p + r * p;
    assert (q * x) * p == (p * q) * x;
  }

  lemma LargeExponent(w: nat, size: nat)
    requires size >= 3
    ensures w * Pow256(size) / EXPONENT == w * Pow2(8 * (size - 3)) == w * Pow256(size - 3)
  {
    hide Pow2, Pow256;
    WholePower(size);
    Pow256IsPow2(size - 3);
    assert w * (EXPONENT * Pow256(size - 3)) == EXPONENT * (w * Pow256(size - 3));
    ModIs(0, w * Pow256(size - 3), EXPONENT, w * Pow256(size));
  }

  /** The three-way test on mantissa and size decides whether the number fits 256 bits. */
  lemma OverflowTest(w: nat, size: nat)
    requires w < MANTISSA && size >= 3
    ensures w * Pow256(size - 3) >= Modulus() <==>
            w != 0 && (size > 34 || (w > 0xff && size > 33) || (w > 0xffff && size > 32))
  {
    hide Pow256, PowB;
    ModulusIs();
    Pow256Step(32);
    Pow256Step(31);
    Pow256Step(30);
    if size <= 32 {
      Pow256Monotone(size - 3, 29);
      MulMonotone(w, Pow256(size - 3), Pow256(29));
      CompareMultiples(w, EXPONENT, Pow256(29));
    } else if size == 33 {
      CompareMultiples(w, 0x1_0000, Pow256(30));
    } else if size == 34 {
      CompareMultiples(w, 0x100, Pow256(31));
    } else {
      Pow256Monotone(32, size - 3);
      CompareMultiples(w, 1, Pow256(size - 3));
    }
  }

  lemma CompareMultiples(w: nat, k: nat, p: nat)
    requires p > 0
    ensures w * p >= k * p <==> w >= k
    ensures w == 0 ==> w * p == 0
  {
    if w >= k { MulMonotone(p, k, w); } else {
      MulMonotone(p, w + 1, k);
      assert p * (w + 1) == w * p + p;
    }
  }

  method SetCompact(t: BaseUint, c: Word) returns (negative: bool, overflow: bool)
    requires t.Valid()
    modifies t.pn
    ensures t.Value() == Target(c) % Modulus() && negative == Negative(c) && overflow == Overflows(c)
  {
    hide Pow2, Pow256, PowB, Val;
    var size, word := c / EXPONENT, c % MANTISSA;
    ghost var w := word;
    ModulusIs();
    if size <= 3 {
      SmallExponent(w, size);
      SmallWord(w, Pow2(8 * (3 - size)));
      word := word / Pow2(8 * (3 - size));
      t.Assign(word);
      ModIs(word, 0, Modulus(), word);
    } else {
      LargeExponent(w, size);
      OverflowTest(w, size);
      t.Assign(word);
      t.ShiftLeftAssign(8 * (size - 3));
      if w > 0 { MulAtLeast(w, Pow256(size - 3)); }
    }
    negative := word != 0 && (c / MANTISSA) % 2 == 1;
    overflow := word != 0 && (size > 34 || (word > 0xff && size > 33) || (word > 0xffff && size > 32));
  }

  lemma SmallWord(w: nat, p: nat)
    requires w < MANTISSA && p >= 1
    ensures 0 <= w / p < MANTISSA < Modulus()
  {
    DivMod(w, p);
    if w / p < 0 { MulMonotone(p, w / p, -1); }
    if w / p > w { MulMonotone(p, w + 1, w / p); MulAtLeast(w + 1, p); }
    MulAtLeast(B, PowB(7));
  }

  lemma ByteLengthOfBits(v: nat, bits: nat)
    requires v < Pow2(bits) && (bits > 0 ==> Pow2(bits - 1) <= v)
    ensures ByteLength(v) == (bits + 7) / 8
  {
    hide Pow2, Pow256, ByteLength;
    var n := (bits + 7) / 8;
    Pow256IsPow2(n);
    if bits > 0 {
      Pow256IsPow2(n - 1);
      Pow2Monotone(8 * (n - 1), bits - 1);
      Pow2Monotone(bits, 8 * n);
      ByteLengthIs(v, n);
    } else {
      Pow2Of0();
      NoBytes();
    }
  }

  lemma NoBytes()
    ensures ByteLength(0) == 0
  {}

  lemma ShortNumber(v: nat, n: nat)
    requires n <= 3
    ensures Leading(v, n) == v * Pow2(8 * (3 - n))
  {
    hide Pow2, Pow256;
    Pow256IsPow2(3 - n);
    Pow256IsPow2(n);
    Pow256IsPow2(3);
    Pow2Add(8 * n, 8 * (3 - n));
    SmallPowers();
    assert v * (Pow256(n) * Pow256(3 - n)) == Pow256(n) * (v * Pow256(3 - n));
    ModIs(0, v * Pow256(3 - n), Pow256(n), v * EXPONENT);
  }

  lemma LongNumber(v: nat, n: nat)
    requires n >= 3
    ensures Leading(v, n) == v / Pow2(8 * (n - 3))
  {
    hide Pow2, Pow256;
    WholePower(n);
    Pow256IsPow2(n - 3);
    var q := Pow256(n - 3);
    DivMod(v, q);
    assert v * EXPONENT == EXPONENT * (v % q) + (EXPONENT * q) * (v / q) by { SplitProduct(EXPONENT, q, v / q, v % q); }
    ModIs(EXPONENT * (v % q), v / q, Pow256(n), v * EXPONENT);
  }

  lemma LeadingFits(v: nat)
    ensures Leading(v, ByteLength(v)) < EXPONENT
  {
    hide Pow256, ByteLength;
    ByteLengthBounds(v);
    if v > 0 {
      Pow256Step(ByteLength(v));
      LeadingBytes(v, Pow256(ByteLength(v) - 1), v * EXPONENT / Pow256(ByteLength(v)));
    } else {
      ModIs(0, 0, Pow256(ByteLength(v)), 0);
    }
  }

  lemma Pow2Of24()
    ensures Pow2(24) == EXPONENT && Pow2(23) == MANTISSA
  {
    hide Pow2;
    Pow2Of8();
    Pow2Add(8, 8);
    Pow2Add(16, 8);
    Pow2Step(23);
  }

  /** The leading three bytes of a number, as the shifts of GetCompact extract them. */
  method LeadingThree(t: BaseUint, size: nat) returns (compact: nat)
    requires t.Valid() && size == ByteLength(t.Value())
    ensures compact == Leading(t.Value(), size) < EXPONENT
  {
    hide Pow2, Pow256, PowB, Val, ByteLength, Leading;
    ghost var v := t.Value();
    LeadingFits(v);
    if size <= 3 {
      ShortNumber(v, size);
      MulAtLeast(v, Pow2(8 * (3 - size)));
      var low := t.GetLow64();
      Unwrapped(v, 0x1_0000_0000_0000_0000);
      Unwrapped(v * Pow2(8 * (3 - size)), B);
      compact := (low * Pow2(8 * (3 - size))) % B;
    } else {
      LongNumber(v, size);
      var bn := new BaseUint.Copy(t);
      bn.ShiftRightAssign(8 * (size - 3));
      var low := bn.GetLow64();
      Unwrapped(bn.Value(), 0x1_0000_0000_0000_0000);
      Unwrapped(low, B);
      compact := low % B;
    }
  }

  lemma Unwrapped(x: nat, m: nat)
    requires x < m
    ensures x % m == x
  {
    ModIs(x, 0, m, x);
  }

  /** Or size and sign onto a mantissa. */
  method Pack(size: nat, m: nat, negative: bool) returns (c: Word)
    requires size <= 33 && m < MANTISSA
    ensures c == size * EXPONENT + m + if negative && m != 0 then MANTISSA else 0
  {
    hide Pow2, BitOr;
    Pow2Of24();
    BitOrDisjoint(m, size, 24);
    Fields(size, m, false);
    c := BitOr(m, size * EXPONENT);
    if negative && c % MANTISSA != 0 {
      OrClearBit(c, 23);
      c := BitOr(c, MANTISSA);
    }
  }

  /** GetCompact; both assertions of the source hold on every number. */
  method GetCompact(t: BaseUint, negative: bool) returns (c: Word)
    requires t.Valid()
    ensures t.Value() < Modulus() && c == CompactOf(t.Value(), negative)
  {
    hide Pow2, Pow256, PowB, Val, ByteLength, Leading;
    ghost var v := t.Value();
    ValBound(t.pn[..]);
    PartsFit(v);
    var bits := t.Bits();
    ByteLengthOfBits(v, bits);
    var size := (bits + 7) / 8;
    var compact := LeadingThree(t, size);
    if (compact / MANTISSA) % 2 == 1 {
      compact := compact / 256;
      size := size + 1;
    }
    assert compact < MANTISSA;
    assert size < 256;
    c := Pack(size, compact, negative);
  }
}
