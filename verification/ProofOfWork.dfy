/** The proof-of-work test and the difficulty adjustment. */
module ProofOfWork {
  import opened Bytes
  import opened Bits
  import opened Limbs
  import opened ArithUint256
  import opened CompactTarget

  // ----- Hashes as numbers -----

  function Words(b: Bytes): (r: seq<Word>)
    requires |b| % 4 == 0
    ensures |r| == |b| / 4
  {
    if b == [] then [] else
      WordFits(b[..4]);
      [LeNat(b[..4])] + Words(b[4..])
  }

  lemma WordFits(b: Bytes)
    requires |b| == 4
    ensures LeNat(b) < B == Pow256(4)
  {
    LeNatBound(b);
    SmallPowers();
  }

  lemma {:induction false} WordsValue(b: Bytes)
    requires |b| % 4 == 0
    ensures Val(Words(b)) == LeNat(b)
  {
    if b != [] {
      WordFits(b[..4]);
      WordsValue(b[4..]);
      LeNatAppend(b[..4], b[4..]);
      assert b == b[..4] + b[4..];
      hide LeNat, Pow256;
    }
  }

  lemma FourOn(b: Bytes, k: nat)
    requires 4 <= k && k + 4 <= |b|
    ensures b[4..][k - 4..k] == b[k..k + 4]
  {
    var rest := b[4..];
    assert rest[k - 4] == b[k] && rest[k - 3] == b[k + 1] && rest[k - 2] == b[k + 2] && rest[k - 1] == b[k + 3];
  }

  lemma {:induction false} WordsAt(b: Bytes, i: nat)
    requires |b| % 4 == 0 && 4 * i < |b|
    ensures Words(b)[i] == LeNat(b[4 * i..4 * i + 4])
    decreases |b|
  {
    hide LeNat;
    if i > 0 {
      WordsAt(b[4..], i - 1);
      FourOn(b, 4 * i);
    }
  }

  /** UintToArith256: four bytes a limb, least significant first. */
  method UintToArith256(a: Hash32) returns (t: BaseUint)
    ensures t.Valid() && fresh(t) && fresh(t.pn) && t.Value() == LeNat(a)
  {
    hide LeNat, Words, Val;
    t := new BaseUint();
    for x := 0 to WIDTH
      invariant forall j :: 0 <= j < x ==> t.pn[j] == Words(a)[j]
    {
      WordFits(a[4 * x..4 * x + 4]);
      WordsAt(a, x);
      t.pn[x] := LeNat(a[4 * x..4 * x + 4]);
    }
    assert t.pn[..] == Words(a);
    WordsValue(a);
  }

  // ----- The test -----

  /** A hash proves work for nBits when the target is a positive 256-bit number no easier than the
      limit, and the hash is no larger. */
  predicate ProvesWork(hash: Hash32, nBits: Word, powLimit: Hash32) {
    !SignBit(nBits) && 0 < Target(nBits) <= LeNat(powLimit) && LeNat(hash) <= Target(nBits)
  }

  method CheckProofOfWork(hash: Hash32, nBits: Word, powLimit: Hash32) returns (ok: bool)
    ensures ok == ProvesWork(hash, nBits, powLimit)
    ensures var target := nBits % 0x80_0000 * Pow256(nBits / 0x100_0000) / 0x100_0000;
            ok <==> nBits / 0x80_0000 % 2 == 0 && 0 < target <= LeNat(powLimit) && LeNat(hash) <= target
  {
    assert Target(nBits) == nBits % 0x80_0000 * Pow256(nBits / 0x100_0000) / 0x100_0000;
    assert SignBit(nBits) <==> nBits / 0x80_0000 % 2 == 1;
    hide LeNat, Val, PowB, Target, SignBit, Pow256;
    HashFits(powLimit);
    var bnTarget := new BaseUint();
    var negative, overflow := SetCompact(bnTarget, nBits);
    if !Overflows(nBits) { Unwrapped(Target(nBits), Modulus()); }
    var limit := UintToArith256(powLimit);
    var zero := bnTarget.EqualTo(0);
    var above := bnTarget.CompareTo(limit);
    if negative || zero || overflow || above > 0 { return false; }
    var h := UintToArith256(hash);
    var harder := h.CompareTo(bnTarget);
    if harder > 0 { return false; }
    return true;
  }

  lemma HashFits(h: Hash32)
    ensures LeNat(h) < Modulus()
  {
    LeNatBound(h);
    ModulusIs();
  }

  // ----- Retargeting -----

  /** Two weeks in seconds. */
  const TIMESPAN := 14 * 24 * 60 * 60

  /** What a signed 64-bit number is when compared with an unsigned one. */
  function Unsigned64(x: int): nat { x % 0x1_0000_0000_0000_0000 }

  /** The measured interval, limited step by step as the source does: both comparisons are unsigned. */
  function LimitedSpan(last: Word, first: Word): int {
    var span: int := last - first;
    var span := if Unsigned64(span) < TIMESPAN / 4 then TIMESPAN / 4 else span;
    if Unsigned64(span) > TIMESPAN * 4 then TIMESPAN * 4 else span
  }

  /** The interval moved into [T/4, 4T]. */
  function Clamped(span: int): int {
    if span < TIMESPAN / 4 then TIMESPAN / 4 else if span > TIMESPAN * 4 then TIMESPAN * 4 else span
  }

  /** The limiting clamps exactly when the clock did not run backwards; then it takes the other end. */
  lemma LimitedSpanClamps(last: Word, first: Word)
    ensures TIMESPAN / 4 <= LimitedSpan(last, first) <= TIMESPAN * 4
    ensures LimitedSpan(last, first) == Clamped(last - first) <==> last >= first
    ensures last < first ==> LimitedSpan(last, first) == TIMESPAN * 4
  {
    var span: int := last - first;
    if span < 0 { ModIs(span + 0x1_0000_0000_0000_0000, -1, 0x1_0000_0000_0000_0000, span); }
    else { Unwrapped(span, 0x1_0000_0000_0000_0000); }
  }

  function Min(a: nat, b: nat): nat { if a <= b then a else b }

  /** The new target, computed modulo 2^256 and capped. */
  function Retargeted(t: nat, span: nat, limit: nat): nat { Min((t * span % Modulus()) / TIMESPAN, limit) }

  /** The wrapped computation gives the scaled target exactly when the product fits, or what is left
      of it still reaches the limit. */
  lemma RetargetIffFits(t: nat, span: nat, limit: nat)
    ensures Retargeted(t, span, limit) == Min(t * span / TIMESPAN, limit)
            <==> t * span < Modulus() || limit * TIMESPAN <= t * span % Modulus()
  {
    var product, m := t * span, Modulus();
    MulAtLeast(B, PowB(7));
    hide PowB;
    WrapLoses(product, m);
  }

  lemma WrapLoses(product: nat, m: nat)
    requires m >= B
    ensures 0 <= product % m <= product && (product >= m ==> product % m + TIMESPAN <= product)
    ensures product < m ==> product % m == product
  {
    DivMod(product, m);
    if product < m { Unwrapped(product, m); } else {
      if product / m <= 0 { MulMonotone(m, product / m, 0); }
      MulAtLeast(m, product / m);
    }
  }

  /** A retarget that does not wrap moves the target by at most a factor of four. */
  lemma RetargetIsLimited(t: nat, span: nat, limit: nat)
    requires TIMESPAN / 4 <= span <= TIMESPAN * 4 && t * span < Modulus()
    ensures Min(t / 4, limit) <= Retargeted(t, span, limit) <= Min(4 * t, limit)
  {
    Unwrapped(t * span, Modulus());
    MulMonotone(t, TIMESPAN / 4, span);
    MulMonotone(t, span, TIMESPAN * 4);
  }

  method Scale(t: BaseUint, span: Word)
    requires t.Valid()
    modifies t.pn
    ensures t.Value() == (old(t.Value()) * span % Modulus()) / TIMESPAN
  {
    hide Val, PowB;
    ghost var v := t.Value();
    t.MulAssign32(span);
    assert span * v == v * span;
    var weeks := new BaseUint();
    weeks.Assign(TIMESPAN);
    var ok := t.DivAssign(weeks);
  }

  /** CalculateNextWorkRequired. */
  method CalculateNextWorkRequired(lastBits: Word, lastTime: Word, firstTime: Word, powLimit: Hash32,
                                   noRetargeting: bool)
    returns (bits: Word)
    ensures noRetargeting ==> bits == lastBits
    ensures var span, limit := LimitedSpan(lastTime, firstTime), LeNat(powLimit);
            !noRetargeting ==> limit < Modulus() && span >= 0
                               && bits == CompactOf(Retargeted(Target(lastBits) % Modulus(), span, limit), false)
  {
    hide LeNat, Val, PowB, Target, CompactOf;
    if noRetargeting { return lastBits; }
    LimitedSpanClamps(lastTime, firstTime);
    HashFits(powLimit);
    var span: int := lastTime as int - firstTime as int;
    if Unsigned64(span) < TIMESPAN / 4 { span := TIMESPAN / 4; }
    if Unsigned64(span) > TIMESPAN * 4 { span := TIMESPAN * 4; }
    var limit := UintToArith256(powLimit);
    var bnNew := new BaseUint();
    var negative, overflow := SetCompact(bnNew, lastBits);
    Scale(bnNew, span);
    var above := bnNew.CompareTo(limit);
    if above > 0 { bnNew := limit; }
    bits := GetCompact(bnNew, false);
  }

  /** A positive target within the limit is encoded as bits the test accepts, never easier than it. */
  lemma EncodedTargetIsUsable(v: nat, powLimit: Hash32)
    requires 0 < v <= LeNat(powLimit) && v < Modulus()
    ensures var bits := CompactOf(v, false);
            !SignBit(bits) && 0 < Target(bits) <= v
            && forall hash: Hash32 :: ProvesWork(hash, bits, powLimit) <==> LeNat(hash) <= Target(bits)
  {
    hide LeNat, Target, CompactOf, PowB, SignBit;
    EncodedDecodes(v, false);
    var bits := CompactOf(v, false);
    assert !Negative(bits);
  }

  /** With the regression-test limit the product wraps: blocks at half speed should double the target
      and instead divide it by more than half a million. */
  lemma RetargetWraps(limit: nat)
    requires limit == Pow2(255) - 1
    ensures var t, span := Target(0x207f_ffff), 2 * TIMESPAN;
            t <= limit && t * span >= Modulus() && Retargeted(t, span, limit) * 500_000 < t
  {
    hide Pow2, PowB, Pow256;
    ModulusIs();
    LargeExponent(0x7f_ffff, 32);
    var p := Pow2(232);
    Pow2Of24();
    Pow2Add(24, 232);
    Pow2Add(23, 232);
    var t, span := 0x7f_ffff * p, 2 * TIMESPAN;
    assert t * span == 14_358_016 * p + (EXPONENT * p) * 1_209_599;
    ModIs(14_358_016 * p, 1_209_599, Modulus(), t * span);
  }
}
