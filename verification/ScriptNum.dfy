/** CScriptNum: sign-and-magnitude little-endian numbers on the script stack. */
module ScriptNum {
  import opened Bytes
  import opened Bits

  const DEFAULT_MAX_NUM_SIZE := 4

  /** The minimal-encoding test the constructor applies under SCRIPT_VERIFY_MINIMALDATA. */
  predicate IsMinimal(vch: Bytes) {
    var n := |vch|;
    n > 0 && vch[n - 1] % 128 == 0 ==> n > 1 && vch[n - 2] >= 0x80
  }

  /** The value of a stack element read as a number. */
  function Decode(vch: Bytes): int {
    if vch == [] then 0 else
      var k := |vch| - 1;
      var magnitude: int := LeNat(vch[..k] + [vch[k] % 128]);
      if vch[k] >= 0x80 then -magnitude else magnitude
  }

  /** The canonical stack element for a number. */
  function Encode(value: int): Bytes {
    if value == 0 then [] else
      var digits := NatLe(if value < 0 then -value else value);
      NatLeTop(if value < 0 then -value else value);
      var k := |digits| - 1;
      if digits[k] >= 0x80 then digits + [if value < 0 then 0x80 else 0]
      else if value < 0 then digits[..k] + [digits[k] + 0x80]
      else digits
  }

  /** The constructor from a stack element: it throws on long or, if asked, on non-minimal input. */
  function Parse(vch: Bytes, requireMinimal: bool, maxSize: nat): Option<int> {
    if |vch| > maxSize then None
    else if requireMinimal && !IsMinimal(vch) then None
    else Some(Decode(vch))
  }

  lemma {:induction false} EncodeIsMinimal(value: int)
    ensures IsMinimal(Encode(value))
  {
    if value != 0 { NatLeTop(if value < 0 then -value else value); }
  }

  lemma {:induction false} DecodeOfEncode(value: int)
    ensures Decode(Encode(value)) == value
  {
    if value != 0 {
      var magnitude := if value < 0 then -value else value;
      var digits := NatLe(magnitude);
      NatLeTop(magnitude);
      LeNatOfNatLe(magnitude);
      var v := Encode(value);
      var k := |v| - 1;
      if digits[|digits| - 1] >= 0x80 {
        assert v[..k] + [v[k] % 128] == digits + [0];
        LeNatAppend(digits, [0]);
        assert LeNat([0]) == 0;
      } else {
        assert v[..k] + [v[k] % 128] == digits;
      }
    }
  }

  /** The sign sits in a byte of its own: the digits end in a byte with its top bit set. */
  lemma EncodeWithSignByte(digits: Bytes, sign: byte)
    requires digits != [] && digits[|digits| - 1] >= 0x80 && sign % 128 == 0
    ensures Encode(Decode(digits + [sign])) == digits + [sign]
  {
    assert (digits + [sign])[..|digits|] == digits;
    LeNatAppend(digits, [0]);
    assert LeNat([0]) == 0;
    NatLeOfLeNat(digits);
    LeNatPositive(digits);
    hide LeNat, NatLe;
  }

  /** The sign shares the top byte with a nonzero digit. */
  lemma EncodeWithSignBit(low: Bytes, top: byte)
    requires top % 128 != 0
    ensures Encode(Decode(low + [top])) == low + [top]
  {
    assert (low + [top])[..|low|] == low;
    var digits := low + [top % 128];
    NatLeOfLeNat(digits);
    LeNatPositive(digits);
    assert digits[|low|] != 0 && digits[..|low|] == low;
    hide LeNat, NatLe;
    var n: int := LeNat(digits);
    if top >= 0x80 {
      assert top == top % 128 + 0x80;
      assert Decode(low + [top]) == -n;
    } else {
      assert top == top % 128;
      assert Decode(low + [top]) == n;
    }
  }

  lemma EncodeOfDecode(vch: Bytes)
    requires IsMinimal(vch)
    ensures Encode(Decode(vch)) == vch
  {
    if vch != [] {
      var k := |vch| - 1;
      assert vch == vch[..k] + [vch[k]];
      if vch[k] % 128 == 0 { EncodeWithSignByte(vch[..k], vch[k]); } else { EncodeWithSignBit(vch[..k], vch[k]); }
    }
    hide Encode, Decode;
  }

  /** Under the minimal flag a vector is accepted exactly when it is the serialization of the number
      it decodes to; and every number survives serialization. */
  lemma MinimalIffCanonical(vch: Bytes, maxSize: nat)
    ensures Parse(vch, true, maxSize).Some?
            <==> |vch| <= maxSize && vch == Encode(Decode(vch))
    ensures Parse(vch, true, maxSize).Some? ==> Parse(vch, true, maxSize) == Parse(vch, false, maxSize)
    ensures Parse(vch, false, maxSize) == if |vch| <= maxSize then Some(Decode(vch)) else None
  {
    if IsMinimal(vch) { EncodeOfDecode(vch); }
    EncodeIsMinimal(Decode(vch));
  }

  /** serialize: peel bytes off the magnitude, then place the sign bit. */
  method Serialize(value: int) returns (result: Bytes)
    ensures result == Encode(value)
  {
    if value == 0 { return []; }
    result := [];
    var neg := value < 0;
    var absvalue: nat := if neg then -value else value;
    ghost var all := NatLe(absvalue);
    while absvalue != 0
      invariant result + NatLe(absvalue) == all
      decreases absvalue
    {
      assert result + NatLe(absvalue) == result + [absvalue % 256] + NatLe(absvalue / 256);
      result := result + [absvalue % 256];
      absvalue := absvalue / 256;
    }
    assert result == all;
    NatLeTop(if neg then -value else value);
    var k := |result| - 1;
    if result[k] >= 0x80 {
      result := result + [if neg then 0x80 else 0];
    } else if neg {
      result := result[..k] + [result[k] + 0x80];
    }
  }

  /** Clearing the sign bit takes 0x80 * 256^k off the little-endian value. */
  lemma {:induction false} SignBit(vch: Bytes)
    requires vch != []
    ensures var k := |vch| - 1;
            LeNat(vch) == LeNat(vch[..k] + [vch[k] % 128]) + (if vch[k] >= 0x80 then 0x80 * Pow256(k) else 0)
  {
    var k := |vch| - 1;
    if k > 0 {
      SignBit(vch[1..]);
      assert (vch[..k] + [vch[k] % 128])[1..] == vch[1..][..k - 1] + [vch[k] % 128];
    }
  }

  /** One more byte ored in above the bytes already read. */
  lemma OrInByte(vch: Bytes, i: nat)
    requires i < |vch|
    ensures BitOr(LeNat(vch[..i]), vch[i] * Pow2(8 * i)) == LeNat(vch[..i + 1])
  {
    assert LeNat([vch[i]]) == vch[i];
    hide LeNat, Pow256, Pow2, BitOr;
    LeNatBound(vch[..i]);
    Pow256IsPow2(i);
    BitOrDisjoint(LeNat(vch[..i]), vch[i], 8 * i);
    LeNatAppend(vch[..i], [vch[i]]);
    assert vch[..i + 1] == vch[..i] + [vch[i]];
  }

  /** set_vch: or the bytes together, then strip the sign bit. An element of at most eight bytes
      fits the 64-bit accumulator. */
  method SetVch(vch: Bytes) returns (value: int)
    requires |vch| <= 8
    ensures value == Decode(vch)
  {
    if vch == [] { return 0; }
    var result: nat := 0;
    var i := 0;
    while i != |vch|
      invariant 0 <= i <= |vch|
      invariant result == LeNat(vch[..i])
    {
      OrInByte(vch, i);
      result := BitOr(result, vch[i] * Pow2(8 * i));
      i := i + 1;
    }
    assert vch[..i] == vch;
    var k := |vch| - 1;
    SignBit(vch);
    Pow256IsPow2(k);
    if vch[k] >= 0x80 {
      value := -(result - 0x80 * Pow2(8 * k));
    } else {
      value := result;
    }
  }

  lemma {:induction false} NatLeLength(n: nat, k: nat)
    requires n < Pow256(k)
    ensures |NatLe(n)| <= k
  {
    if n > 0 { NatLeLength(n / 256, k - 1); }
  }

  /** A 64-bit result never takes more than nine bytes on the stack. */
  lemma EncodeLength(value: int)
    requires 0 - Pow256(8) < value < Pow256(8)
    ensures |Encode(value)| <= 9
  {
    NatLeLength(if value < 0 then -value else value, 8);
  }
}
