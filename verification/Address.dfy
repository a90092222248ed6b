/** Witness addresses: from text to destination and back. */
module Address {
  import opened Bytes
  import opened Bits
  import opened Bech32
  import opened Bech32Text
  import opened Bech32Typos
  import opened ConvertBits
  import opened Standard

  /** The human-readable part "bcrt". */
  const HRP: Bytes := [0x62, 0x63, 0x72, 0x74]

  /** Which destination a witness version and program stand for. */
  function ToDestination(version: Value, program: Bytes): Destination {
    if version == 0 then
      if |program| == 20 then WitnessKey(program) else if |program| == 32 then WitnessScript(program) else NoDestination
    else if version > 16 || |program| < 2 || |program| > 40 then NoDestination
    else WitnessOther(version, program)
  }

  /** The bytes whose padded five-bit form is v, if there are any. */
  ghost function Preimage(v: seq<Value>): (r: Option<Bytes>)
    ensures r.Some? ==> Regrouped(r.value, 8, v, 5)
    ensures r.None? ==> !IsPadded(v, 5, 8)
  {
    if IsPadded(v, 5, 8) then
      var b: seq<nat> :| Digits(b, 8) && Regrouped(b, 8, v, 5);
      AreBytes(b);
      Some(b)
    else None
  }

  lemma AreBytes(b: seq<nat>)
    requires Digits(b, 8)
    ensures forall i :: 0 <= i < |b| ==> 0 <= b[i] < 256
  {
    Pow2Of8();
    hide Pow2;
  }

  lemma AreDigits(b: Bytes)
    ensures Digits(b, 8)
  {
    Pow2Of8();
    hide Pow2;
  }

  lemma AreQuintets(v: seq<Value>)
    ensures Digits(v, 5)
  {
    assert Pow2(5) == 32;
  }

  /** What DecodeDestination makes of a text. */
  ghost function DestinationOf(text: Bytes): Destination {
    match DecodeText(text)
    case None => NoDestination
    case Some(bech) =>
      if |bech.values| == 0 || bech.hrp != HRP then NoDestination else
        match Preimage(bech.values[1..])
        case None => NoDestination
        case Some(program) => ToDestination(bech.values[0], program)
  }

  lemma PreimageIs(v: seq<Value>, b: Bytes)
    requires Regrouped(b, 8, v, 5)
    ensures Preimage(v) == Some(b)
  {
    hide Regrouped;
    AreDigits(b);
    AreQuintets(v);
    assert IsPadded(v, 5, 8);
    AreDigits(Preimage(v).value);
    RegroupingIsInjective(Preimage(v).value, b, 8, v, 5);
  }

  method DecodeDestination(text: Bytes) returns (d: Destination)
    ensures d == DestinationOf(text)
  {
    hide DecodeText, Regrouped;
    var bech := Decode(text);
    if bech.Some? && |bech.value.values| > 0 && bech.value.hrp == HRP {
      var values := bech.value.values;
      AreQuintets(values[1..]);
      var ok, data := Convert(5, 8, false, values[1..]);
      if ok {
        AreBytes(data);
        PreimageIs(values[1..], data);
        return ToDestination(values[0], data);
      }
    }
    return NoDestination;
  }

  /** The text is an address of this witness program: its lower-case form is the encoding of the
      version and the program padded to five-bit values. */
  ghost predicate IsAddress(text: Bytes, version: Value, program: Bytes) {
    WellCased(text) && |text| <= 90
    && exists q: seq<Value> :: Regrouped(program, 8, q, 5) && Lower(text) == EncodeText(HRP, [version] + q)
  }

  lemma AddressDecodes(text: Bytes, version: Value, program: Bytes)
    requires IsAddress(text, version, program)
    ensures DestinationOf(text) == ToDestination(version, program)
  {
    hide Regrouped, EncodeText, DecodeText, WellCased, Preimage;
    var q: seq<Value> :| Regrouped(program, 8, q, 5) && Lower(text) == EncodeText(HRP, [version] + q);
    EncodedIsDecoded(text, Decoded(HRP, [version] + q));
    assert ([version] + q)[1..] == q;
    PreimageIs(q, program);
  }

  /** A text is accepted exactly when it is the address of the destination it is read as. */
  lemma AddressIff(text: Bytes, version: Value, program: Bytes)
    requires !ToDestination(version, program).NoDestination?
    ensures DestinationOf(text) == ToDestination(version, program) <==> IsAddress(text, version, program)
  {
    hide Regrouped, EncodeText, DecodeText, WellCased;
    if IsAddress(text, version, program) { AddressDecodes(text, version, program); }
    if DestinationOf(text) == ToDestination(version, program) {
      var bech := DecodeText(text).value;
      DecodedIsEncoded(text, bech);
      var program' := Preimage(bech.values[1..]).value;
      assert bech.values == [bech.values[0]] + bech.values[1..];
      assert bech.values[0] == version && program' == program;
    }
  }

  /** What an address stands for: in version 0 a key hash of 20 bytes or a script hash of 32, in versions 1 to 16 a
      program of 2 to 40 bytes, and anything else for nothing. */
  lemma AddressMeans(text: Bytes, version: Value, program: Bytes)
    requires IsAddress(text, version, program)
    ensures version == 0 && |program| == 20 ==> DestinationOf(text) == WitnessKey(program)
    ensures version == 0 && |program| == 32 ==> DestinationOf(text) == WitnessScript(program)
    ensures 1 <= version <= 16 && 2 <= |program| <= 40 ==> DestinationOf(text) == WitnessOther(version, program)
    ensures !(version == 0 && |program| in {20, 32}) && !(1 <= version <= 16 && 2 <= |program| <= 40)
            ==> DestinationOf(text) == NoDestination
  {
    hide IsAddress, DestinationOf;
    AddressDecodes(text, version, program);
  }

  /** Every text that is read as a destination is the address of a version and program. */
  lemma DestinationHasProgram(text: Bytes) returns (version: Value, program: Bytes)
    requires !DestinationOf(text).NoDestination?
    ensures IsAddress(text, version, program)
    ensures DestinationOf(text) == ToDestination(version, program) && ValidDestination(DestinationOf(text))
  {
    hide Regrouped, DecodeText, IsAddress;
    var bech := DecodeText(text).value;
    version, program := bech.values[0], Preimage(bech.values[1..]).value;
    AddressIff(text, version, program);
  }

  lemma AddressName(text: Bytes)
    requires !DestinationOf(text).NoDestination?
    ensures DecodeText(text).Some? && Name(text) == HRP && LastOne(text) == 4
  {
    hide Regrouped, DecodeText, LastOne, Preimage;
    DecodedParts(text);
  }

  /** An address with one to four characters replaced anywhere, or any within six consecutive ones, is no address:
      up to case, two addresses of one length differ in five characters at least. */
  lemma AddressTypo(text: Bytes, typo: Bytes, a: int, b: int, c: int, d: int, from: nat)
    requires !DestinationOf(text).NoDestination?
    requires FourReplaced(text, typo, a, b, c, d) || SixReplaced(text, typo, from)
    ensures DestinationOf(typo).NoDestination?
  {
    hide DestinationOf, DecodeText, FourReplaced, SixReplaced, LastOne;
    SameSize(text, typo, a, b, c, d, from);
    if !DestinationOf(typo).NoDestination? {
      AddressName(text);
      AddressName(typo);
      MoreThanFour(text, typo, a, b, c, d);
      MoreThanBurst(text, typo, from);
    }
  }

  lemma SameSize(text: Bytes, typo: Bytes, a: int, b: int, c: int, d: int, from: nat)
    requires FourReplaced(text, typo, a, b, c, d) || SixReplaced(text, typo, from)
    ensures |text| == |typo|
  {}

  lemma NameIsPlain()
    ensures Printable(HRP) && !HasUpper(HRP)
  {}

  lemma QuintetCount(program: Bytes, q: seq<Value>)
    requires |program| <= 40 && Regrouped(program, 8, q, 5)
    ensures |q| <= 64
  {
    hide Num, Pow2;
  }

  /** From any witness program to its address, its destination, its script, and back to the destination. */
  method WitnessRoundTrip(version: Value, program: Bytes, keyId: Bytes -> Hash20) returns (text: Bytes, script: Bytes)
    requires !ToDestination(version, program).NoDestination?
    ensures IsAddress(text, version, program)
    ensures DestinationOf(text) == ToDestination(version, program)
    ensures Extract(script, keyId) == Some(DestinationOf(text))
  {
    hide Regrouped, EncodeText, DecodeText, Preimage, Extract;
    AreDigits(program);
    var _, digits := Convert(8, 5, true, program);
    var q := ToQuintets(program, digits);
    QuintetCount(program, q);
    NameIsPlain();
    RoundTrip(HRP, [version] + q);
    text := Encode(HRP, [version] + q);
    DecodedIsEncoded(text, Decoded(HRP, [version] + q));
    AddressDecodes(text, version, program);
    var d := DecodeDestination(text);
    script := ScriptFor(d);
    ExtractOfScript(d, keyId);
  }

  method ToQuintets(program: Bytes, digits: seq<nat>) returns (q: seq<Value>)
    requires Regrouped(program, 8, digits, 5)
    ensures q == digits && Regrouped(program, 8, q, 5)
  {
    assert Pow2(5) == 32;
    q := digits;
  }
}
