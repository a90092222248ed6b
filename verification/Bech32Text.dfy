/** Bech32 strings: which texts decode, and to what. */
module Bech32Text {
  import opened Bytes
  import opened Bech32

  // ----- The character set -----

  function CharOf(v: Value): byte {
    match v
    case 0 => 0x71 case 1 => 0x70 case 2 => 0x7a case 3 => 0x72
    case 4 => 0x79 case 5 => 0x39 case 6 => 0x78 case 7 => 0x38
    case 8 => 0x67 case 9 => 0x66 case 10 => 0x32 case 11 => 0x74
    case 12 => 0x76 case 13 => 0x64 case 14 => 0x77 case 15 => 0x30
    case 16 => 0x73 case 17 => 0x33 case 18 => 0x6a case 19 => 0x6e
    case 20 => 0x35 case 21 => 0x34 case 22 => 0x6b case 23 => 0x68
    case 24 => 0x63 case 25 => 0x65 case 26 => 0x36 case 27 => 0x6d
    case 28 => 0x75 case 29 => 0x61 case 30 => 0x37 case 31 => 0x6c
  }

  function LowerCase(c: byte): byte { if 0x41 <= c <= 0x5a then c as int + 32 else c }

  function RevLower(c: byte): int {
    match c
    case 0x71 => 0 case 0x70 => 1 case 0x7a => 2 case 0x72 => 3
    case 0x79 => 4 case 0x39 => 5 case 0x78 => 6 case 0x38 => 7
    case 0x67 => 8 case 0x66 => 9 case 0x32 => 10 case 0x74 => 11
    case 0x76 => 12 case 0x64 => 13 case 0x77 => 14 case 0x30 => 15
    case 0x73 => 16 case 0x33 => 17 case 0x6a => 18 case 0x6e => 19
    case 0x35 => 20 case 0x34 => 21 case 0x6b => 22 case 0x68 => 23
    case 0x63 => 24 case 0x65 => 25 case 0x36 => 26 case 0x6d => 27
    case 0x75 => 28 case 0x61 => 29 case 0x37 => 30 case 0x6c => 31
    case _ => -1
  }

  /** CHARSET_REV: letters of either case have the same entry. */
  function Rev(c: byte): int { RevLower(LowerCase(c)) }

  lemma RevOfChar(v: Value)
    ensures RevLower(CharOf(v)) == v && CharOf(v) != 0x31
  {}

  lemma CharOfRev(c: byte)
    ensures RevLower(c) == -1 || (0 <= RevLower(c) < 32 && CharOf(RevLower(c)) == c)
  {}

  /** The alphabet as it is written down. */
  const ALPHABET := "qpzry9x8gf2tvdw0s3jn54khce6mua7l"

  /** The character of a value is the one at that place of the alphabet. */
  lemma CharIsInAlphabet(v: Value)
    ensures |ALPHABET| == 32 && CharOf(v) == ALPHABET[v] as int
  {
    hide RevLower;
    if v < 16 { FirstHalf(v); } else { SecondHalf(v); }
  }

  lemma FirstHalf(v: Value)
    requires v < 16
    ensures CharOf(v) == ALPHABET[v] as int
  {
    assert v == 0 || v == 1 || v == 2 || v == 3 || v == 4 || v == 5 || v == 6 || v == 7
        || v == 8 || v == 9 || v == 10 || v == 11 || v == 12 || v == 13 || v == 14 || v == 15;
  }

  lemma SecondHalf(v: Value)
    requires v >= 16
    ensures CharOf(v) == ALPHABET[v] as int
  {
    assert v == 16 || v == 17 || v == 18 || v == 19 || v == 20 || v == 21 || v == 22 || v == 23
        || v == 24 || v == 25 || v == 26 || v == 27 || v == 28 || v == 29 || v == 30 || v == 31;
  }

  /** The entry of a byte is the place of its lower case in the alphabet, or -1. */
  lemma RevIsPlace(c: byte, v: Value)
    ensures |ALPHABET| == 32 && (Rev(c) == v <==> ALPHABET[v] as int == LowerCase(c))
    ensures Rev(c) == -1 || 0 <= Rev(c) < 32
  {
    hide RevLower, CharOf, LowerCase;
    CharIsInAlphabet(v);
    RevOfChar(v);
    CharOfRev(LowerCase(c));
  }

  // ----- Encoding -----

  function Chars(v: seq<Value>): (r: Bytes)
    ensures |r| == |v| && forall i :: 0 <= i < |v| ==> r[i] == CharOf(v[i])
  {
    seq(|v|, i requires 0 <= i < |v| => CharOf(v[i]))
  }

  /** The separator '1'. */
  const SEPARATOR: byte := 0x31

  function EncodeText(hrp: Bytes, values: seq<Value>): Bytes {
    hrp + [SEPARATOR] + Chars(values + Checksum(hrp, values))
  }

  predicate IsUpper(c: byte) { 0x41 <= c <= 0x5a }
  predicate IsLower(c: byte) { 0x61 <= c <= 0x7a }

  /** Encode; the source asserts that the human-readable part has no upper case. */
  method Encode(hrp: Bytes, values: seq<Value>) returns (ret: Bytes)
    requires forall i :: 0 <= i < |hrp| ==> !IsUpper(hrp[i])
    ensures ret == EncodeText(hrp, values)
  {
    hide Checksum, CharOf;
    var checksum := CreateChecksum(hrp, values);
    var combined := values + checksum;
    ret := hrp + [SEPARATOR];
    for i := 0 to |combined|
      invariant ret == hrp + [SEPARATOR] + Chars(combined)[..i]
    {
      ret := ret + [CharOf(combined[i])];
    }
  }

  // ----- Decoding -----

  datatype Decoded = Decoded(hrp: Bytes, values: seq<Value>)

  predicate Printable(s: Bytes) { forall i :: 0 <= i < |s| ==> 33 <= s[i] <= 126 }
  predicate HasLower(s: Bytes) { exists i :: 0 <= i < |s| && IsLower(s[i]) }
  predicate HasUpper(s: Bytes) { exists i :: 0 <= i < |s| && IsUpper(s[i]) }

  /** The last separator, or -1. */
  function LastOne(s: Bytes): (pos: int)
    ensures -1 <= pos < |s|
    ensures pos >= 0 ==> s[pos] == SEPARATOR
    ensures forall i :: pos < i < |s| ==> s[i] != SEPARATOR
  {
    if s == [] then -1 else if s[|s| - 1] == SEPARATOR then |s| - 1 else LastOne(s[..|s| - 1])
  }

  predicate AllInSet(s: Bytes) { forall i :: 0 <= i < |s| ==> 0 <= Rev(s[i]) < 32 }

  function Values(s: Bytes): (r: seq<Value>)
    requires AllInSet(s)
    ensures |r| == |s| && forall i :: 0 <= i < |s| ==> r[i] == Rev(s[i])
  {
    seq(|s|, i requires 0 <= i < |s| => Rev(s[i]))
  }

  function Lower(s: Bytes): (r: Bytes)
    ensures |r| == |s| && forall i :: 0 <= i < |s| ==> r[i] == LowerCase(s[i])
  {
    seq(|s|, i requires 0 <= i < |s| => LowerCase(s[i]))
  }

  predicate WellCased(s: Bytes) { Printable(s) && !(HasLower(s) && HasUpper(s)) }

  function DecodeText(s: Bytes): Option<Decoded> {
    var pos := LastOne(s);
    if !WellCased(s) || |s| > 90 || pos <= 0 || pos + 7 > |s| || !AllInSet(s[pos + 1..]) then None else
      var hrp, values := Lower(s[..pos]), Values(s[pos + 1..]);
      if !ValidChecksum(hrp, values) then None else Some(Decoded(hrp, values[..|values| - 6]))
  }

  lemma LowerKeepsOne(c: byte)
    ensures LowerCase(c) == SEPARATOR <==> c == SEPARATOR
    ensures !IsUpper(LowerCase(c)) && LowerCase(LowerCase(c)) == LowerCase(c)
  {}

  lemma LastOneIs(s: Bytes, pos: nat)
    requires pos < |s| && s[pos] == SEPARATOR && forall i :: pos < i < |s| ==> s[i] != SEPARATOR
    ensures LastOne(s) == pos
  {}

  method CheckCase(s: Bytes) returns (ok: bool)
    ensures ok == WellCased(s)
  {
    var lower, upper := false, false;
    for i := 0 to |s|
      invariant Printable(s[..i]) && lower == HasLower(s[..i]) && upper == HasUpper(s[..i])
    {
      assert s[..i + 1] == s[..i] + [s[i]];
      CaseSnoc(s[..i], s[i]);
      if IsLower(s[i]) { lower := true; }
      else if IsUpper(s[i]) { upper := true; }
      else if s[i] < 33 || s[i] > 126 { return false; }
    }
    assert s[..|s|] == s;
    ok := !(lower && upper);
  }

  lemma CaseSnoc(s: Bytes, c: byte)
    ensures HasLower(s + [c]) == (HasLower(s) || IsLower(c)) && HasUpper(s + [c]) == (HasUpper(s) || IsUpper(c))
  {
    var t := s + [c];
    assert t[|s|] == c && forall i :: 0 <= i < |s| ==> t[i] == s[i];
  }

  method RFind(s: Bytes) returns (pos: int)
    ensures pos == LastOne(s)
  {
    pos := |s| - 1;
    while pos >= 0 && s[pos] != SEPARATOR
      invariant -1 <= pos < |s| && forall i :: pos < i < |s| ==> s[i] != SEPARATOR
    { pos := pos - 1; }
  }

  method Decode(s: Bytes) returns (r: Option<Decoded>)
    ensures r == DecodeText(s)
  {
    hide ValidChecksum, Rev, LowerCase;
    var ok := CheckCase(s);
    if !ok { return None; }
    var pos := RFind(s);
    if |s| > 90 || pos == -1 || pos == 0 || pos + 7 > |s| { return None; }
    var tail := s[pos + 1..];
    var values: seq<Value> := [];
    for i := 0 to |tail|
      invariant |values| == i && forall j :: 0 <= j < i ==> values[j] == Rev(tail[j])
    {
      RevRange(tail[i]);
      if Rev(tail[i]) == -1 { return None; }
      values := values + [Rev(tail[i])];
    }
    assert values == Values(tail);
    var hrp: Bytes := [];
    for i := 0 to pos
      invariant hrp == Lower(s[..i])
    {
      hrp := hrp + [LowerCase(s[i])];
    }
    var valid := VerifyChecksum(hrp, values);
    if !valid { return None; }
    return Some(Decoded(hrp, values[..|values| - 6]));
  }

  lemma RevRange(c: byte)
    ensures Rev(c) == -1 || 0 <= Rev(c) < 32
  {
    hide RevLower, CharOf;
    CharOfRev(LowerCase(c));
  }

  // ----- Which texts decode -----

  lemma LowerSplit(s: Bytes, pos: nat)
    requires pos < |s| && s[pos] == SEPARATOR
    ensures Lower(s) == Lower(s[..pos]) + [SEPARATOR] + Lower(s[pos + 1..])
  {}

  lemma LowerIsChars(s: Bytes)
    requires AllInSet(s)
    ensures Lower(s) == Chars(Values(s))
  {
    hide LowerCase, CharOf, RevLower;
    forall i | 0 <= i < |s| ensures Lower(s)[i] == Chars(Values(s))[i] { CharOfRev(LowerCase(s[i])); }
  }

  lemma CharsInSet(s: Bytes, v: seq<Value>)
    requires Lower(s) == Chars(v)
    ensures AllInSet(s) && Values(s) == v && forall i :: 0 <= i < |s| ==> s[i] != SEPARATOR
  {
    hide LowerCase, CharOf, RevLower;
    forall i | 0 <= i < |s| ensures Rev(s[i]) == v[i] && s[i] != SEPARATOR {
      assert Lower(s)[i] == Chars(v)[i];
      RevOfChar(v[i]);
      LowerKeepsOne(s[i]);
    }
  }

  lemma DecodedIsEncoded(s: Bytes, d: Decoded)
    requires DecodeText(s) == Some(d)
    ensures d.hrp != [] && WellCased(s) && |s| <= 90 && Lower(s) == EncodeText(d.hrp, d.values)
  {
    hide ValidChecksum, Checksum, Lower, Chars, AllInSet, Values, LastOne, WellCased;
    var pos := LastOne(s);
    var values := Values(s[pos + 1..]);
    var n := |values| - 6;
    LowerSplit(s, pos);
    LowerIsChars(s[pos + 1..]);
    assert values == values[..n] + values[n..];
    ChecksumIsUnique(d.hrp, values[..n], values[n..]);
  }

  lemma EncodedIsDecoded(s: Bytes, d: Decoded)
    requires d.hrp != [] && WellCased(s) && |s| <= 90 && Lower(s) == EncodeText(d.hrp, d.values)
    ensures DecodeText(s) == Some(d)
  {
    hide ValidChecksum, Checksum, AllInSet, Values, LastOne, WellCased, LowerCase, CharOf;
    var pos, v := |d.hrp|, d.values + Checksum(d.hrp, d.values);
    var tail := s[pos + 1..];
    assert Lower(tail) == Lower(s)[pos + 1..] == Chars(v);
    CharsInSet(tail, v);
    assert forall i :: pos < i < |s| ==> s[i] == tail[i - pos - 1];
    assert Lower(s)[pos] == SEPARATOR;
    LowerKeepsOne(s[pos]);
    LastOneIs(s, pos);
    assert Lower(s[..pos]) == Lower(s)[..pos] == d.hrp;
    ChecksumIsUnique(d.hrp, d.values, Checksum(d.hrp, d.values));
    assert v[..|v| - 6] == d.values;
  }

  /** A text decodes to a pair exactly when its lower-case form is the encoding of that pair. */
  lemma DecodeIffEncode(s: Bytes, d: Decoded)
    ensures DecodeText(s) == Some(d)
            <==> d.hrp != [] && WellCased(s) && |s| <= 90 && Lower(s) == EncodeText(d.hrp, d.values)
    ensures WellCased(s)
            <==> (forall i :: 0 <= i < |s| ==> 33 <= s[i] <= 126)
                 && ((forall i :: 0 <= i < |s| ==> !(0x41 <= s[i] <= 0x5a))
                     || forall i :: 0 <= i < |s| ==> !(0x61 <= s[i] <= 0x7a))
  {
    hide DecodeText, EncodeText, Lower;
    if DecodeText(s) == Some(d) { DecodedIsEncoded(s, d); }
    if d.hrp != [] && WellCased(s) && |s| <= 90 && Lower(s) == EncodeText(d.hrp, d.values) { EncodedIsDecoded(s, d); }
  }

  lemma CharIsPlain(v: Value)
    ensures 33 <= CharOf(v) <= 126 && !IsUpper(CharOf(v)) && LowerCase(CharOf(v)) == CharOf(v)
  {}

  /** Every encoding of a printable lower-case name that fits 90 characters decodes to what was encoded. */
  lemma RoundTrip(hrp: Bytes, values: seq<Value>)
    requires hrp != [] && Printable(hrp) && !HasUpper(hrp) && |hrp| + |values| + 7 <= 90
    ensures DecodeText(EncodeText(hrp, values)) == Some(Decoded(hrp, values))
  {
    hide Checksum, CharOf;
    var s := EncodeText(hrp, values);
    var v := values + Checksum(hrp, values);
    forall i | 0 <= i < |s| ensures 33 <= s[i] <= 126 && !IsUpper(s[i]) && LowerCase(s[i]) == s[i] {
      if i < |hrp| {
        assert s[i] == hrp[i];
      } else if i > |hrp| {
        CharIsPlain(v[i - |hrp| - 1]);
      }
    }
    assert Lower(s) == s;
    EncodedIsDecoded(s, Decoded(hrp, values));
  }
}
