/** Variable-length integers: base-128 digits, most significant first, one taken off all but the last. */
module VarInt {
  import opened Bytes
  import opened Bits

  /** All digits but the last, each with its continuation bit. */
  function Head(m: nat): Bytes {
    if m <= 0x7f then [m + 0x80] else Head(m / 128 - 1) + [m % 128 + 0x80]
  }

  function Encoded(n: nat): (r: Bytes)
    ensures |r| > 0
  {
    if n <= 0x7f then [n] else Head(n / 128 - 1) + [n % 128]
  }

  /** The encodings the format documents. */
  lemma DocumentedEncodings()
    ensures Encoded(0) == [0x00] && Encoded(1) == [0x01] && Encoded(127) == [0x7f] && Encoded(128) == [0x80, 0x00]
    ensures Encoded(255) == [0x80, 0x7f] && Encoded(256) == [0x81, 0x00] && Encoded(16383) == [0xfe, 0x7f]
    ensures Encoded(16384) == [0xff, 0x00] && Encoded(16511) == [0xff, 0x7f] && Encoded(65535) == [0x82, 0xfe, 0x7f]
    ensures Encoded(0x1_0000_0000) == [0x8e, 0xfe, 0xfe, 0xff, 0x00]
  {}

  /** Base 128, most significant first, of the low seven bits of each byte, one added to each. */
  function Raised(b: Bytes): nat {
    if b == [] then 0 else Raised(b[..|b| - 1]) * 128 + b[|b| - 1] % 128 + 1
  }

  lemma RaisedSnoc(b: Bytes, m: nat)
    ensures Raised(b + [m % 128 + 0x80]) == Raised(b) * 128 + m % 128 + 1
  {
    var c: byte := m % 128 + 0x80;
    assert (b + [c])[..|b|] == b && c % 128 == m % 128;
  }

  lemma {:induction false} RaisedHead(m: nat)
    ensures Raised(Head(m)) == m + 1 && forall i :: 0 <= i < |Head(m)| ==> Head(m)[i] >= 0x80
    decreases m
  {
    hide Raised;
    if m <= 0x7f {
      RaisedSnoc([], m);
      NothingRaised();
      assert Head(m) == [] + [m % 128 + 0x80];
    } else {
      RaisedHead(m / 128 - 1);
      RaisedSnoc(Head(m / 128 - 1), m);
    }
  }

  lemma NothingRaised()
    ensures Raised([]) == 0
  {}

  /** The documented formula: the last byte, below 128, plus 128 times the digits before it, each raised by one and
      marked by its top bit. */
  lemma EncodedMeans(n: nat)
    ensures var b, k := Encoded(n), |Encoded(n)| - 1;
            b[k] < 0x80 && n == b[k] + 128 * Raised(b[..k]) && forall i :: 0 <= i < k ==> b[i] >= 0x80
  {
    if n > 0x7f {
      var b, k := Encoded(n), |Encoded(n)| - 1;
      assert b[..k] == Head(n / 128 - 1);
      RaisedHead(n / 128 - 1);
    }
  }

  /** Read on from a partial value; max is the largest value of the integer type. */
  function ReadFrom(b: Bytes, acc: nat, max: nat): (r: Option<(nat, Bytes)>)
    decreases |b|
  {
    if b == [] || acc > max / 128 then None else
      var n := acc * 128 + b[0] % 128;
      if b[0] < 0x80 then Some((n, b[1..])) else if n == max then None else ReadFrom(b[1..], n + 1, max)
  }

  lemma ReadOne(c: byte, rest: Bytes, acc: nat, max: nat)
    requires acc <= max / 128 && c >= 0x80 && acc * 128 + c % 128 != max
    ensures ReadFrom([c] + rest, acc, max) == ReadFrom(rest, acc * 128 + c % 128 + 1, max)
  {
    assert ([c] + rest)[1..] == rest;
  }

  lemma Smaller(m: nat, max: nat)
    requires 0x7f < m < max / 128
    ensures 0 <= m / 128 - 1 < m && m / 128 - 1 < max / 128 && m / 128 <= max / 128
    ensures m / 128 * 128 + (m % 128 + 0x80) % 128 == m != max
  {}

  lemma {:induction false} ReadHead(m: nat, rest: Bytes, max: nat)
    requires m < max / 128
    ensures ReadFrom(Head(m) + rest, 0, max) == ReadFrom(rest, m + 1, max)
    decreases m
  {
    hide ReadFrom;
    if m <= 0x7f {
      ReadOne(m + 0x80, rest, 0, max);
    } else {
      var last: byte := m % 128 + 0x80;
      Smaller(m, max);
      assert Head(m) + rest == Head(m / 128 - 1) + ([last] + rest);
      ReadHead(m / 128 - 1, [last] + rest, max);
      ReadOne(last, rest, m / 128, max);
    }
  }

  /** Writing and reading back returns the number and leaves what follows. */
  lemma ReadOfEncoded(n: nat, rest: Bytes, max: nat)
    requires n <= max && max % 128 == 127
    ensures ReadFrom(Encoded(n) + rest, 0, max) == Some((n, rest))
  {
    if n <= 0x7f {
      assert (Encoded(n) + rest)[1..] == rest;
    } else {
      var last: byte := n % 128;
      assert Encoded(n) + rest == Head(n / 128 - 1) + ([last] + rest);
      ReadHead(n / 128 - 1, [last] + rest, max);
      assert ([last] + rest)[1..] == rest;
    }
  }

  function Digits(acc: nat): Bytes { if acc == 0 then [] else Head(acc - 1) }

  lemma {:induction false} EncodedOfRead(b: Bytes, acc: nat, max: nat)
    requires max % 128 == 127 && ReadFrom(b, acc, max).Some?
    ensures var (n, rest) := ReadFrom(b, acc, max).value; n <= max && Digits(acc) + b == Encoded(n) + rest
    decreases |b|
  {
    var n := acc * 128 + b[0] % 128;
    assert b == [b[0]] + b[1..];
    if b[0] < 0x80 {
      assert Digits(acc) + b == Digits(acc) + [b[0]] + b[1..];
    } else {
      EncodedOfRead(b[1..], n + 1, max);
      assert Digits(acc) + [b[0]] == Head(n);
      assert Digits(acc) + b == Digits(acc) + [b[0]] + b[1..];
    }
  }

  /** Every accepted byte string starts with the one encoding of its number. */
  lemma AcceptedIsEncoded(b: Bytes, max: nat)
    requires max % 128 == 127 && ReadFrom(b, 0, max).Some?
    ensures var (n, rest) := ReadFrom(b, 0, max).value; n <= max && b == Encoded(n) + rest
  {
    EncodedOfRead(b, 0, max);
    assert [] + b == b;
  }

  // ----- The writer's buffer -----

  lemma {:induction false} HeadLength(m: nat, k: nat)
    requires m < Pow2(k)
    ensures |Head(m)| <= 1 || |Head(m)| <= (k + 6) / 7
    decreases m
  {
    if m > 0x7f {
      SevenBits(m, k);
      HeadLength(m / 128 - 1, k - 7);
    }
  }

  lemma SevenBits(m: nat, k: nat)
    requires 0x7f < m < Pow2(k)
    ensures k >= 8 && m / 128 - 1 < Pow2(k - 7)
  {
    assert Pow2(7) == 128;
    hide Pow2;
    if k < 8 { Pow2Monotone(k, 7); }
    Pow2Add(7, k - 7);
  }

  lemma EncodedLength(n: nat, k: nat)
    requires n < Pow2(k)
    ensures |Encoded(n)| <= 1 || |Encoded(n)| <= (k + 6) / 7
  {
    if n > 0x7f {
      SevenBits(n, k);
      HeadLength(n / 128 - 1, k - 7);
    }
  }

  /** The digits still to be collected after len of them. */
  function Left(n: nat, len: nat): Bytes { if len == 0 then Encoded(n) else Head(n) }

  lemma LeftStep(n: nat, len: nat)
    ensures n <= 0x7f ==> Left(n, len) == [n + if len != 0 then 0x80 else 0]
    ensures n > 0x7f ==> Left(n, len) == Left(n / 128 - 1, len + 1) + [n % 128 + if len != 0 then 0x80 else 0]
  {}

  /** Collect the digits backwards. */
  method CollectDigits(value: nat, tmp: array<byte>) returns (len: nat)
    requires tmp.Length >= |Encoded(value)|
    modifies tmp
    ensures len + 1 == |Encoded(value)|
    ensures forall i :: 0 <= i <= len ==> tmp[i] == Encoded(value)[len - i]
  {
    hide Left, Encoded, Head;
    ghost var full := Encoded(value);
    StartsWhole(value);
    var n := value;
    len := 0;
    while n > 0x7f
      invariant len + |Left(n, len)| == |full| && Left(n, len) <= full
      invariant forall i :: 0 <= i < len ==> tmp[i] == full[|full| - 1 - i]
    {
      LeftStep(n, len);
      tmp[len] := n % 128 + if len != 0 then 0x80 else 0;
      n := n / 128 - 1;
      len := len + 1;
    }
    LeftStep(n, len);
    tmp[len] := n + if len != 0 then 0x80 else 0;
  }

  lemma StartsWhole(n: nat)
    ensures Left(n, 0) == Encoded(n)
  {}

  /** WriteVarInt for a k-bit type: the buffer of (k + 6) / 7 bytes is large enough. */
  method WriteVarInt(value: nat, k: nat) returns (os: Bytes)
    requires 0 < k && value < Pow2(k)
    ensures os == Encoded(value)
  {
    hide Pow2, Encoded;
    EncodedLength(value, k);
    var tmp := new byte[(k + 6) / 7](_ => 0);
    var last := CollectDigits(value, tmp);
    var len: int := last;
    os := [];
    while len >= 0
      invariant -1 <= len <= last && |os| == last - len
      invariant forall i :: 0 <= i < |os| ==> os[i] == Encoded(value)[i]
    {
      os := os + [tmp[len]];
      len := len - 1;
    }
  }

  method ReadVarInt(stream: Bytes, max: nat) returns (r: Option<(nat, Bytes)>)
    ensures r == ReadFrom(stream, 0, max)
  {
    var n: nat, b := 0, stream;
    while true
      invariant ReadFrom(stream, 0, max) == ReadFrom(b, n, max)
      decreases |b|
    {
      if b == [] { return None; }
      var chData := b[0];
      b := b[1..];
      if n > max / 128 { return None; }
      n := n * 128 + chData % 128;
      if chData >= 0x80 {
        if n == max { return None; }
        n := n + 1;
      } else {
        return Some((n, b));
      }
    }
  }

  method GetSizeOfVarInt(value: nat) returns (size: nat)
    ensures size == |Encoded(value)|
  {
    var n := value;
    size := 0;
    while true
      invariant |Encoded(value)| == size + (if size == 0 then |Encoded(n)| else |Head(n)|)
      decreases n
    {
      size := size + 1;
      if n <= 0x7f { break; }
      n := n / 128 - 1;
    }
  }
}
