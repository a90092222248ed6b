/** The strict signature encoding: which byte strings pass, and that each signature has one. */
module SignatureEncoding {
  import opened Bytes
  import opened Bits
  import opened Interpreter

  /** A natural number in two's complement, most significant byte first, without a superfluous byte. */
  predicate IsDerInteger(x: Bytes) {
    |x| >= 1 && x[0] < 0x80 && (|x| > 1 && x[0] == 0 ==> x[1] >= 0x80)
  }

  /** Sequence, length, two integers with tag and length, and the hash type behind it. */
  function DerSignature(r: Bytes, s: Bytes, hashType: byte): Bytes
    requires |r| + |s| <= 66
  {
    [0x30, |r| + |s| + 4, 2, |r|] + r + [2, |s|] + s + [hashType]
  }

  predicate IsDer(sig: Bytes, r: Bytes, s: Bytes, hashType: byte) {
    IsDerInteger(r) && IsDerInteger(s) && |r| + |s| <= 66 && sig == DerSignature(r, s, hashType)
  }

  /** The parts of an encoding that passes. */
  lemma Parts(sig: Bytes) returns (r: Bytes, s: Bytes, hashType: byte)
    requires IsValidSignatureEncoding(sig)
    ensures IsDer(sig, r, s, hashType)
  {
    var lenR: int := sig[3];
    var lenS: int := sig[5 + lenR];
    r, s, hashType := sig[4..4 + lenR], sig[6 + lenR..6 + lenR + lenS], sig[|sig| - 1];
    assert r[0] == sig[4] && s[0] == sig[lenR + 6];
    assert |r| > 1 ==> r[1] == sig[5];
    assert |s| > 1 ==> s[1] == sig[lenR + 7];
    assert sig == DerSignature(r, s, hashType);
  }

  lemma Encoded(r: Bytes, s: Bytes, hashType: byte)
    requires IsDerInteger(r) && IsDerInteger(s) && |r| + |s| <= 66
    ensures IsValidSignatureEncoding(DerSignature(r, s, hashType))
  {
    var sig := DerSignature(r, s, hashType);
    assert sig[4..4 + |r|] == r && sig[6 + |r|..6 + |r| + |s|] == s;
    assert sig[4] == r[0] && sig[6 + |r|] == s[0];
    assert |r| > 1 ==> sig[5] == r[1];
    assert |s| > 1 ==> sig[7 + |r|] == s[1];
  }

  /** A non-empty signature passes exactly when it is the encoding of two integers and a hash type. */
  lemma ValidIff(sig: Bytes)
    ensures IsValidSignatureEncoding(sig) <==> exists r, s, hashType :: IsDer(sig, r, s, hashType)
  {
    hide IsValidSignatureEncoding, DerSignature, IsDerInteger;
    if IsValidSignatureEncoding(sig) {
      var r, s, hashType := Parts(sig);
    }
    forall r, s, hashType | IsDer(sig, r, s, hashType) ensures IsValidSignatureEncoding(sig) {
      Encoded(r, s, hashType);
    }
  }

  // ----- One encoding for each signature -----

  function BeNat(x: Bytes): nat {
    if x == [] then 0 else x[0] as nat * Pow256(|x| - 1) + BeNat(x[1..])
  }

  lemma {:induction false} BeNatBelow(x: Bytes)
    ensures BeNat(x) < Pow256(|x|)
  {
    if x != [] {
      BeNatBelow(x[1..]);
      MulMonotone(Pow256(|x| - 1), x[0] as nat + 1, 256);
      assert Pow256(|x| - 1) * (x[0] as nat + 1) == x[0] as nat * Pow256(|x| - 1) + Pow256(|x| - 1);
    }
  }

  lemma {:induction false} SameLength(x: Bytes, y: Bytes)
    requires |x| == |y| && BeNat(x) == BeNat(y)
    ensures x == y
  {
    if x != [] {
      var p := Pow256(|x| - 1);
      BeNatBelow(x[1..]);
      BeNatBelow(y[1..]);
      assert p * (x[0] as nat) + BeNat(x[1..]) == p * (y[0] as nat) + BeNat(y[1..]);
      QuotientIsUnique(p, x[0] as nat, BeNat(x[1..]), y[0] as nat, BeNat(y[1..]));
      SameLength(x[1..], y[1..]);
      assert x == [x[0]] + x[1..] && y == [y[0]] + y[1..];
    }
  }

  lemma {:induction false} PowerGrows(a: nat, b: nat)
    requires a <= b
    ensures Pow256(a) <= Pow256(b)
  {
    if a < b { PowerGrows(a, b - 1); }
  }

  lemma AtMost(x: Bytes)
    requires IsDerInteger(x)
    ensures BeNat(x) < 128 * Pow256(|x| - 1)
  {
    var p := Pow256(|x| - 1);
    BeNatBelow(x[1..]);
    MulMonotone(p, x[0] as nat + 1, 128);
    assert p * (x[0] as nat + 1) == x[0] as nat * p + p;
  }

  lemma HeadCounts(y: Bytes, d: nat)
    requires y != [] && d <= y[0] as nat
    ensures BeNat(y) >= d * Pow256(|y| - 1)
  {
    MulMonotone(Pow256(|y| - 1), d, y[0] as nat);
  }

  lemma AtLeast(y: Bytes)
    requires IsDerInteger(y) && |y| > 1
    ensures BeNat(y) >= 128 * Pow256(|y| - 2)
  {
    if y[0] == 0 { HeadCounts(y[1..], 128); } else { HeadCounts(y, 1); }
  }

  /** A longer canonical integer is a larger number. */
  lemma LongerIsLarger(x: Bytes, y: Bytes)
    requires IsDerInteger(x) && IsDerInteger(y) && |x| < |y|
    ensures BeNat(x) < BeNat(y)
  {
    hide BeNat;
    AtMost(x);
    AtLeast(y);
    PowerGrows(|x| - 1, |y| - 2);
  }

  lemma IntegerIsUnique(x: Bytes, y: Bytes)
    requires IsDerInteger(x) && IsDerInteger(y) && BeNat(x) == BeNat(y)
    ensures x == y
  {
    hide BeNat, IsDerInteger;
    if |x| < |y| { LongerIsLarger(x, y); }
    if |y| < |x| { LongerIsLarger(y, x); }
    SameLength(x, y);
  }

  /** Two encodings that pass with the same numbers and hash type are the same bytes. */
  lemma EncodingIsUnique(sig: Bytes, r: Bytes, s: Bytes, sig': Bytes, r': Bytes, s': Bytes, hashType: byte)
    requires IsDer(sig, r, s, hashType) && IsDer(sig', r', s', hashType)
    ensures sig == sig' <==> BeNat(r) == BeNat(r') && BeNat(s) == BeNat(s')
  {
    hide BeNat, IsDerInteger;
    if BeNat(r) == BeNat(r') && BeNat(s) == BeNat(s') {
      IntegerIsUnique(r, r');
      IntegerIsUnique(s, s');
    }
    if sig == sig' {
      assert |r| == sig[3] as int == |r'|;
      assert sig[4..4 + |r|] == r && sig'[4..4 + |r|] == r';
      assert sig[6 + |r|..6 + |r| + |s|] == s && sig'[6 + |r|..6 + |r| + |s|] == s';
    }
  }

  // ----- The rules a flag set imposes -----

  /** The hash type byte is ALL, NONE or SINGLE, alone or with ANYONECANPAY. */
  predicate IsKnownHashType(b: byte) { b in {1, 2, 3, 0x81, 0x82, 0x83} }

  predicate IsShortKey(key: Bytes) { |key| == 33 && key[0] in {2, 3} }

  predicate IsLongKey(key: Bytes) { |key| == 65 && key[0] == 4 }

  ghost predicate SignatureFollows(env: Env, sig: Bytes) {
    (env.flags * {DERSIG, LOW_S, STRICTENC} != {} ==> exists r, s, hashType :: IsDer(sig, r, s, hashType)) &&
    (LOW_S in env.flags ==> sig != [] && env.checker.lowS(sig[..|sig| - 1])) &&
    (STRICTENC in env.flags ==> sig != [] && IsKnownHashType(sig[|sig| - 1]))
  }

  predicate KeyFollows(env: Env, key: Bytes) {
    (STRICTENC in env.flags ==> IsShortKey(key) || IsLongKey(key)) &&
    (WITNESS_PUBKEYTYPE in env.flags && env.sigversion == WITNESS_V0 ==> IsShortKey(key))
  }

  /** Each follows the rules the flags impose; an empty signature always does. */
  ghost predicate FollowRules(env: Env, sig: Bytes, key: Bytes) {
    (sig == [] || SignatureFollows(env, sig)) && KeyFollows(env, key)
  }

  /** A pair passes the encoding checks exactly when it follows the rules. */
  lemma RulesIff(env: Env, sig: Bytes, key: Bytes)
    ensures EncodingError(env, sig, key).None? <==> FollowRules(env, sig, key)
  {
    hide IsValidSignatureEncoding, IsDer;
    ValidIff(sig);
    var some := env.flags * {DERSIG, LOW_S, STRICTENC};
    assert some != {} <==> DERSIG in env.flags || LOW_S in env.flags || STRICTENC in env.flags by {
      if some != {} { var f :| f in some; }
      assert forall f :: f in some <==> f in env.flags && (f == DERSIG || f == LOW_S || f == STRICTENC);
    }
  }
}
