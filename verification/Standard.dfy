/** Standard output scripts: which template a script matches, and the destinations behind them. */
module Standard {
  import opened Bytes
  import opened Script

  datatype Solution =
    | Nonstandard
    | NullData
    | PubKey(key: Bytes)
    | PubKeyHash(hash: Bytes)
    | ScriptHash(hash: Bytes)
    | Multisig(required: nat, keys: seq<Bytes>)
    | WitnessKeyHash(hash: Bytes)
    | WitnessScriptHash(hash: Bytes)
    | WitnessUnknown(version: nat, program: Bytes)

  /** The length a public key must have by its first byte. */
  function KeyLength(header: byte): nat {
    if header == 2 || header == 3 then 33 else if header == 4 || header == 6 || header == 7 then 65 else 0
  }

  predicate ValidKey(key: Bytes) { |key| > 0 && KeyLength(key[0]) == |key| }

  predicate IsSmallInteger(op: byte) { OP_1 <= op <= OP_16 }

  // ----- Multisig -----

  /** What reading keys from pc finds: the keys and the instruction that is none; 0xff when the script ends. */
  datatype KeyScan = KeyScan(keys: seq<Bytes>, opcode: byte, next: nat)

  function KeysFrom(script: Bytes, pc: nat): (r: KeyScan)
    decreases |script| - pc
  {
    match GetOp(script, pc)
    case NoOp => KeyScan([], 0xff, pc)
    case Op(op, data, next) =>
      if !ValidKey(data) then KeyScan([], op, next) else
        var rest := KeysFrom(script, next);
        rest.(keys := [data] + rest.keys)
  }

  function MatchMultisig(script: Bytes): Option<Solution> {
    if |script| < 1 || script[|script| - 1] != OP_CHECKMULTISIG then None else
      match GetOp(script, 0)
      case NoOp => None
      case Op(op, _, next) =>
        var scan := KeysFrom(script, next);
        if !IsSmallInteger(op) || !IsSmallInteger(scan.opcode) then None
        else if |scan.keys| != scan.opcode as int - 0x50 || scan.opcode < op || scan.next + 1 != |script| then None
        else Some(Multisig(op - 0x50, scan.keys))
  }

  method FindMultisig(script: Bytes) returns (r: Option<Solution>)
    ensures r == MatchMultisig(script)
  {
    hide GetOp;
    if |script| < 1 || script[|script| - 1] != OP_CHECKMULTISIG { return None; }
    var first := GetOp(script, 0);
    if first.NoOp? || !IsSmallInteger(first.opcode) { return None; }
    var keys: seq<Bytes>, it := [], first.next;
    var fetch := GetOp(script, it);
    while fetch.Op? && ValidKey(fetch.data)
      invariant fetch == GetOp(script, it)
      invariant KeysFrom(script, first.next) == var rest := KeysFrom(script, it); rest.(keys := keys + rest.keys)
      decreases |script| - it
    {
      keys, it := keys + [fetch.data], fetch.next;
      fetch := GetOp(script, it);
    }
    assert keys + [] == keys;
    if fetch.NoOp? || !IsSmallInteger(fetch.opcode) { return None; }
    if |keys| != fetch.opcode as int - 0x50 || fetch.opcode < first.opcode { return None; }
    if fetch.next + 1 != |script| { return None; }
    return Some(Multisig(first.opcode - 0x50, keys));
  }

  function KeyPushes(keys: seq<Bytes>): Bytes {
    if keys == [] then [] else PushData(keys[0]) + KeyPushes(keys[1..])
  }

  /** EncodeOP_N. */
  function SmallInt(n: nat): byte
    requires n <= 16
  {
    if n == 0 then OP_0 else n + 0x50
  }

  function MultisigScript(m: nat, keys: seq<Bytes>): Bytes
    requires m <= 16 && |keys| <= 16
  {
    [SmallInt(m)] + KeyPushes(keys) + [SmallInt(|keys|), OP_CHECKMULTISIG]
  }

  lemma {:induction false} ScanKeys(before: Bytes, keys: seq<Bytes>, op: byte, last: byte)
    requires IsSmallInteger(op) && forall i :: 0 <= i < |keys| ==> ValidKey(keys[i])
    ensures KeysFrom(before + KeyPushes(keys) + [op, last], |before|)
            == KeyScan(keys, op, |before| + |KeyPushes(keys)| + 1)
    decreases |keys|
  {
    hide GetOp, PushData, ValidKey;
    var script := before + KeyPushes(keys) + [op, last];
    if keys == [] {
      ScanEnd(before, op, last);
      assert before + [] + [op, last] == before + [op, last];
    } else {
      var key, after := keys[0], KeyPushes(keys[1..]) + [op, last];
      KeyFits(key);
      GetOpOfPush(before, key, after);
      Shift(before, PushData(key), KeyPushes(keys[1..]), [op, last]);
      ScanKeys(before + PushData(key), keys[1..], op, last);
    }
  }

  lemma ScanEnd(before: Bytes, op: byte, last: byte)
    requires IsSmallInteger(op)
    ensures KeysFrom(before + [op, last], |before|) == KeyScan([], op, |before| + 1)
  {
    assert (before + [op, last])[|before|] == op;
  }

  lemma KeyFits(key: Bytes)
    requires ValidKey(key)
    ensures |key| < 0x1_0000_0000
  {}

  lemma Shift(a: Bytes, b: Bytes, c: Bytes, d: Bytes)
    ensures a + (b + c) + d == a + b + (c + d) == (a + b) + c + d
  {}

  lemma MultisigMatches(m: nat, keys: seq<Bytes>)
    requires 1 <= m <= |keys| <= 16 && forall i :: 0 <= i < |keys| ==> ValidKey(keys[i])
    ensures MatchMultisig(MultisigScript(m, keys)) == Some(Multisig(m, keys))
  {
    hide KeyPushes, KeysFrom;
    var script := MultisigScript(m, keys);
    ScanKeys([SmallInt(m)], keys, SmallInt(|keys|), OP_CHECKMULTISIG);
    assert GetOp(script, 0) == Op(SmallInt(m), [], 1);
  }

  // ----- Solver -----

  function MatchPubKey(script: Bytes): Option<Solution> {
    var n := |script|;
    if ((n == 67 && script[0] == 65) || (n == 35 && script[0] == 33)) && script[n - 1] == OP_CHECKSIG
       && ValidKey(script[1..n - 1])
    then Some(PubKey(script[1..n - 1])) else None
  }

  function MatchPubKeyHash(script: Bytes): Option<Solution> {
    if |script| == 25 && script[0] == OP_DUP && script[1] == OP_HASH160 && script[2] == 20
       && script[23] == OP_EQUALVERIFY && script[24] == OP_CHECKSIG
    then Some(PubKeyHash(script[3..23])) else None
  }

  function MatchWitness(version: nat, program: Bytes): Solution {
    if version == 0 && |program| == 20 then WitnessKeyHash(program)
    else if version == 0 && |program| == 32 then WitnessScriptHash(program)
    else if version != 0 then WitnessUnknown(version, program)
    else Nonstandard
  }

  function Solver(script: Bytes): Solution {
    if IsPayToScriptHash(script) then ScriptHash(script[2..22]) else
    match WitnessProgram(script)
    case Some((version, program)) => MatchWitness(version, program)
    case None =>
      if |script| >= 1 && script[0] == OP_RETURN && IsPushOnlyFrom(script, 1) then NullData else
      match MatchPubKey(script)
      case Some(r) => r
      case None =>
        match MatchPubKeyHash(script)
        case Some(r) => r
        case None =>
          match MatchMultisig(script)
          case Some(r) => r
          case None => Nonstandard
  }

  lemma {:induction false} KeyPushesLength(keys: seq<Bytes>)
    requires forall i :: 0 <= i < |keys| ==> ValidKey(keys[i])
    ensures |KeyPushes(keys)| >= 34 * |keys|
    ensures keys != [] ==> KeyPushes(keys)[0] == |keys[0]|
    ensures keys != [] ==> |KeyPushes(keys)| == 1 + |keys[0]| + |KeyPushes(keys[1..])|
  {
    if keys != [] { KeyPushesLength(keys[1..]); }
  }

  /** Solver recovers the threshold and the keys of every multisig script. */
  lemma SolverRecoversMultisig(m: nat, keys: seq<Bytes>)
    requires 1 <= m <= |keys| <= 16 && forall i :: 0 <= i < |keys| ==> ValidKey(keys[i])
    ensures Solver(MultisigScript(m, keys)) == Multisig(m, keys)
  {
    hide KeyPushes, MatchMultisig, ValidKey;
    MultisigMatches(m, keys);
    KeyPushesLength(keys);
    var script := MultisigScript(m, keys);
    assert script[0] == m + 0x50 && script[1] == |keys[0]| && |script| >= |keys[0]| + 4;
  }

  // ----- Destinations -----

  datatype Destination =
    | NoDestination
    | KeyId(hash20: Hash20)
    | ScriptId(hash20: Hash20)
    | WitnessKey(hash20: Hash20)
    | WitnessScript(hash32: Hash32)
    | WitnessOther(version: nat, program: Bytes)

  /** A witness program the address format can carry under a later version. */
  predicate ValidDestination(d: Destination) { d.WitnessOther? ==> 1 <= d.version <= 16 && 2 <= |d.program| <= 40 }

  function ScriptFor(d: Destination): Bytes
    requires ValidDestination(d)
  {
    match d
    case NoDestination => []
    case KeyId(h) => [OP_DUP, OP_HASH160] + PushData(h) + [OP_EQUALVERIFY, OP_CHECKSIG]
    case ScriptId(h) => [OP_HASH160] + PushData(h) + [OP_EQUAL]
    case WitnessKey(h) => [OP_0] + PushData(h)
    case WitnessScript(h) => [OP_0] + PushData(h)
    case WitnessOther(version, program) => [SmallInt(version)] + PushData(program)
  }

  /** ExtractDestination; keyId is the hash of a public key. */
  function Extract(script: Bytes, keyId: Bytes -> Hash20): Option<Destination> {
    match Solver(script)
    case PubKey(key) => Some(KeyId(keyId(key)))
    case PubKeyHash(h) => if |h| == 20 then Some(KeyId(h)) else None
    case ScriptHash(h) => if |h| == 20 then Some(ScriptId(h)) else None
    case WitnessKeyHash(h) => if |h| == 20 then Some(WitnessKey(h)) else None
    case WitnessScriptHash(h) => if |h| == 32 then Some(WitnessScript(h)) else None
    case WitnessUnknown(version, program) => Some(WitnessOther(version, program))
    case _ => None
  }

  lemma DirectPush(b: Bytes)
    requires 1 <= |b| <= 75
    ensures PushData(b) == [|b| as byte] + b
  {}

  lemma KeyIdSolves(h: Hash20)
    ensures Solver([OP_DUP, OP_HASH160] + PushData(h) + [OP_EQUALVERIFY, OP_CHECKSIG]) == PubKeyHash(h)
  {
    hide PushData, IsPushOnlyFrom, MatchMultisig, ValidKey;
    DirectPush(h);
    var script := [OP_DUP, OP_HASH160] + PushData(h) + [OP_EQUALVERIFY, OP_CHECKSIG];
    assert |script| == 25 && script[3..23] == h;
  }

  lemma ScriptIdSolves(h: Hash20)
    ensures Solver([OP_HASH160] + PushData(h) + [OP_EQUAL]) == ScriptHash(h)
  {
    hide PushData;
    DirectPush(h);
    assert ([OP_HASH160] + PushData(h) + [OP_EQUAL])[2..22] == h;
  }

  lemma WitnessSolves(version: nat, program: Bytes)
    requires version <= 16 && 2 <= |program| <= 40
    ensures Solver([SmallInt(version)] + PushData(program)) == MatchWitness(version, program)
  {
    hide PushData, MatchWitness;
    DirectPush(program);
    var script := [SmallInt(version)] + PushData(program);
    assert script[2..] == program;
    assert WitnessProgram(script) == Some((version, program));
  }

  /** The script of a destination leads back to it. */
  lemma ExtractOfScript(d: Destination, keyId: Bytes -> Hash20)
    requires ValidDestination(d) && !d.NoDestination?
    ensures Extract(ScriptFor(d), keyId) == Some(d)
  {
    hide Solver, PushData;
    match d
    case KeyId(h) => KeyIdSolves(h);
    case ScriptId(h) => ScriptIdSolves(h);
    case WitnessKey(h) => WitnessSolves(0, h);
    case WitnessScript(h) => WitnessSolves(0, h);
    case WitnessOther(version, program) => WitnessSolves(version, program);
  }

  lemma PushOf(script: Bytes, i: nat, n: nat)
    requires 1 <= n <= 75 && i + 1 + n <= |script| && script[i] == n
    ensures script[i..i + 1 + n] == PushData(script[i + 1..i + 1 + n])
  {
    DirectPush(script[i + 1..i + 1 + n]);
  }

  lemma WitnessShape(script: Bytes, version: nat, program: Bytes)
    requires WitnessProgram(script) == Some((version, program))
    ensures version <= 16 && 2 <= |program| <= 40 && script == [SmallInt(version)] + PushData(program)
  {
    hide PushData;
    var n := |script|;
    PushOf(script, 1, n - 2);
    assert script[2..n] == script[2..];
    assert script == script[..1] + script[1..n];
  }

  lemma ScriptHashShape(script: Bytes)
    ensures IsPayToScriptHash(script) ==> script == [OP_HASH160] + PushData(script[2..22]) + [OP_EQUAL]
  {
    hide PushData;
    if IsPayToScriptHash(script) {
      PushOf(script, 1, 20);
      assert script == script[..1] + script[1..22] + script[22..];
    }
  }

  lemma PubKeyHashShape(script: Bytes)
    ensures MatchPubKeyHash(script).Some?
            ==> |script| == 25 && MatchPubKeyHash(script).value == PubKeyHash(script[3..23])
                && script == [OP_DUP, OP_HASH160] + PushData(script[3..23]) + [OP_EQUALVERIFY, OP_CHECKSIG]
  {
    hide PushData;
    if MatchPubKeyHash(script).Some? {
      PushOf(script, 2, 20);
      assert script == script[..2] + script[2..23] + script[23..];
    }
  }

  /** And only that script does, except for a script that carries the whole key. */
  lemma ScriptOfExtract(script: Bytes, d: Destination, keyId: Bytes -> Hash20)
    requires Extract(script, keyId) == Some(d)
    ensures ValidDestination(d) && !d.NoDestination?
    ensures script == ScriptFor(d) || MatchPubKey(script).Some?
  {
    hide PushData, IsPushOnlyFrom, WitnessProgram, MatchPubKey, MatchPubKeyHash, MatchMultisig;
    ScriptHashShape(script);
    PubKeyHashShape(script);
    PubKeyOnly(script);
    MultisigOnly(script);
    if WitnessProgram(script).Some? {
      var (version, program) := WitnessProgram(script).value;
      WitnessShape(script, version, program);
    }
  }

  lemma PubKeyOnly(script: Bytes)
    ensures MatchPubKey(script).Some? ==> MatchPubKey(script).value.PubKey?
  {}

  lemma MultisigOnly(script: Bytes)
    ensures MatchMultisig(script).Some? ==> MatchMultisig(script).value.Multisig?
  {}
}
