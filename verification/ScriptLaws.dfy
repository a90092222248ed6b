/** The byte-level script tests, instruction by instruction: what a first instruction adds to each of them. */
module ScriptLaws {
  import opened Bytes
  import opened Script
  import opened Separators
  import opened TxLayout
  import Standard
  import opened ScriptCode
  import opened Interpreter
  import ScriptNum

  /** These bytes are one instruction. */
  predicate IsOne(raw: Bytes, op: byte, data: Bytes) { GetOp(raw, 0) == Op(op, data, |raw|) }

  /** A first instruction is read whatever follows. */
  lemma ReadFirst(raw: Bytes, op: byte, data: Bytes, s: Bytes)
    requires IsOne(raw, op, data)
    ensures GetOp(raw + s, 0) == Op(op, data, |raw|)
  {
    var t := raw + s;
    assert forall a, b :: 0 <= a <= b <= |raw| ==> t[a..b] == raw[a..b];
  }

  // ----- Pushes -----

  /** The bytes of a push: up to 75 the length itself, then 76, 77 or 78 and one, two or four length bytes. */
  lemma PushLayout(b: Bytes)
    requires |b| < 0x1_0000_0000
    ensures PushData(b)
         == if |b| <= 75 then [|b|] + b
            else if |b| <= 255 then [76, |b|] + b
            else if |b| <= 0xffff then [77, |b| % 256, |b| / 256] + b
            else [78] + Four(|b|) + b
  {
    hide Le, Four;
    if |b| <= 0xffff { TwoIs(|b|); }
    FourIs(|b|);
  }

  /** What is read at the start of a script, from its bytes. */
  lemma OpcodeLayout(op: byte, data: Bytes)
    ensures op > 78 ==> IsOne([op], op, [])
    ensures op <= 75 && |data| == op ==> IsOne([op] + data, op, data)
    ensures |data| <= 255 ==> IsOne([76, |data|] + data, 76, data)
  {
    if op <= 75 && |data| == op { assert ([op] + data)[1..1 + |data|] == data; }
    if |data| <= 255 {
      var s := [76, |data|] + data;
      assert s[1..2] == [|data| as byte] && LeNat([|data| as byte]) == |data|;
      assert s[2..2 + |data|] == data;
    }
  }

  /** How many length bytes an opcode has. */
  function LengthBytes(op: byte): nat { if op < 76 then 0 else if op == 76 then 1 else if op == 77 then 2 else 4 }

  lemma HeaderOf(raw: Bytes, op: byte, data: Bytes)
    requires IsOne(raw, op, data) && op <= 78
    ensures var q := 1 + LengthBytes(op);
            q <= |raw| && raw[0] == op && raw[q..] == data
            && |data| == if op < 76 then op else LeNat(raw[1..q])
  {
    assert raw[1 + LengthBytes(op)..|raw|] == raw[1 + LengthBytes(op)..];
  }

  /** The bytes of a push instruction, from its opcode and its data. */
  lemma PushForms(raw: Bytes, op: byte, data: Bytes)
    requires IsOne(raw, op, data) && op <= 78
    ensures op <= 75 ==> |data| == op && raw == [op] + data
    ensures op > 75 ==> |data| < Pow256(LengthBytes(op)) && raw == [op] + Le(|data|, LengthBytes(op)) + data
  {
    HeaderOf(raw, op, data);
    hide IsOne, LeNat, Le, Pow256;
    var q := 1 + LengthBytes(op);
    Split(raw, q);
    var head := raw[1..q];
    LeOfLeNat(head);
    LeNatBound(head);
    if op <= 75 { NoHead(op, head, data); }
  }

  lemma Split(raw: Bytes, q: nat)
    requires 1 <= q <= |raw|
    ensures raw == [raw[0]] + raw[1..q] + raw[q..]
  {}

  lemma NoHead(op: byte, head: Bytes, data: Bytes)
    requires head == []
    ensures [op] + head + data == [op] + data
  {}

  lemma OneLengthByte(n: nat)
    ensures Le(n, 1) == [n % 256]
  {}

  /** A push is minimal when it is the one the builder makes and no opcode of its own pushes the same. */
  predicate IsMinimalPush(raw: Bytes, data: Bytes) {
    raw == PushData(data) && !(|data| == 1 && (1 <= data[0] <= 16 || data[0] == 0x81))
  }

  lemma MinimalIff(raw: Bytes, op: byte, data: Bytes)
    requires IsOne(raw, op, data) && op <= 78 && |data| <= 520
    ensures CheckMinimalPush(data, op) <==> IsMinimalPush(raw, data)
  {
    PushForms(raw, op, data);
    assert Pow256(1) == 256 && raw[0] == op && PushData(data)[0] == PushHeader(|data|)[0];
    hide Le, GetOp, LeNat, IsOne, Pow256;
    OneLengthByte(|data|);
  }

  /** A push of up to 520 bytes leaves its data, unless minimal pushes are asked for and it is not one. */
  lemma PushEval(env: Env, op: byte, data: Bytes, stack: Stack)
    requires IsOne(env.script, op, data) && op <= 78 && |stack| < MAX_STACK_SIZE && |env.script| <= MAX_SCRIPT_SIZE
    ensures Eval(env, stack)
         == if |data| > 520 then Fail(PUSH_SIZE, 0)
            else if MINIMALDATA in env.flags && !IsMinimalPush(env.script, data) then Fail(MINIMALDATA_VIOLATED, 0)
            else Next(Start(stack + [data]))
  {
    hide GetOp, CheckMinimalPush, IsMinimalPush;
    if |data| <= 520 { MinimalIff(env.script, op, data); }
    PushStep(env, op, data, stack);
    assert AllTrue([]) && !IsConditional(op);
    hide Step;
    assert RunFrom(env, |env.script|, [], Start(stack + [data])) == Next(Start(stack + [data]));
  }

  lemma PushStep(env: Env, op: byte, data: Bytes, stack: Stack)
    requires op <= 78 && |stack| < MAX_STACK_SIZE
    ensures Step(env, op, data, |env.script|, true, Start(stack))
         == if |data| > 520 then Fail(PUSH_SIZE, 0)
            else if MINIMALDATA in env.flags && !CheckMinimalPush(data, op) then Fail(MINIMALDATA_VIOLATED, 0)
            else Next(Start(stack + [data]))
  {
    hide CheckMinimalPush, Exec;
  }

  // ----- Push only -----

  lemma {:induction false} PushOnlyMoves(u: Bytes, v: Bytes, pc: nat)
    ensures IsPushOnlyFrom(u + v, |u| + pc) <==> IsPushOnlyFrom(v, pc)
    decreases |v| - pc
  {
    hide GetOp;
    GetOpMoves(u, v, pc);
    var f := GetOp(v, pc);
    if pc < |v| && f.Op? { PushOnlyMoves(u, v, f.next); }
  }

  /** A script is push-only exactly when its instructions are all readable and none is above 0x60. */
  lemma PushOnlyFirst(raw: Bytes, op: byte, data: Bytes, s: Bytes)
    requires IsOne(raw, op, data)
    ensures IsPushOnly([]) && (IsPushOnly(raw + s) <==> op <= 0x60 && IsPushOnly(s))
  {
    hide GetOp;
    ReadFirst(raw, op, data, s);
    PushOnlyMoves(raw, s, 0);
  }

  lemma UnreadableIsNotPushes(s: Bytes)
    requires s != [] && GetOp(s, 0).NoOp?
    ensures !IsPushOnly(s)
  {}

  // ----- Signature operations -----

  lemma {:induction false} SigOpsMove(u: Bytes, v: Bytes, pc: nat, last: byte, accurate: bool)
    ensures SigOpsFrom(u + v, |u| + pc, last, accurate) == SigOpsFrom(v, pc, last, accurate)
    decreases |v| - pc
  {
    hide GetOp, SigOpWeight;
    GetOpMoves(u, v, pc);
    var f := GetOp(v, pc);
    if f.Op? { SigOpsMove(u, v, f.next, f.opcode, accurate); }
  }

  lemma {:induction false} RoughLast(s: Bytes, pc: nat, last: byte, last': byte)
    ensures SigOpsFrom(s, pc, last, false) == SigOpsFrom(s, pc, last', false)
  {}

  /** Without accuracy CHECKSIG (0xac) and its variant (0xad) count one, CHECKMULTISIG (0xae) and its variant (0xaf)
      count twenty, and everything else nothing. */
  lemma RoughCountFirst(raw: Bytes, op: byte, data: Bytes, s: Bytes)
    requires IsOne(raw, op, data)
    ensures SigOpCount(raw + s, false)
         == (if op == 0xac || op == 0xad then 1 else if op == 0xae || op == 0xaf then 20 else 0) + SigOpCount(s, false)
  {
    hide GetOp;
    ReadFirst(raw, op, data, s);
    SigOpsMove(raw, s, 0, op, false);
    RoughLast(s, 0, op, OP_INVALIDOPCODE);
  }

  lemma AccurateFirst(raw: Bytes, op: byte, data: Bytes, s: Bytes, last: byte)
    requires IsOne(raw, op, data)
    ensures SigOpsFrom(raw + s, 0, last, true)
         == (if op == 0xac || op == 0xad then 1
             else if op != 0xae && op != 0xaf then 0
             else if 0x51 <= last <= 0x60 then last - 0x50 else 20)
            + SigOpsFrom(s, 0, op, true)
  {
    hide GetOp;
    ReadFirst(raw, op, data, s);
    SigOpsMove(raw, s, 0, op, true);
  }

  lemma {:induction false} KeysCountNothing(keys: seq<Bytes>, s: Bytes, last: byte,
                                            accurate: bool) returns (before: byte)
    requires forall i :: 0 <= i < |keys| ==> Standard.ValidKey(keys[i])
    ensures SigOpsFrom(Standard.KeyPushes(keys) + s, 0, last, accurate) == SigOpsFrom(s, 0, before, accurate)
    decreases |keys|
  {
    hide GetOp, SigOpCount;
    before := last;
    if keys == [] { assert [] + s == s; } else {
      var key, rest := keys[0], Standard.KeyPushes(keys[1..]) + s;
      var raw := PushData(key);
      KeyPush(key);
      hide IsOne, PushData;
      Grouped(raw, Standard.KeyPushes(keys[1..]), s);
      ReadFirst(raw, |key|, key, rest);
      SigOpsMove(raw, rest, 0, |key|, accurate);
      before := KeysCountNothing(keys[1..], s, |key|, accurate);
    }
  }

  lemma KeyPush(key: Bytes)
    requires Standard.ValidKey(key)
    ensures |key| <= 75 && IsOne(PushData(key), |key|, key)
  {
    OpcodeLayout(|key|, key);
    PushLayout(key);
  }

  lemma Grouped(a: Bytes, b: Bytes, c: Bytes)
    ensures a + b + c == a + (b + c)
  {}

  /** A multisig script of n keys counts n accurately and 20 roughly. */
  lemma MultisigCounts(m: nat, keys: seq<Bytes>)
    requires 1 <= m <= |keys| <= 16 && forall i :: 0 <= i < |keys| ==> Standard.ValidKey(keys[i])
    ensures SigOpCount(Standard.MultisigScript(m, keys), true) == |keys|
    ensures SigOpCount(Standard.MultisigScript(m, keys), false) == 20
  {
    hide Standard.KeyPushes, GetOp;
    var n := 0x50 + |keys| as byte;
    var head: Bytes := [0x50 + m];
    var body := Standard.KeyPushes(keys);
    assert Standard.MultisigScript(m, keys) == head + (body + ([n] + [0xae]));
    OpcodeLayout(head[0], []);
    OpcodeLayout(n, []);
    OpcodeLayout(0xae, []);
    forall accurate: bool
      ensures SigOpCount(Standard.MultisigScript(m, keys), accurate) == if accurate then |keys| else 20
    {
      ReadFirst(head, head[0], [], body + ([n] + [0xae]));
      SigOpsMove(head, body + ([n] + [0xae]), 0, head[0], accurate);
      var before := KeysCountNothing(keys, [n] + [0xae], head[0], accurate);
      ReadFirst([n], n, [], [0xae]);
      SigOpsMove([n], [0xae], 0, n, accurate);
      NothingAfter(n, accurate);
    }
  }

  lemma NothingAfter(last: byte, accurate: bool)
    ensures SigOpsFrom([0xae], 0, last, accurate) == SigOpWeight(0xae, last, accurate)
  {
    assert GetOp([0xae], 0) == Op(0xae, [], 1) && GetOp([0xae], 1) == NoOp;
  }

  // ----- FindAndDelete -----

  /** v is what follows the first n bytes of s. */
  predicate Follows(s: Bytes, n: nat, v: Bytes) { n + |v| == |s| && s[n..] == v }

  lemma Slices(s: Bytes, n: nat, v: Bytes, k: nat, l: nat)
    requires Follows(s, n, v) && k <= l <= |v|
    ensures s[n + k..n + l] == v[k..l] && s[n + k..] == v[k..]
  {
    forall i | 0 <= i < l - k ensures s[n + k..n + l][i] == v[k..l][i] { assert s[n..][k + i] == s[n + (k + i)]; }
    forall i | 0 <= i < |v| - k ensures s[n + k..][i] == v[k..][i] { assert s[n..][k + i] == s[n + (k + i)]; }
  }

  lemma FetchFollows(s: Bytes, n: nat, v: Bytes, pc: nat)
    requires Follows(s, n, v)
    ensures GetOp(s, n + pc) == MovedFetch(GetOp(v, pc), n)
  {
    hide GetOp;
    GetOpMoves(s[..n], v, pc);
    assert s == s[..n] + v;
  }

  lemma MatchFollows(s: Bytes, n: nat, v: Bytes, b: Bytes, pc: nat)
    requires Follows(s, n, v) && pc <= |v|
    ensures MatchesAt(s, b, n + pc) <==> MatchesAt(v, b, pc)
  {
    hide Follows;
    assert |s| == n + |v| by { Lengths(s, n, v); }
    if |b| <= |v| - pc { Slices(s, n, v, pc, pc + |b|); }
  }

  lemma Lengths(s: Bytes, n: nat, v: Bytes)
    requires Follows(s, n, v)
    ensures |s| == n + |v|
  {}

  lemma {:induction false} DeleteFollows(s: Bytes, n: nat, v: Bytes, b: Bytes, pc: nat)
    requires Follows(s, n, v) && b != [] && pc <= |v|
    ensures n + pc <= |s| && DeleteFrom(s, b, n + pc) == DeleteFrom(v, b, pc)
    decreases |v| - pc
  {
    hide GetOp, MatchesAt, Follows;
    Lengths(s, n, v);
    FetchFollows(s, n, v, pc);
    MatchFollows(s, n, v, b, pc);
    Slices(s, n, v, pc, |v|);
    if MatchesAt(v, b, pc) {
      CopyFits(v, b, pc);
      DeleteFollows(s, n, v, b, pc + |b|);
    } else {
      var f := GetOp(v, pc);
      if f.Op? {
        Slices(s, n, v, pc, f.next);
        DeleteFollows(s, n, v, b, f.next);
      }
    }
  }

  lemma CopyFits(v: Bytes, b: Bytes, pc: nat)
    requires pc <= |v| && MatchesAt(v, b, pc)
    ensures pc + |b| <= |v|
  {}

  /** A copy in front goes, whatever it is made of. */
  lemma CopyIsDeleted(b: Bytes, s: Bytes)
    requires b != []
    ensures Delete(b + s, b) == Deletion(Delete(s, b).found + 1, Delete(s, b).rest)
  {
    assert (b + s)[..|b|] == b;
    DeleteFollows(b + s, |b|, s, b, 0);
  }

  /** An instruction in front that does not begin a copy stays. */
  lemma OtherIsKept(raw: Bytes, op: byte, data: Bytes, s: Bytes, b: Bytes)
    requires IsOne(raw, op, data) && b != [] && !MatchesAt(raw + s, b, 0)
    ensures Delete(raw + s, b) == Deletion(Delete(s, b).found, raw + Delete(s, b).rest)
  {
    hide GetOp;
    ReadFirst(raw, op, data, s);
    assert (raw + s)[0..|raw|] == raw;
    DeleteFollows(raw + s, |raw|, s, b, 0);
  }

  /** What cannot be read stays, if it is no copy itself. */
  lemma UnreadableIsKept(s: Bytes, b: Bytes)
    requires b != [] && GetOp(s, 0).NoOp? && !MatchesAt(s, b, 0)
    ensures Delete(s, b) == Deletion(0, s)
  {
    assert s[0..] == s;
  }

  // ----- The code without separators -----

  lemma FailsFollow(s: Bytes, n: nat, v: Bytes, pc: nat)
    requires Follows(s, n, v) && pc <= |v| && GetOp(v, pc).NoOp?
    ensures GetOp(s, n + pc).NoOp? && FailedAt(s, n + pc) == n + FailedAt(v, pc)
  {
    FetchFollows(s, n, v, pc);
    if pc < |v| { assert s[n..][pc] == s[n + pc]; }
  }

  lemma {:induction false} KeptFollows(s: Bytes, n: nat, v: Bytes, pc: nat)
    requires Follows(s, n, v) && pc <= |v|
    ensures n + pc <= |s| && KeptFrom(s, n + pc) == KeptFrom(v, pc)
    decreases |v| - pc
  {
    hide GetOp, FailedAt, Follows;
    Lengths(s, n, v);
    FetchFollows(s, n, v, pc);
    var f := GetOp(v, pc);
    if f.Op? {
      Slices(s, n, v, pc, f.next);
      KeptFollows(s, n, v, f.next);
    } else {
      FailsFollow(s, n, v, pc);
      Slices(s, n, v, pc, FailedAt(v, pc));
    }
  }

  /** A first instruction is kept in the code under a signature unless it is a separator (0xab). */
  lemma KeptFirst(raw: Bytes, op: byte, data: Bytes, s: Bytes)
    requires IsOne(raw, op, data)
    ensures KeptFrom(raw + s, 0) == (if op == 0xab then [] else raw) + KeptFrom(s, 0) && KeptFrom([], 0) == []
  {
    hide GetOp, FailedAt;
    ReadFirst(raw, op, data, s);
    assert (raw + s)[0..|raw|] == raw;
    KeptFollows(raw + s, |raw|, s, 0);
    AtEnd([]);
  }

  // ----- Numbers -----

  /** A byte in front of a number counts one, and the number 256 times as much; the sign is the top bit of the last
      byte. */
  lemma NumberFirst(x: byte, v: Bytes)
    requires v != []
    ensures var n := ScriptNum.Decode(v);
            ScriptNum.Decode([x] + v) == if v[|v| - 1] < 0x80 then 256 * n + x else 256 * n - x
    ensures ScriptNum.Decode([x]) == if x < 0x80 then x as int else 0x80 - x
  {
    var k, w := |v| - 1, [x] + v;
    assert w[..k + 1] + [w[k + 1] % 128] == [x] + (v[..k] + [v[k] % 128]);
    assert LeNat([x] + (v[..k] + [v[k] % 128])) == x + 256 * LeNat(v[..k] + [v[k] % 128]);
    assert [x][..0] + [x % 128] == [x % 128] && LeNat([x % 128]) == x % 128;
  }

  // ----- Templates -----

  /** The single-purpose templates Solver knows, each with the one form it has: script hash, key hash, key, witness
      programs and data. */
  lemma SolverIff(script: Bytes, x: Bytes)
    ensures Standard.Solver(script) == Standard.ScriptHash(x) <==> |x| == 20 && script == [0xa9, 20] + x + [0x87]
    ensures Standard.Solver(script) == Standard.PubKeyHash(x)
            <==> |x| == 20 && script == [0x76, 0xa9, 20] + x + [0x88, 0xac]
    ensures Standard.Solver(script) == Standard.PubKey(x)
            <==> Standard.ValidKey(x) && script == [|x|] + x + [0xac]
    ensures Standard.ValidKey(x) <==> (|x| == 33 && x[0] in {2, 3}) || (|x| == 65 && x[0] in {4, 6, 7})
    ensures Standard.Solver(script) == Standard.WitnessKeyHash(x) <==> |x| == 20 && script == [0, 20] + x
    ensures Standard.Solver(script) == Standard.WitnessScriptHash(x) <==> |x| == 32 && script == [0, 32] + x
    ensures Standard.Solver(script) == Standard.NullData
            <==> script != [] && script[0] == 0x6a && IsPushOnly(script[1..])
  {
    KeyLengths(x);
    hide IsPushOnlyFrom, Standard.MatchMultisig, Standard.ValidKey;
    Standard.MultisigOnly(script);
    ScriptHashForm(script, x);
    KeyHashForm(script, x);
    KeyForm(script, x);
    WitnessForm(script, x);
    if script != [] {
      assert script == script[..1] + script[1..];
      PushOnlyMoves(script[..1], script[1..], 0);
    }
    hide IsPayToScriptHash, WitnessProgram, Standard.MatchPubKey, Standard.MatchPubKeyHash;
    Exclusive(script);
  }

  lemma KeyLengths(x: Bytes)
    ensures Standard.ValidKey(x) <==> (|x| == 33 && x[0] in {2, 3}) || (|x| == 65 && x[0] in {4, 6, 7})
  {}

  /** An output to a key belongs to the hash of that key. */
  lemma KeyDestination(key: Bytes, keyId: Bytes -> Hash20)
    requires Standard.ValidKey(key)
    ensures Standard.Extract([|key|] + key + [0xac], keyId) == Some(Standard.KeyId(keyId(key)))
  {
    hide Standard.Solver;
    SolverIff([|key|] + key + [0xac], key);
  }

  lemma ScriptHashForm(script: Bytes, x: Bytes)
    ensures IsPayToScriptHash(script) && script[2..22] == x <==> |x| == 20 && script == [0xa9, 20] + x + [0x87]
  {
    if IsPayToScriptHash(script) && script[2..22] == x { assert script == [0xa9, 20] + x + [0x87]; }
  }

  lemma KeyHashForm(script: Bytes, x: Bytes)
    ensures Standard.MatchPubKeyHash(script) == Some(Standard.PubKeyHash(x))
            <==> |x| == 20 && script == [0x76, 0xa9, 20] + x + [0x88, 0xac]
  {
    if |x| == 20 && script == [0x76, 0xa9, 20] + x + [0x88, 0xac] { assert script[3..23] == x; }
    if Standard.MatchPubKeyHash(script) == Some(Standard.PubKeyHash(x)) {
      assert script == [0x76, 0xa9, 20] + x + [0x88, 0xac];
    }
  }

  lemma KeyForm(script: Bytes, x: Bytes)
    ensures Standard.MatchPubKey(script) == Some(Standard.PubKey(x))
            <==> Standard.ValidKey(x) && script == [|x|] + x + [0xac]
  {
    if Standard.ValidKey(x) && script == [|x|] + x + [0xac] { assert script[1..|script| - 1] == x; }
    if Standard.MatchPubKey(script) == Some(Standard.PubKey(x)) { assert script == [|x|] + x + [0xac]; }
  }

  lemma WitnessForm(script: Bytes, x: Bytes)
    ensures |x| == 20 || |x| == 32 ==> (WitnessProgram(script) == Some((0, x)) <==> script == [0, |x|] + x)
  {
    if (|x| == 20 || |x| == 32) && script == [0, |x|] + x { assert script[2..] == x; }
    if WitnessProgram(script) == Some((0, x)) { assert script == [0, |x|] + x; }
  }

  /** No script fits two of them: their first bytes differ. */
  lemma Exclusive(script: Bytes)
    ensures IsPayToScriptHash(script) ==> |script| == 23 && script[0] == 0xa9
    ensures WitnessProgram(script).Some? ==> script != [] && (script[0] == 0 || 0x51 <= script[0] <= 0x60)
    ensures Standard.MatchPubKey(script).Some?
            ==> Standard.MatchPubKey(script).value.PubKey? && script != [] && (script[0] == 33 || script[0] == 65)
    ensures Standard.MatchPubKeyHash(script).Some?
            ==> Standard.MatchPubKeyHash(script).value.PubKeyHash? && script != [] && script[0] == 0x76
  {}

  /** One push after another, of these data. */
  ghost predicate Pushed(raws: seq<Bytes>, keys: seq<Bytes>) {
    |raws| == |keys| && forall i :: 0 <= i < |raws| ==> |raws[i]| > 0 && IsOne(raws[i], raws[i][0], keys[i])
  }

  function Joined(raws: seq<Bytes>): Bytes { if raws == [] then [] else raws[0] + Joined(raws[1..]) }

  lemma {:induction false} KeysMove(u: Bytes, v: Bytes, pc: nat)
    ensures var r := Standard.KeysFrom(v, pc);
            Standard.KeysFrom(u + v, |u| + pc) == r.(next := |u| + r.next)
    decreases |v| - pc
  {
    hide GetOp, Standard.ValidKey;
    GetOpMoves(u, v, pc);
    var f := GetOp(v, pc);
    if f.Op? && Standard.ValidKey(f.data) { KeysMove(u, v, f.next); }
  }

  /** Reading keys gives back the keys that were pushed and stops at an opcode that is none. */
  lemma {:induction false} KeysOfPushes(raws: seq<Bytes>, keys: seq<Bytes>, op: byte, last: byte)
    requires Pushed(raws, keys) && op > 78 && forall i :: 0 <= i < |keys| ==> Standard.ValidKey(keys[i])
    ensures Standard.KeysFrom(Joined(raws) + [op, last], 0) == Standard.KeyScan(keys, op, |Joined(raws)| + 1)
    decreases |raws|
  {
    hide GetOp;
    if raws == [] {
      assert Joined(raws) + [op, last] == [op] + [last];
      OpcodeLayout(op, []);
      ReadFirst([op], op, [], [last]);
      assert !Standard.ValidKey([]);
    } else {
      hide Standard.ValidKey;
      var rest := Joined(raws[1..]) + [op, last];
      assert Joined(raws) + [op, last] == raws[0] + rest;
      ReadFirst(raws[0], raws[0][0], keys[0], rest);
      KeysOfPushes(raws[1..], keys[1..], op, last);
      KeysMove(raws[0], rest, 0);
      assert [keys[0]] + keys[1..] == keys;
    }
  }

  /** The keys read are what these pushes hold, and reading stopped behind them. */
  ghost predicate HoldsKeys(s: Bytes, raws: seq<Bytes>) {
    var r, n := Standard.KeysFrom(s, 0), |Joined(raws)|;
    Pushed(raws, r.keys) && (forall i :: 0 <= i < |r.keys| ==> Standard.ValidKey(r.keys[i]))
    && n <= |s| && s[..n] == Joined(raws) &&
    var f := GetOp(s, n);
    r.opcode == (if f.Op? then f.opcode else 0xff) && r.next == if f.Op? then f.next else n
  }

  lemma OneMoreKey(raw: Bytes, key: Bytes, rest: Bytes, tail: seq<Bytes>)
    requires |raw| > 0 && IsOne(raw, raw[0], key) && Standard.ValidKey(key) && HoldsKeys(rest, tail)
    ensures HoldsKeys(raw + rest, [raw] + tail)
  {
    hide GetOp, Standard.ValidKey;
    ReadFirst(raw, raw[0], key, rest);
    KeysMove(raw, rest, 0);
    GetOpMoves(raw, rest, |Joined(tail)|);
    assert ([raw] + tail)[1..] == tail;
    Prefixes(raw, rest, |Joined(tail)|);
    hide Joined, Standard.KeysFrom;
  }

  lemma Prefixes(u: Bytes, v: Bytes, k: nat)
    requires k <= |v|
    ensures (u + v)[..|u| + k] == u + v[..k]
  {}

  /** And what was read as keys had been pushed. */
  lemma {:induction false} PushesOfKeys(s: Bytes) returns (raws: seq<Bytes>)
    ensures HoldsKeys(s, raws)
    decreases |s|
  {
    hide GetOp, Standard.ValidKey;
    raws := [];
    var f := GetOp(s, 0);
    if f.Op? && Standard.ValidKey(f.data) {
      var raw, rest := s[..f.next], s[f.next..];
      assert s == raw + rest;
      var tail := PushesOfKeys(rest);
      InstructionAlone(s, f.next);
      raws := [raw] + tail;
      hide HoldsKeys;
      OneMoreKey(raw, f.data, rest, tail);
    }
  }

  lemma InstructionAlone(s: Bytes, n: nat)
    requires GetOp(s, 0).Op? && GetOp(s, 0).next == n
    ensures 0 < n <= |s| && IsOne(s[..n], s[0], GetOp(s, 0).data) && s[..n][0] == s[0]
  {
    var t := s[..n];
    assert forall a, b :: 0 <= a <= b <= n ==> t[a..b] == s[a..b];
  }

  /** A script is an m-of-n multisig template exactly when it is m, one push for each valid key, n and CHECKMULTISIG,
      for 1 <= m <= n <= 16. */
  lemma MultisigIff(script: Bytes, m: nat, keys: seq<Bytes>)
    ensures Standard.MatchMultisig(script) == Some(Standard.Multisig(m, keys))
            <==> 1 <= m <= |keys| <= 16 && (forall i :: 0 <= i < |keys| ==> Standard.ValidKey(keys[i]))
                 && exists raws :: Pushed(raws, keys)
                      && script == [0x50 + m as byte] + (Joined(raws) + [0x50 + |keys| as byte, 0xae])
  {
    hide GetOp, Standard.ValidKey, Pushed;
    if 1 <= m <= |keys| <= 16 && (forall i :: 0 <= i < |keys| ==> Standard.ValidKey(keys[i])) {
      forall raws | Pushed(raws, keys)
                    && script == [0x50 + m as byte] + (Joined(raws) + [0x50 + |keys| as byte, 0xae])
        ensures Standard.MatchMultisig(script) == Some(Standard.Multisig(m, keys))
      { TemplateMatches(m, keys, raws); }
    }
    if Standard.MatchMultisig(script) == Some(Standard.Multisig(m, keys)) {
      var raws := MatchedTemplate(script, m, keys);
    }
  }

  lemma TemplateMatches(m: nat, keys: seq<Bytes>, raws: seq<Bytes>)
    requires 1 <= m <= |keys| <= 16 && Pushed(raws, keys) && forall i :: 0 <= i < |keys| ==> Standard.ValidKey(keys[i])
    ensures var script := [0x50 + m as byte] + (Joined(raws) + [0x50 + |keys| as byte, 0xae]);
            Standard.MatchMultisig(script) == Some(Standard.Multisig(m, keys))
  {
    hide GetOp, Standard.ValidKey, Pushed, Joined, Standard.KeysFrom;
    var first, n: byte := 0x50 + m, 0x50 + |keys|;
    var rest := Joined(raws) + [n, 0xae];
    OpcodeLayout(first, []);
    ReadFirst([first], first, [], rest);
    KeysOfPushes(raws, keys, n, 0xae);
    KeysMove([first], rest, 0);
    assert ([first] + rest)[|rest|] == 0xae;
  }

  lemma MatchedTemplate(script: Bytes, m: nat, keys: seq<Bytes>) returns (raws: seq<Bytes>)
    requires Standard.MatchMultisig(script) == Some(Standard.Multisig(m, keys))
    ensures 1 <= m <= |keys| <= 16 && (forall i :: 0 <= i < |keys| ==> Standard.ValidKey(keys[i]))
    ensures Pushed(raws, keys) && script == [0x50 + m as byte] + (Joined(raws) + [0x50 + |keys| as byte, 0xae])
  {
    hide GetOp, Standard.ValidKey, Pushed, Joined, Standard.KeysFrom;
    var first, rest := script[..1], script[1..];
    assert script == first + rest;
    OneByteOpcode(script, 0);
    raws := PushesOfKeys(rest);
    KeysMove(first, rest, 0);
    var k := |Joined(raws)|;
    OneByteOpcode(rest, k);
    assert rest == rest[..k] + rest[k..];
  }

  lemma OneByteOpcode(s: Bytes, pc: nat)
    ensures var f := GetOp(s, pc); f.Op? && f.opcode > 78 ==> f.next == pc + 1 && pc < |s| && s[pc] == f.opcode
  {}
}
