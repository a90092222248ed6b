/** CScript: opcodes, the instruction reader, push encoders and the byte-level script tests. */
module Script {
  import opened Bytes
  import ScriptNum

  const OP_0: byte := 0x00
  const OP_PUSHDATA1: byte := 0x4c
  const OP_PUSHDATA2: byte := 0x4d
  const OP_PUSHDATA4: byte := 0x4e
  const OP_1NEGATE: byte := 0x4f
  const OP_1: byte := 0x51
  const OP_16: byte := 0x60
  const OP_NOP: byte := 0x61
  const OP_IF: byte := 0x63
  const OP_NOTIF: byte := 0x64
  const OP_VERIF: byte := 0x65
  const OP_VERNOTIF: byte := 0x66
  const OP_ELSE: byte := 0x67
  const OP_ENDIF: byte := 0x68
  const OP_VERIFY: byte := 0x69
  const OP_RETURN: byte := 0x6a
  const OP_TOALTSTACK: byte := 0x6b
  const OP_FROMALTSTACK: byte := 0x6c
  const OP_2DROP: byte := 0x6d
  const OP_2DUP: byte := 0x6e
  const OP_3DUP: byte := 0x6f
  const OP_2OVER: byte := 0x70
  const OP_2ROT: byte := 0x71
  const OP_2SWAP: byte := 0x72
  const OP_IFDUP: byte := 0x73
  const OP_DEPTH: byte := 0x74
  const OP_DROP: byte := 0x75
  const OP_DUP: byte := 0x76
  const OP_NIP: byte := 0x77
  const OP_OVER: byte := 0x78
  const OP_PICK: byte := 0x79
  const OP_ROLL: byte := 0x7a
  const OP_ROT: byte := 0x7b
  const OP_SWAP: byte := 0x7c
  const OP_TUCK: byte := 0x7d
  const OP_CAT: byte := 0x7e
  const OP_SUBSTR: byte := 0x7f
  const OP_LEFT: byte := 0x80
  const OP_RIGHT: byte := 0x81
  const OP_SIZE: byte := 0x82
  const OP_INVERT: byte := 0x83
  const OP_AND: byte := 0x84
  const OP_OR: byte := 0x85
  const OP_XOR: byte := 0x86
  const OP_EQUAL: byte := 0x87
  const OP_EQUALVERIFY: byte := 0x88
  const OP_1ADD: byte := 0x8b
  const OP_1SUB: byte := 0x8c
  const OP_2MUL: byte := 0x8d
  const OP_2DIV: byte := 0x8e
  const OP_NEGATE: byte := 0x8f
  const OP_ABS: byte := 0x90
  const OP_NOT: byte := 0x91
  const OP_0NOTEQUAL: byte := 0x92
  const OP_ADD: byte := 0x93
  const OP_SUB: byte := 0x94
  const OP_MUL: byte := 0x95
  const OP_DIV: byte := 0x96
  const OP_MOD: byte := 0x97
  const OP_LSHIFT: byte := 0x98
  const OP_RSHIFT: byte := 0x99
  const OP_BOOLAND: byte := 0x9a
  const OP_BOOLOR: byte := 0x9b
  const OP_NUMEQUAL: byte := 0x9c
  const OP_NUMEQUALVERIFY: byte := 0x9d
  const OP_NUMNOTEQUAL: byte := 0x9e
  const OP_LESSTHAN: byte := 0x9f
  const OP_GREATERTHAN: byte := 0xa0
  const OP_LESSTHANOREQUAL: byte := 0xa1
  const OP_GREATERTHANOREQUAL: byte := 0xa2
  const OP_MIN: byte := 0xa3
  const OP_MAX: byte := 0xa4
  const OP_WITHIN: byte := 0xa5
  const OP_RIPEMD160: byte := 0xa6
  const OP_SHA1: byte := 0xa7
  const OP_SHA256: byte := 0xa8
  const OP_HASH160: byte := 0xa9
  const OP_HASH256: byte := 0xaa
  const OP_CODESEPARATOR: byte := 0xab
  const OP_CHECKSIG: byte := 0xac
  const OP_CHECKSIGVERIFY: byte := 0xad
  const OP_CHECKMULTISIG: byte := 0xae
  const OP_CHECKMULTISIGVERIFY: byte := 0xaf
  const OP_NOP1: byte := 0xb0
  const OP_CHECKLOCKTIMEVERIFY: byte := 0xb1
  const OP_CHECKSEQUENCEVERIFY: byte := 0xb2
  const OP_NOP4: byte := 0xb3
  const OP_NOP10: byte := 0xb9
  const OP_INVALIDOPCODE: byte := 0xff

  const MAX_PUBKEYS_PER_MULTISIG := 20

  /** What GetScriptOp reads at a position: an instruction and the position after it, or nothing. */
  datatype Fetch = NoOp | Op(opcode: byte, data: Bytes, next: nat)

  function GetOp(script: Bytes, pc: nat): (r: Fetch)
    ensures r.Op? ==> pc < r.next <= |script| && r.opcode == script[pc]
    ensures r.Op? ==> |r.data| < r.next - pc
  {
    if pc >= |script| then NoOp else
      var opcode := script[pc];
      var p := pc + 1;
      if opcode > OP_PUSHDATA4 then Op(opcode, [], p) else
        var width := if opcode < OP_PUSHDATA1 then 0
                     else if opcode == OP_PUSHDATA1 then 1
                     else if opcode == OP_PUSHDATA2 then 2
                     else 4;
        if |script| - p < width then NoOp else
          var q := p + width;
          var size := if width == 0 then opcode as nat else LeNat(script[p..q]);
          if |script| - q < size then NoOp else Op(opcode, script[q..q + size], q + size)
  }

  /** operator<< on a byte vector: the opcode and length bytes that go before the data. */
  function PushHeader(size: nat): Bytes {
    if size < OP_PUSHDATA1 then [size]
    else if size <= 0xff then [OP_PUSHDATA1, size]
    else if size <= 0xffff then [OP_PUSHDATA2] + Le(size, 2)
    else [OP_PUSHDATA4] + Le(size, 4)
  }

  function PushData(b: Bytes): Bytes {
    PushHeader(|b|) + b
  }

  /** push_int64. */
  function PushInt(n: int): Bytes {
    if n == -1 || 1 <= n <= 16 then [n + 0x50]
    else if n == 0 then [OP_0]
    else PushData(ScriptNum.Encode(n))
  }

  lemma ReadHeader(script: Bytes, pc: nat, size: nat)
    requires size < 0x1_0000_0000
    requires pc + |PushHeader(size)| + size <= |script|
    requires script[pc..pc + |PushHeader(size)|] == PushHeader(size)
    ensures var q := pc + |PushHeader(size)|;
            GetOp(script, pc) == Op(PushHeader(size)[0], script[q..q + size], q + size)
  {
    var h := PushHeader(size);
    var q := pc + |h|;
    assert script[pc] == script[pc..q][0] == h[0];
    assert script[pc + 1..q] == script[pc..q][1..] == h[1..];
    if size >= OP_PUSHDATA1 {
      var width := |h| - 1;
      assert Pow256(1) == 256 && Pow256(2) == 0x1_0000 && Pow256(4) == 0x1_0000_0000;
      if width == 1 { assert LeNat([size]) == size; } else { LeNatLe(size, width); }
      assert LeNat(script[pc + 1..q]) == size;
    }
  }

  /** GetScriptOp on any pushed vector returns it and consumes exactly its encoding, whatever
      stands before and after it. */
  lemma GetOpOfPush(before: Bytes, b: Bytes, after: Bytes)
    requires |b| < 0x1_0000_0000
    ensures GetOp(before + PushData(b) + after, |before|)
            == Op(PushHeader(|b|)[0], b, |before| + |PushData(b)|)
  {
    var script := before + PushData(b) + after;
    var q := |before| + |PushHeader(|b|)|;
    assert script[|before|..q] == PushHeader(|b|);
    ReadHeader(script, |before|, |b|);
    assert script[q..q + |b|] == b;
  }

  /** CheckMinimalPush, for push opcodes up to OP_PUSHDATA4. */
  predicate CheckMinimalPush(data: Bytes, opcode: byte) {
    if |data| == 0 then opcode == OP_0
    else if |data| == 1 && 1 <= data[0] <= 16 then false
    else if |data| == 1 && data[0] == 0x81 then false
    else if |data| <= 75 then opcode as int == |data|
    else if |data| <= 255 then opcode == OP_PUSHDATA1
    else if |data| <= 65535 then opcode == OP_PUSHDATA2
    else true
  }

  // ----- FindAndDelete -----

  predicate MatchesAt(script: Bytes, b: Bytes, pc: nat)
    requires pc <= |script|
  {
    |b| <= |script| - pc && script[pc..pc + |b|] == b
  }

  datatype Deletion = Deletion(found: nat, rest: Bytes)

  /** Delete every copy of b that starts at an instruction boundary at or after pc; a deleted copy
      moves the boundary past itself, and an unreadable tail is kept. */
  function DeleteFrom(script: Bytes, b: Bytes, pc: nat): Deletion
    requires b != [] && pc <= |script|
    decreases |script| - pc
  {
    if MatchesAt(script, b, pc) then
      var d := DeleteFrom(script, b, pc + |b|);
      Deletion(d.found + 1, d.rest)
    else
      match GetOp(script, pc)
      case NoOp => Deletion(0, script[pc..])
      case Op(_, _, next) =>
        var d := DeleteFrom(script, b, next);
        Deletion(d.found, script[pc..next] + d.rest)
  }

  function Delete(script: Bytes, b: Bytes): Deletion {
    if b == [] then Deletion(0, script) else DeleteFrom(script, b, 0)
  }

  lemma OneMoreCopy(n: nat, size: nat)
    ensures (n + 1) * size == n * size + size
  {}

  /** Exact length accounting: only whole copies of b go. */
  lemma {:induction false} DeleteFromLength(script: Bytes, b: Bytes, pc: nat)
    requires b != [] && pc <= |script|
    ensures var d := DeleteFrom(script, b, pc); |d.rest| == |script| - pc - d.found * |b|
    decreases |script| - pc
  {
    if MatchesAt(script, b, pc) {
      DeleteFromLength(script, b, pc + |b|);
      OneMoreCopy(DeleteFrom(script, b, pc + |b|).found, |b|);
    } else if GetOp(script, pc).Op? {
      DeleteFromLength(script, b, GetOp(script, pc).next);
    }
  }

  lemma {:induction false} NothingFound(script: Bytes, b: Bytes, pc: nat)
    requires b != [] && pc <= |script|
    requires DeleteFrom(script, b, pc).found == 0
    ensures DeleteFrom(script, b, pc).rest == script[pc..]
    decreases |script| - pc
  {
    var f := GetOp(script, pc);
    if f.Op? {
      NothingFound(script, b, f.next);
      assert script[pc..f.next] + script[f.next..] == script[pc..];
    }
  }

  /** A script that no longer contains b at a boundary is left alone, to the byte. */
  lemma DeleteKeepsScript(script: Bytes, b: Bytes)
    requires Delete(script, b).found == 0
    ensures Delete(script, b).rest == script
  {
    if b != [] {
      NothingFound(script, b, 0);
      assert script[0..] == script;
    }
  }

  /** FindAndDelete, with its inner skipping loop and its two cursors. */
  method FindAndDelete(script: Bytes, b: Bytes) returns (found: nat, script': Bytes)
    ensures Deletion(found, script') == Delete(script, b)
    ensures |script'| == |script| - found * |b|
  {
    found := 0;
    if b == [] { return 0, script; }
    var result: Bytes := [];
    var pc, pc2 := 0, 0;
    ghost var all := DeleteFrom(script, b, 0);
    var more := true;
    while more
      invariant 0 <= pc2 <= pc <= |script|
      invariant more ==> all.found == found + DeleteFrom(script, b, pc).found
      invariant more ==> all.rest == result + script[pc2..pc] + DeleteFrom(script, b, pc).rest
      invariant !more ==> all == Deletion(found, result + script[pc2..])
      decreases more, |script| - pc
    {
      result := result + script[pc2..pc];
      while |script| - pc >= |b| && script[pc..pc + |b|] == b
        invariant pc2 <= pc <= |script|
        invariant all.found == found + DeleteFrom(script, b, pc).found
        invariant all.rest == result + DeleteFrom(script, b, pc).rest
        decreases |script| - pc
      {
        pc := pc + |b|;
        found := found + 1;
      }
      pc2 := pc;
      match GetOp(script, pc)
      case NoOp => more := false;
      case Op(_, _, next) =>
        assert result + (script[pc..next] + DeleteFrom(script, b, next).rest)
            == result + script[pc..next] + DeleteFrom(script, b, next).rest;
        pc := next;
    }
    script' := script;
    DeleteFromLength(script, b, 0);
    if found > 0 {
      script' := result + script[pc2..];
    } else {
      DeleteKeepsScript(script, b);
    }
  }

  // ----- Signature-operation counting -----

  /** Signature operations from pc on, given the opcode before it. */
  function SigOpsFrom(script: Bytes, pc: nat, last: byte, accurate: bool): nat
    decreases |script| - pc
  {
    match GetOp(script, pc)
    case NoOp => 0
    case Op(opcode, _, next) =>
      SigOpWeight(opcode, last, accurate) + SigOpsFrom(script, next, opcode, accurate)
  }

  function SigOpWeight(opcode: byte, last: byte, accurate: bool): nat {
    if opcode == OP_CHECKSIG || opcode == OP_CHECKSIGVERIFY then 1
    else if opcode == OP_CHECKMULTISIG || opcode == OP_CHECKMULTISIGVERIFY then
      if accurate && OP_1 <= last <= OP_16 then last - 0x50 else MAX_PUBKEYS_PER_MULTISIG
    else 0
  }

  function SigOpCount(script: Bytes, accurate: bool): nat {
    SigOpsFrom(script, 0, OP_INVALIDOPCODE, accurate)
  }

  method GetSigOpCount(script: Bytes, accurate: bool) returns (n: nat)
    ensures n == SigOpCount(script, accurate)
  {
    n := 0;
    var pc, last := 0, OP_INVALIDOPCODE;
    while pc < |script|
      invariant 0 <= pc <= |script|
      invariant n + SigOpsFrom(script, pc, last, accurate) == SigOpCount(script, accurate)
      decreases |script| - pc
    {
      match GetOp(script, pc)
      case NoOp => break;
      case Op(opcode, _, next) =>
        n := n + SigOpWeight(opcode, last, accurate);
        last, pc := opcode, next;
    }
  }

  // ----- Script templates VerifyScript looks for -----

  predicate IsPushOnlyFrom(script: Bytes, pc: nat)
    decreases |script| - pc
  {
    if pc >= |script| then true else
      match GetOp(script, pc)
      case NoOp => false
      case Op(opcode, _, next) => opcode <= OP_16 && IsPushOnlyFrom(script, next)
  }

  predicate IsPushOnly(script: Bytes) {
    IsPushOnlyFrom(script, 0)
  }

  predicate IsPayToScriptHash(script: Bytes) {
    |script| == 23 && script[0] == OP_HASH160 && script[1] == 0x14 && script[22] == OP_EQUAL
  }

  /** IsWitnessProgram: the version and the program, if the script is one. */
  function WitnessProgram(script: Bytes): Option<(nat, Bytes)> {
    if |script| < 4 || |script| > 42 then None
    else if script[0] != OP_0 && (script[0] < OP_1 || script[0] > OP_16) then None
    else if script[1] as int + 2 == |script| then
      Some((if script[0] == OP_0 then 0 else script[0] - 0x50, script[2..]))
    else None
  }
}
