/** The script builder's pushes are the minimal ones the interpreter demands. */
module Pushes {
  import opened Bytes
  import opened Script
  import opened Interpreter
  import ScriptNum

  /** A pushed vector uses the minimal opcode, except for the one-byte values that have their own. */
  lemma PushIsMinimal(b: Bytes)
    requires |b| < 0x1_0000_0000
    ensures CheckMinimalPush(b, PushHeader(|b|)[0]) <==> !(|b| == 1 && (1 <= b[0] <= 16 || b[0] == 0x81))
  {}

  /** A one-byte number in 1..16 or -1 has its own opcode, so what is pushed as data is something else. */
  lemma DataPushOfNumber(n: int)
    requires n != 0 && n != -1 && !(1 <= n <= 16)
    ensures var b := ScriptNum.Encode(n); !(|b| == 1 && (1 <= b[0] <= 16 || b[0] == 0x81))
  {
    ScriptNum.DecodeOfEncode(n);
    var b := ScriptNum.Encode(n);
    if |b| == 1 {
      assert b[..0] + [b[0] % 128] == [b[0] % 128];
      assert LeNat([b[0] % 128]) == b[0] % 128;
    }
  }

  lemma OnePush(env: Env, op: byte, data: Bytes, stack: Stack, x: Bytes)
    requires GetOp(env.script, 0) == Op(op, data, |env.script|) && |env.script| <= MAX_SCRIPT_SIZE
    requires op <= OP_16 && |data| <= MAX_SCRIPT_ELEMENT_SIZE && |stack| < MAX_STACK_SIZE
    requires if op <= OP_PUSHDATA4 then x == data && CheckMinimalPush(data, op)
             else (op == OP_1NEGATE || OP_1 <= op) && x == ScriptNum.Encode(op as int - 0x50)
    ensures Eval(env, stack) == Next(Start(stack + [x]))
  {
    assert AllTrue([]);
    assert Step(env, op, data, |env.script|, true, Start(stack)) == Next(Start(stack + [x]));
    hide Step, GetOp;
    assert RunFrom(env, |env.script|, [], Start(stack + [x])) == Next(Start(stack + [x]));
    assert RunFrom(env, 0, [], Start(stack)) == RunFrom(env, |env.script|, [], Start(stack + [x]));
  }

  /** push_int64 of any 64-bit number but the minimum leaves its canonical encoding on the stack, under
      every flag set. */
  lemma PushedNumberEvaluates(n: int, flags: Flags, checker: Checker, sv: SigVersion, stack: Stack)
    requires -0x8000_0000_0000_0000 < n < 0x8000_0000_0000_0000 && |stack| < MAX_STACK_SIZE
    ensures Eval(Env(PushInt(n), flags, checker, sv), stack) == Next(Start(stack + [ScriptNum.Encode(n)]))
  {
    hide Eval, GetOp, ScriptNum.Encode, CheckMinimalPush, PushHeader;
    var env := Env(PushInt(n), flags, checker, sv);
    if n == -1 || 0 <= n <= 16 {
      SmallPush(n, env, stack);
    } else {
      var b := ScriptNum.Encode(n);
      DataPush(n);
      OnePush(env, PushHeader(|b|)[0], b, stack, b);
    }
  }

  lemma SmallPush(n: int, env: Env, stack: Stack)
    requires (n == -1 || 0 <= n <= 16) && env.script == PushInt(n) && |stack| < MAX_STACK_SIZE
    ensures Eval(env, stack) == Next(Start(stack + [ScriptNum.Encode(n)]))
  {
    hide Eval;
    if n == 0 {
      OnePush(env, OP_0, [], stack, []);
    } else {
      OnePush(env, n + 0x50, [], stack, ScriptNum.Encode(n));
    }
  }

  /** A larger number is one data push that reads back as its minimal encoding. */
  lemma DataPush(n: int)
    requires -0x8000_0000_0000_0000 < n < 0x8000_0000_0000_0000 && n != -1 && !(0 <= n <= 16)
    ensures var b := ScriptNum.Encode(n);
            |b| <= 9 && PushHeader(|b|)[0] <= OP_PUSHDATA4 && |PushInt(n)| <= 20
            && GetOp(PushInt(n), 0) == Op(PushHeader(|b|)[0], b, |PushInt(n)|)
               && CheckMinimalPush(b, PushHeader(|b|)[0])
  {
    var b := ScriptNum.Encode(n);
    assert Pow256(8) == 0x1_0000_0000_0000_0000;
    ScriptNum.EncodeLength(n);
    DataPushOfNumber(n);
    PushIsMinimal(b);
    GetOpOfPush([], b, []);
    assert [] + PushData(b) + [] == PushData(b);
    hide GetOp, ScriptNum.Encode, CheckMinimalPush;
  }
}
