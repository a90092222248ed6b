/** Laws of opcodes and of whole runs: what VERIFY means, and what no successful script contains. */
module OpcodeLaws {
  import opened Bytes
  import opened Script
  import opened Interpreter
  import opened Verify
  import Expressions
  import ScriptNum

  // ----- The VERIFY variants -----

  predicate HasVariant(op: byte) { op == 0x87 || op == 0x9c || op == 0xac || op == 0xae }

  function Variant(op: byte): byte
    requires HasVariant(op)
  {
    if op == 0x87 then 0x88 else if op == 0x9c then 0x9d
    else if op == 0xac then 0xad else 0xaf
  }

  function VariantError(op: byte): ScriptError {
    if op == 0x87 then EQUALVERIFY_FAILED else if op == 0x9c then NUMEQUALVERIFY_FAILED
    else if op == 0xac then CHECKSIGVERIFY_FAILED else CHECKMULTISIGVERIFY_FAILED
  }

  /** An outcome followed by 0x69, with its own error for a false top. */
  function AndVerify(env: Env, r: Outcome, next: nat, e: ScriptError): Outcome
    requires next <= |env.script| && (r.Next? ==> r.st.codeStart <= |env.script|)
  {
    if r.Fail? then r else
      var v := Exec(env, 0x69, next, r.st);
      if v.Next? then v else Fail(e, r.st.sigChecks)
  }

  lemma VerifyTruth(env: Env, st: State, b: bool, next: nat, e: ScriptError)
    requires next <= |env.script| && st.codeStart <= |env.script|
    ensures AndVerify(env, Next(Push(st, Truth(b))), next, e) == if b then Next(st) else Fail(e, st.sigChecks)
  {
    Expressions.EncodedBit(b);
    hide CastToBool;
    assert Below(Push(st, Truth(b)).stack, 1) == st.stack;
  }

  lemma FailureStays(env: Env, next: nat, r: Outcome, e: ScriptError)
    requires next <= |env.script| && r.Fail?
    ensures AndVerify(env, r, next, e) == r
  {}

  /** What a test pushes without VERIFY is what decides with it. */
  lemma VerdictVariant(env: Env, value: bool, e: ScriptError, st: State, next: nat)
    requires next <= |env.script| && st.codeStart <= |env.script|
    ensures Verdict(true, value, e, st) == AndVerify(env, Verdict(false, value, e, st), next, e)
  {
    hide AndVerify;
    VerifyTruth(env, st, value, next, e);
  }

  lemma EqualVariant(env: Env, next: nat, st: State)
    requires next <= |env.script| && st.codeStart <= |env.script|
    ensures EqualOp(OP_EQUALVERIFY, st) == AndVerify(env, EqualOp(OP_EQUAL, st), next, EQUALVERIFY_FAILED)
  {
    hide AndVerify, Verdict;
    if |st.stack| < 2 { FailureStays(env, next, EqualOp(OP_EQUAL, st), EQUALVERIFY_FAILED); }
    else {
      VerdictVariant(env, Top(st.stack, 2) == Top(st.stack, 1), EQUALVERIFY_FAILED, st.(stack := Below(st.stack, 2)),
          next);
    }
  }

  lemma NumEqualVariant(env: Env, minimal: bool, next: nat, st: State)
    requires next <= |env.script| && st.codeStart <= |env.script|
    ensures BinaryOp(minimal, OP_NUMEQUALVERIFY, st) == AndVerify(env, BinaryOp(minimal, OP_NUMEQUAL, st), next,
            NUMEQUALVERIFY_FAILED)
  {
    hide AndVerify, ScriptNum.Encode, ScriptNum.Parse, CastToBool;
    var r := BinaryOp(minimal, OP_NUMEQUAL, st);
    if r.Fail? { FailureStays(env, next, r, NUMEQUALVERIFY_FAILED); } else {
      var a := ScriptNum.Parse(Top(st.stack, 2), minimal, ScriptNum.DEFAULT_MAX_NUM_SIZE);
      var b := ScriptNum.Parse(Top(st.stack, 1), minimal, ScriptNum.DEFAULT_MAX_NUM_SIZE);
      Expressions.EncodedBit(a.value == b.value);
      VerifyTruth(env, st.(stack := Below(st.stack, 2)), a.value == b.value, next, NUMEQUALVERIFY_FAILED);
    }
  }

  lemma SigVariant(env: Env, next: nat, st: State)
    requires next <= |env.script| && st.codeStart <= |env.script|
    ensures SigOp(env, OP_CHECKSIGVERIFY, st) == AndVerify(env, SigOp(env, OP_CHECKSIG, st), next,
            CHECKSIGVERIFY_FAILED)
  {
    hide AndVerify, StripSignatures, EncodingError;
    var r := SigOp(env, OP_CHECKSIG, st);
    if r.Fail? { FailureStays(env, next, r, CHECKSIGVERIFY_FAILED); } else {
      var sig, key := Top(st.stack, 2), Top(st.stack, 1);
      var code := StripSignatures(env, env.script[st.codeStart..], [sig]).value;
      VerdictVariant(env, env.checker.checkSig(sig, key, code, env.sigversion), CHECKSIGVERIFY_FAILED,
                     st.(stack := Below(st.stack, 2), sigChecks := st.sigChecks + 1), next);
    }
  }

  lemma CheckMultisigVariant(env: Env, st: State, nKeys: nat, nSigs: nat, next: nat)
    requires next <= |env.script| && st.codeStart <= |env.script| && nSigs <= nKeys && nKeys + nSigs + 3 <= |st.stack|
    ensures CheckMultisig(env, OP_CHECKMULTISIGVERIFY, st, nKeys, nSigs)
         == AndVerify(env, CheckMultisig(env, OP_CHECKMULTISIG, st, nKeys, nSigs), next, CHECKMULTISIGVERIFY_FAILED)
  {
    hide AndVerify, StripSignatures, MatchSignatures, Slice;
    var r := CheckMultisig(env, OP_CHECKMULTISIG, st, nKeys, nSigs);
    if r.Fail? { FailureStays(env, next, r, CHECKMULTISIGVERIFY_FAILED); } else {
      var sigs := Slice(st.stack, nKeys + 3, nSigs);
      var code := StripSignatures(env, env.script[st.codeStart..], sigs).value;
      var m := MatchSignatures(env, code, sigs, Slice(st.stack, 2, nKeys), st.sigChecks);
      VerdictVariant(env, m.success, CHECKMULTISIGVERIFY_FAILED,
                     st.(stack := Below(st.stack, nKeys + nSigs + 3), sigChecks := m.checks), next);
    }
  }

  lemma MultisigVariant(env: Env, next: nat, st: State)
    requires next <= |env.script| && st.codeStart <= |env.script|
    ensures MultisigOp(env, OP_CHECKMULTISIGVERIFY, st)
         == AndVerify(env, MultisigOp(env, OP_CHECKMULTISIG, st), next, CHECKMULTISIGVERIFY_FAILED)
  {
    hide AndVerify, CheckMultisig, ScriptNum.Parse;
    var minimal := MINIMALDATA in env.flags;
    var r := MultisigOp(env, OP_CHECKMULTISIG, st);
    if r.Fail? { FailureStays(env, next, r, CHECKMULTISIGVERIFY_FAILED); }
    if |st.stack| >= 1 {
      var n := ScriptNum.Parse(Top(st.stack, 1), minimal, ScriptNum.DEFAULT_MAX_NUM_SIZE);
      if n.Some? && 0 <= n.value <= MAX_PUBKEYS_PER_MULTISIG && n.value + 2 <= |st.stack| {
        var m := ScriptNum.Parse(Top(st.stack, n.value + 2), minimal, ScriptNum.DEFAULT_MAX_NUM_SIZE);
        if m.Some? && 0 <= m.value <= n.value && n.value + m.value + 3 <= |st.stack| {
          CheckMultisigVariant(env, st.(opCount := st.opCount + n.value), n.value, m.value, next);
        }
      }
    }
  }

  /** Each VERIFY variant is its opcode followed by VERIFY, except for the name of the error. */
  lemma VariantIsThenVerify(env: Env, op: byte, next: nat, st: State)
    requires HasVariant(op) && next <= |env.script| && st.codeStart <= |env.script|
    ensures Exec(env, Variant(op), next, st) == AndVerify(env, Exec(env, op, next, st), next, VariantError(op))
  {
    hide AndVerify, EqualOp, BinaryOp, SigOp, MultisigOp;
    EqualVariant(env, next, st);
    NumEqualVariant(env, MINIMALDATA in env.flags, next, st);
    SigVariant(env, next, st);
    MultisigVariant(env, next, st);
  }

  // ----- What no successful script contains -----

  /** Opcodes that fail even where they are not executed. */
  predicate IsPoison(op: byte) {
    op in {OP_CAT, OP_SUBSTR, OP_LEFT, OP_RIGHT, OP_INVERT, OP_AND, OP_OR, OP_XOR, OP_2MUL, OP_2DIV, OP_MUL, OP_DIV,
        OP_MOD,
           OP_LSHIFT, OP_RSHIFT, OP_VERIF, OP_VERNOTIF}
  }

  predicate Clean(script: Bytes, pc: nat)
    decreases |script| - pc
  {
    pc >= |script| ||
    match GetOp(script, pc)
    case NoOp => false
    case Op(op, data, next) => !IsPoison(op) && |data| <= 520 && Clean(script, next)
  }

  lemma StepIsClean(env: Env, op: byte, data: Bytes, next: nat, live: bool, st: State)
    requires st.codeStart <= |env.script| && next <= |env.script| && Step(env, op, data, next, live, st).Next?
    ensures !IsPoison(op) && |data| <= 520
  {
    hide LockOp, StackOp, EqualOp, UnaryOp, BinaryOp, WithinOp, HashOp, SigOp, MultisigOp;
  }

  /** A run that succeeds has read to the end, and no disabled opcode, no VERIF and no long push stands anywhere,
      not even in branches never taken. */
  lemma {:induction false} SuccessIsClean(env: Env, pc: nat, exec: seq<bool>, st: State)
    requires st.codeStart <= |env.script| && RunFrom(env, pc, exec, st).Next?
    ensures Clean(env.script, pc)
    decreases |env.script| - pc
  {
    hide Step, Branch, GetOp;
    if pc < |env.script| {
      var f := GetOp(env.script, pc);
      if IsConditional(f.opcode) {
        var t := Branch(env, f.opcode, exec, st);
        ConditionalHasNoData(env.script, pc);
        SuccessIsClean(env, f.next, t.exec, t.st);
      } else {
        StepIsClean(env, f.opcode, f.data, f.next, AllTrue(exec), st);
        SuccessIsClean(env, f.next, exec, Step(env, f.opcode, f.data, f.next, AllTrue(exec), st).st);
      }
    }
  }

  lemma ConditionalHasNoData(script: Bytes, pc: nat)
    requires GetOp(script, pc).Op? && IsConditional(GetOp(script, pc).opcode)
    ensures GetOp(script, pc).data == [] && !IsPoison(GetOp(script, pc).opcode)
  {}

  /** IsUnspendable: a script that begins with RETURN, as every data carrier does, or is too long. */
  predicate IsUnspendable(script: Bytes) { (|script| > 0 && script[0] == OP_RETURN) || |script| > MAX_SCRIPT_SIZE }

  lemma UnspendableFails(env: Env, stack: Stack)
    requires IsUnspendable(env.script)
    ensures Eval(env, stack).Fail?
  {
    if |env.script| <= MAX_SCRIPT_SIZE {
      assert GetOp(env.script, 0) == Op(OP_RETURN, [], 1) && AllTrue([]);
      assert Step(env, OP_RETURN, [], 1, true, Start(stack)).Fail?;
    }
  }

  /** What the wallet calls unspendable is never spent. */
  lemma UnspendableIsNeverSpent(script: Bytes, scriptSig: Bytes, wit: Stack, flags: Flags, checker: Checker)
    requires IsUnspendable(script)
    ensures VerifyScript(scriptSig, script, wit, flags, checker).Reject?
  {
    hide Eval;
    forall stack ensures Eval(Env(script, flags, checker, BASE), stack).Fail? {
      UnspendableFails(Env(script, flags, checker, BASE), stack);
    }
  }
}
