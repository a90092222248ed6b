/** Truth, choice and no-operations on whole small scripts. */
module SmallScripts {
  import opened Bytes
  import opened Script
  import opened Interpreter
  import opened Payments
  import ScriptNum

  // ----- Truth is being a number other than zero -----

  lemma TruthIsNonzero(v: Bytes)
    ensures CastToBool(v) <==> ScriptNum.Decode(v) != 0
  {
    if v != [] {
      var k := |v| - 1;
      var digits := v[..k] + [v[k] % 128];
      LeNatPositive(digits);
      assert forall i :: 0 <= i < k ==> digits[i] == v[i];
      assert digits[k] == v[k] % 128;
      if CastToBool(v) {
        var i :| 0 <= i < |v| && !IsFalsy(v, i);
        assert digits[i] != 0;
      } else {
        forall i | 0 <= i < |v| ensures digits[i] == 0 { assert IsFalsy(v, i); }
      }
    }
  }

  // ----- One choice -----

  /** IF or NOTIF, then 1 ELSE 0 ENDIF. */
  function ChoiceScript(negated: bool): Bytes { [if negated then 0x64 else 0x63, 0x51, 0x67, 0x00, 0x68] }

  /** What a condition must look like where conditions are to be minimal. */
  predicate MinimalCondition(env: Env, v: Bytes) {
    env.sigversion == WITNESS_V0 && MINIMALIF in env.flags ==> v == [] || v == [1]
  }

  lemma RunBranch(env: Env, pc: nat, op: byte, next: nat, exec: seq<bool>, st: State)
    requires st.codeStart <= |env.script| && GetOp(env.script, pc) == Op(op, [], next) && IsConditional(op)
    ensures RunFrom(env, pc, exec, st)
         == var t := Branch(env, op, exec, st);
            if t.Halt? then Fail(t.error, t.sigChecks) else RunFrom(env, next, t.exec, t.st)
  {
    hide GetOp, Branch;
  }

  lemma RunPlain(env: Env, pc: nat, op: byte, next: nat, taken: bool, st: State)
    requires st.codeStart <= |env.script| && GetOp(env.script, pc) == Op(op, [], next) && !IsConditional(op)
    ensures RunFrom(env, pc, [taken], st)
         == var r := Step(env, op, [], next, taken, st); if r.Fail? then r else RunFrom(env, next, [taken], r.st)
  {
    hide GetOp, Step;
    assert AllTrue([taken]) <==> taken by { if taken { assert AllTrue([true]); } else { assert ![false][0]; } }
  }

  lemma OpenBranch(env: Env, negated: bool, st: State)
    requires st.opCount < 10 && |st.stack| + |st.alt| <= MAX_STACK_SIZE
    ensures var t := Branch(env, if negated then 0x64 else 0x63, [], st);
            if st.stack == [] || !MinimalCondition(env, Top(st.stack, 1)) then t.Halt?
            else t == Turn([CastToBool(Top(st.stack, 1)) != negated],
                           st.(stack := Below(st.stack, 1), opCount := st.opCount + 1))
  {
    hide CastToBool;
    assert AllTrue([]);
    if st.stack != [] {
      var v := Top(st.stack, 1);
      assert (v == [] || v == [1]) <==> !(|v| > 1 || (|v| == 1 && v[0] != 1));
    }
  }

  lemma CloseBranch(env: Env, taken: bool, st: State)
    requires st.opCount < 10 && |st.stack| + |st.alt| <= MAX_STACK_SIZE
    ensures Branch(env, 0x67, [taken], st) == Turn([!taken], st.(opCount := st.opCount + 1))
    ensures Branch(env, 0x68, [taken], st) == Turn([], st.(opCount := st.opCount + 1))
  {
    hide CastToBool;
  }

  lemma ArmStep(env: Env, one: bool, next: nat, taken: bool, st: State)
    requires st.codeStart <= |env.script| && next <= |env.script| && |st.stack| + |st.alt| < MAX_STACK_SIZE
    ensures Step(env, if one then 0x51 else 0x00, [], next, taken, st)
         == Next(if taken then st.(stack := st.stack + [Truth(one)]) else st)
  {
    assert NatLe(1) == [1];
  }

  lemma ChoiceLayout(negated: bool)
    ensures var s := ChoiceScript(negated);
            GetOp(s, 0) == Op(s[0], [], 1) && GetOp(s, 1) == Op(0x51, [], 2) && GetOp(s, 2) == Op(0x67, [], 3)
            && GetOp(s, 3) == Op(0x00, [], 4) && GetOp(s, 4) == Op(0x68, [], 5)
  {
    var s := ChoiceScript(negated);
    assert s[4..4] == [];
  }

  /** IF takes its first arm exactly on a true condition and NOTIF on a false one; where conditions must be minimal,
      only the empty element and the byte 1 are conditions at all. */
  lemma ChoiceEval(env: Env, negated: bool, stack: Stack)
    requires env.script == ChoiceScript(negated) && |stack| <= MAX_STACK_SIZE
    ensures var r := Eval(env, stack);
            if stack == [] || !MinimalCondition(env, Top(stack, 1)) then r.Fail?
            else r.Next? && r.st.stack == Below(stack, 1) + [Truth(CastToBool(Top(stack, 1)) != negated)]
  {
    hide RunFrom, Step, Branch, GetOp, CastToBool, MinimalCondition;
    ChoiceLayout(negated);
    var st := Start(stack);
    RunBranch(env, 0, env.script[0], 1, [], st);
    OpenBranch(env, negated, st);
    if stack != [] && MinimalCondition(env, Top(stack, 1)) {
      var taken := CastToBool(Top(stack, 1)) != negated;
      var st1 := st.(stack := Below(stack, 1), opCount := 1);
      RunPlain(env, 1, 0x51, 2, taken, st1);
      ArmStep(env, true, 2, taken, st1);
      var st2 := if taken then st1.(stack := st1.stack + [Truth(true)]) else st1;
      RunBranch(env, 2, 0x67, 3, [taken], st2);
      CloseBranch(env, taken, st2);
      var st3 := st2.(opCount := 2);
      ElseArm(env, taken, Below(stack, 1), st3);
    }
  }

  lemma ElseArm(env: Env, taken: bool, below: Stack, st: State)
    requires |env.script| == 5 && GetOp(env.script, 3) == Op(0x00, [], 4) && GetOp(env.script, 4) == Op(0x68, [], 5)
    requires st.codeStart == 0 && st.alt == [] && st.opCount < 9 && |below| < MAX_STACK_SIZE
    requires st.stack == if taken then below + [Truth(true)] else below
    ensures var r := RunFrom(env, 3, [!taken], st); r.Next? && r.st.stack == below + [Truth(taken)]
  {
    hide RunFrom, Step, Branch, GetOp;
    RunPlain(env, 3, 0x00, 4, !taken, st);
    var st1 := if taken then st else st.(stack := below + [Truth(false)]);
    assert Step(env, 0x00, [], 4, !taken, st) == Next(st1) by {
      if taken { SkippedZero(env, st); } else { ArmStep(env, false, 4, true, st); }
    }
    RunBranch(env, 4, 0x68, 5, [!taken], st1);
    CloseBranch(env, !taken, st1);
    RunEnds(env, st1.(opCount := st1.opCount + 1));
  }

  lemma SkippedZero(env: Env, st: State)
    requires st.codeStart <= |env.script| && 4 <= |env.script| && |st.stack| + |st.alt| <= MAX_STACK_SIZE
    ensures Step(env, 0x00, [], 4, false, st) == Next(st)
  {}

  // ----- No-operations -----

  /** NOP (0x61) does nothing; NOP1 (0xb0) and NOP4 to NOP10 (0xb3 to 0xb9) do nothing unless they are discouraged. */
  lemma NopEval(env: Env, op: byte, stack: Stack)
    requires env.script == [op] && |stack| <= MAX_STACK_SIZE && (op == 0x61 || op == 0xb0 || 0xb3 <= op <= 0xb9)
    ensures Eval(env, stack)
         == if op != 0x61 && DISCOURAGE_UPGRADABLE_NOPS in env.flags then Fail(NOP_DISCOURAGED, 0)
            else Next(Start(stack).(opCount := 1))
  {
    assert GetOp(env.script, 0) == Op(op, [], 1);
    NopStep(env, op, Start(stack));
    hide RunFrom, Step, GetOp;
    RunOne(env, 0, op, [], 1, Start(stack));
    RunEnds(env, Start(stack).(opCount := 1));
  }

  lemma NopStep(env: Env, op: byte, st: State)
    requires env.script == [op] && st.codeStart == 0 && st.opCount == 0 && |st.stack| + |st.alt| <= MAX_STACK_SIZE
    requires op == 0x61 || op == 0xb0 || 0xb3 <= op <= 0xb9
    ensures Step(env, op, [], 1, true, st)
         == if op != 0x61 && DISCOURAGE_UPGRADABLE_NOPS in env.flags then Bad(NOP_DISCOURAGED, st)
            else Next(st.(opCount := 1))
  {
    hide StackOp, EqualOp, UnaryOp, BinaryOp, WithinOp, HashOp, LockOp, SigOp, MultisigOp, CastToBool, ScriptNum.Encode;
  }

  // ----- Limits -----

  /** One more element fits below a thousand. */
  lemma StackLimit(env: Env, stack: Stack)
    requires env.script == [0x51]
    ensures Eval(env, stack) == if |stack| >= 1000 then Fail(STACK_SIZE, 0) else Next(Start(stack + [[1]]))
  {
    assert GetOp(env.script, 0) == Op(0x51, [], 1);
    PushVersion(env, 1, 1, Start(stack));
    hide RunFrom, Step, GetOp;
    RunOne(env, 0, 0x51, [], 1, Start(stack));
    if |stack| < 1000 { RunEnds(env, Start(stack + [[1]])); }
  }

  /** A script is looked at up to 10000 bytes: its first opcode, here an undefined one, then decides. */
  lemma ScriptLimit(env: Env, stack: Stack)
    requires env.script != [] && env.script[0] == 0xba
    ensures Eval(env, stack) == if |env.script| > 10000 then Fail(SCRIPT_SIZE, 0) else Fail(BAD_OPCODE, 0)
  {
    assert GetOp(env.script, 0) == Op(0xba, [], 1);
    UndefinedStep(env, Start(stack));
    hide RunFrom, Step, GetOp;
    RunOne(env, 0, 0xba, [], 1, Start(stack));
  }

  lemma UndefinedStep(env: Env, st: State)
    requires env.script != [] && st.codeStart == 0 && st.opCount == 0 && st.sigChecks == 0
    ensures Step(env, 0xba, [], 1, true, st) == Fail(BAD_OPCODE, 0)
  {}

  // ----- Which opcodes there are -----

  /** The fifteen opcodes that were switched off: CAT to RIGHT, INVERT to XOR, 2MUL, 2DIV, MUL to RSHIFT. */
  predicate SwitchedOff(op: byte) {
    0x7e <= op <= 0x81 || 0x83 <= op <= 0x86 || op == 0x8d || op == 0x8e || 0x95 <= op <= 0x99
  }

  /** RESERVED, VER, VERIF, VERNOTIF, RESERVED1, RESERVED2 and everything past NOP10. */
  predicate Undefined(op: byte) {
    op == 0x50 || op == 0x62 || op == 0x65 || op == 0x66 || op == 0x89 || op == 0x8a || 0xba <= op
  }

  predicate OtherError(r: Outcome) { r.Fail? ==> r.error != DISABLED_OPCODE && r.error != BAD_OPCODE }

  lemma FamiliesErr(minimal: bool, checker: Checker, op: byte, st: State)
    ensures OtherError(StackOp(minimal, op, st)) && OtherError(EqualOp(op, st)) && OtherError(UnaryOp(minimal, op, st))
    ensures OtherError(BinaryOp(minimal, op, st)) && OtherError(WithinOp(minimal, st))
    ensures OtherError(HashOp(checker, op, st))
  {
    hide ScriptNum.Parse, ScriptNum.Encode, CastToBool, UnaryValue, BinaryValue;
  }

  lemma {:induction false} MatchingErrs(env: Env, code: Bytes, sigs: seq<Bytes>, keys: seq<Bytes>, checks: nat)
    requires |sigs| <= |keys|
    ensures var m := MatchSignatures(env, code, sigs, keys, checks);
            m.Refused? ==> m.error != DISABLED_OPCODE && m.error != BAD_OPCODE
    decreases |keys|
  {
    hide IsValidSignatureEncoding, IsDefinedHashtypeSignature;
    if sigs != [] {
      var rest := if env.checker.checkSig(sigs[0], keys[0], code, env.sigversion) then sigs[1..] else sigs;
      if |rest| <= |keys| - 1 { MatchingErrs(env, code, rest, keys[1..], checks + 1); }
    }
  }

  lemma SignatureErrs(env: Env, op: byte, st: State)
    requires st.codeStart <= |env.script|
    ensures OtherError(SigOp(env, op, st)) && OtherError(LockOp(env, op, st))
  {
    hide ScriptNum.Parse, StripSignatures, IsValidSignatureEncoding, IsDefinedHashtypeSignature;
  }

  lemma CheckErrs(env: Env, op: byte, st: State, n: nat, m: nat)
    requires st.codeStart <= |env.script| && m <= n && n + m + 3 <= |st.stack|
    ensures OtherError(CheckMultisig(env, op, st, n, m))
  {
    hide StripSignatures, MatchSignatures, Slice;
    var keys, sigs := Slice(st.stack, 2, n), Slice(st.stack, n + 3, m);
    var code := StripSignatures(env, env.script[st.codeStart..], sigs);
    if code.Some? { MatchingErrs(env, code.value, sigs, keys, st.sigChecks); }
  }

  lemma MultisigErrs(env: Env, op: byte, st: State)
    requires st.codeStart <= |env.script|
    ensures OtherError(MultisigOp(env, op, st))
  {
    hide ScriptNum.Parse, CheckMultisig;
    var s, minimal := st.stack, MINIMALDATA in env.flags;
    if |s| >= 1 {
      var n := ScriptNum.Parse(Top(s, 1), minimal, ScriptNum.DEFAULT_MAX_NUM_SIZE);
      if n.Some? && 0 <= n.value && n.value + 2 <= |s| {
        var m := ScriptNum.Parse(Top(s, n.value + 2), minimal, ScriptNum.DEFAULT_MAX_NUM_SIZE);
        if m.Some? && 0 <= m.value <= n.value && n.value + m.value + 3 <= |s| {
          CheckErrs(env, op, st.(opCount := st.opCount + n.value), n.value, m.value);
        }
      }
    }
  }

  lemma ExecErrs(env: Env, op: byte, next: nat, st: State)
    requires st.codeStart <= |env.script| && next <= |env.script| && op > 0x4e && !IsConditional(op)
    ensures var r := Exec(env, op, next, st);
            if Undefined(op) || SwitchedOff(op) then SwitchedOff(op) || r == Bad(BAD_OPCODE, st) else OtherError(r)
  {
    hide StackOp, EqualOp, UnaryOp, BinaryOp, WithinOp, HashOp, LockOp, SigOp, MultisigOp, ScriptNum.Encode, CastToBool;
    FamiliesErr(MINIMALDATA in env.flags, env.checker, op, st);
    SignatureErrs(env, op, st);
    MultisigErrs(env, op, st);
  }

  /** A script of one opcode fails as switched off, or as undefined, exactly for the opcodes that are; all others are
      executed. */
  lemma OpcodeKinds(env: Env, op: byte, stack: Stack)
    requires env.script == [op] && op > 0x4e && !IsConditional(op)
    ensures Eval(env, stack) == Fail(DISABLED_OPCODE, 0) <==> SwitchedOff(op)
    ensures Eval(env, stack) == Fail(BAD_OPCODE, 0) <==> Undefined(op)
  {
    assert GetOp(env.script, 0) == Op(op, [], 1);
    var st := Start(stack);
    StepErrs(env, op, st);
    hide RunFrom, Step, GetOp;
    RunOne(env, 0, op, [], 1, st);
    var r := Step(env, op, [], 1, true, st);
    if r.Next? { RunEnds(env, r.st); }
  }

  lemma StepErrs(env: Env, op: byte, st: State)
    requires |env.script| == 1 && op > 0x4e && !IsConditional(op) && st.codeStart == 0 && st.opCount == 0
    ensures var r := Step(env, op, [], 1, true, st);
            if SwitchedOff(op) then r == Bad(DISABLED_OPCODE, st)
            else if Undefined(op) then r == Bad(BAD_OPCODE, st) else OtherError(r)
  {
    hide Exec;
    ExecErrs(env, op, 1, st);
    ExecErrs(env, op, 1, st.(opCount := 1));
  }
}
