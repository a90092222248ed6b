/** Resource limits over whole runs: signature checks, stack depth and element size. */
module SigBudget {
  import opened Bytes
  import opened Script
  import opened Interpreter
  import ScriptNum

  function Checks(r: Outcome): nat {
    if r.Next? then r.st.sigChecks else r.sigChecks
  }

  // ----- Signature checks -----

  lemma {:induction false} MatchingCost(env: Env, code: Bytes, sigs: seq<Bytes>, keys: seq<Bytes>, checks: nat)
    requires |sigs| <= |keys|
    ensures checks <= MatchSignatures(env, code, sigs, keys, checks).checks <= checks + |keys|
    decreases |keys|
  {
    if sigs != [] {
      var rest := if env.checker.checkSig(sigs[0], keys[0], code, env.sigversion) then sigs[1..] else sigs;
      if |rest| <= |keys| - 1 { MatchingCost(env, code, rest, keys[1..], checks + 1); }
    }
  }

  lemma MultisigCost(env: Env, op: byte, st: State, nKeys: nat, nSigs: nat)
    requires st.codeStart <= |env.script|
    requires nSigs <= nKeys && nKeys + nSigs + 3 <= |st.stack|
    ensures var r := CheckMultisig(env, op, st, nKeys, nSigs);
            Checks(r) <= st.sigChecks + nKeys && (r.Next? ==> r.st.opCount == st.opCount)
  {
    var keys, sigs := Slice(st.stack, 2, nKeys), Slice(st.stack, nKeys + 3, nSigs);
    var code := StripSignatures(env, env.script[st.codeStart..], sigs);
    if code.Some? { MatchingCost(env, code.value, sigs, keys, st.sigChecks); }
    hide StripSignatures, MatchSignatures;
  }

  /** A multisignature check makes at most as many checks as it adds to the opcode count, and at most
      as many as the key count on top of the stack says. */
  lemma MultisigOpCost(env: Env, op: byte, st: State)
    requires st.codeStart <= |env.script| && st.sigChecks <= st.opCount <= MAX_OPS_PER_SCRIPT
    ensures var r := MultisigOp(env, op, st);
            Checks(r) <= MAX_OPS_PER_SCRIPT && Checks(r) <= st.sigChecks + MAX_PUBKEYS_PER_MULTISIG
            && (r.Next? ==> r.st.sigChecks <= r.st.opCount <= MAX_OPS_PER_SCRIPT)
            && (|st.stack| > 0 && 0 <= ScriptNum.Decode(Top(st.stack, 1))
                ==> Checks(r) <= st.sigChecks + ScriptNum.Decode(Top(st.stack, 1)))
  {
    hide CheckMultisig, ScriptNum.Decode, ScriptNum.IsMinimal;
    if |st.stack| >= 1 {
      var nKeys := ScriptNum.Decode(Top(st.stack, 1));
      if 0 <= nKeys <= MAX_PUBKEYS_PER_MULTISIG && nKeys + 2 <= |st.stack| {
        var nSigs := ScriptNum.Decode(Top(st.stack, nKeys + 2));
        if 0 <= nSigs <= nKeys && nKeys + nSigs + 3 <= |st.stack| {
          MultisigCost(env, op, st.(opCount := st.opCount + nKeys), nKeys, nSigs);
        }
      }
    }
  }

  /** The opcode read just before stands for what it pushed: a small number right before a live
      multisignature check is its key count. */
  predicate Linked(last: byte, live: bool, st: State) {
    live && OP_1 <= last <= OP_16 ==> |st.stack| > 0 && Top(st.stack, 1) == ScriptNum.Encode(last as int - 0x50)
  }

  predicate IsSigOp(op: byte) { OP_CHECKSIG <= op <= OP_CHECKMULTISIGVERIFY }

  lemma OtherOpsAreFree(env: Env, op: byte, next: nat, st: State)
    requires st.codeStart <= |env.script| && next <= |env.script| && !IsSigOp(op)
    ensures var r := Exec(env, op, next, st);
            Checks(r) == st.sigChecks && (r.Next? ==> r.st.opCount == st.opCount)
  {}

  lemma ExecCost(env: Env, op: byte, next: nat, last: byte, st: State)
    requires st.codeStart <= |env.script| && next <= |env.script|
    requires st.sigChecks < st.opCount <= MAX_OPS_PER_SCRIPT
            || (!IsSigOp(op) && st.sigChecks <= st.opCount <= MAX_OPS_PER_SCRIPT)
    requires Linked(last, true, st)
    ensures var r := Exec(env, op, next, st);
            Checks(r) <= MAX_OPS_PER_SCRIPT && Checks(r) <= st.sigChecks + SigOpWeight(op, last, true)
            && (r.Next? ==> r.st.sigChecks <= r.st.opCount <= MAX_OPS_PER_SCRIPT)
  {
    hide MultisigOp, StackOp, BinaryOp, UnaryOp, LockOp, HashOp, WithinOp, EqualOp, ScriptNum.Encode, ScriptNum.Decode;
    hide StripSignatures, EncodingError;
    if !IsSigOp(op) {
      OtherOpsAreFree(env, op, next, st);
    } else if op == OP_CHECKMULTISIG || op == OP_CHECKMULTISIGVERIFY {
      MultisigOpCost(env, op, st);
      if OP_1 <= last <= OP_16 { ScriptNum.DecodeOfEncode(last as int - 0x50); }
    }
  }

  lemma StepCost(env: Env, op: byte, data: Bytes, next: nat, live: bool, last: byte, st: State)
    requires st.codeStart <= |env.script| && next <= |env.script| && st.sigChecks <= st.opCount <= MAX_OPS_PER_SCRIPT
    requires Linked(last, live, st)
    ensures var r := Step(env, op, data, next, live, st);
            Checks(r) <= MAX_OPS_PER_SCRIPT && Checks(r) <= st.sigChecks + SigOpWeight(op, last, true)
            && (r.Next? ==> r.st.sigChecks <= r.st.opCount <= MAX_OPS_PER_SCRIPT && Linked(op, live, r.st))
  {
    var a := Admit(env, op, data, st);
    if a.Next? && live {
      ExecCost(env, op, next, last, a.st);
    } else if a.Next? && OP_IF <= op <= OP_ENDIF {
      OtherOpsAreFree(env, op, next, a.st);
    }
    assert OP_1 <= op <= OP_16 && a.Next? ==>
      Exec(env, op, next, a.st) == Next(Push(a.st, ScriptNum.Encode(op as int - 0x50)));
    hide Exec;
  }

  lemma BranchCost(env: Env, op: byte, exec: seq<bool>, st: State)
    requires IsConditional(op) && st.opCount <= MAX_OPS_PER_SCRIPT
    ensures var t := Branch(env, op, exec, st);
            t.Halt? ==> t.sigChecks == st.sigChecks
    ensures var t := Branch(env, op, exec, st);
            t.Turn? ==> t.st.sigChecks == st.sigChecks && st.opCount <= t.st.opCount <= MAX_OPS_PER_SCRIPT
  {}

  lemma {:induction false} RunCost(env: Env, pc: nat, exec: seq<bool>, last: byte, st: State)
    requires st.codeStart <= |env.script| && st.sigChecks <= st.opCount <= MAX_OPS_PER_SCRIPT
    requires Linked(last, AllTrue(exec), st)
    ensures Checks(RunFrom(env, pc, exec, st)) <= MAX_OPS_PER_SCRIPT
    ensures Checks(RunFrom(env, pc, exec, st)) <= st.sigChecks + SigOpsFrom(env.script, pc, last, true)
    decreases |env.script| - pc
  {
    var f := GetOp(env.script, pc);
    hide Step, Branch, GetOp;
    if pc < |env.script| && f.Op? {
      if IsConditional(f.opcode) {
        BranchCost(env, f.opcode, exec, st);
        var t := Branch(env, f.opcode, exec, st);
        if t.Turn? { RunCost(env, f.next, t.exec, f.opcode, t.st); }
      } else {
        StepCost(env, f.opcode, f.data, f.next, AllTrue(exec), last, st);
        var r := Step(env, f.opcode, f.data, f.next, AllTrue(exec), st);
        if r.Next? { RunCost(env, f.next, exec, f.opcode, r.st); }
      }
    }
  }

  /** In any evaluation, successful or not, the number of signature checks is at most the script's
      accurate signature-operation count and at most the opcode limit. */
  lemma SignatureChecksAreBudgeted(env: Env, stack: Stack)
    ensures Checks(Eval(env, stack)) <= SigOpCount(env.script, true)
    ensures Checks(Eval(env, stack)) <= MAX_OPS_PER_SCRIPT
  {
    RunCost(env, 0, [], OP_INVALIDOPCODE, Start(stack));
  }

  // ----- Stack depth and element size -----

  predicate Small(s: Stack) {
    forall i :: 0 <= i < |s| ==> |s[i]| <= MAX_SCRIPT_ELEMENT_SIZE
  }

  /** CScriptNum holds a stack size only if it fits a signed 64-bit integer. */
  predicate Countable(s: Stack) { |s| < 0x8000_0000_0000_0000 }

  predicate SmallState(st: State) { Small(st.stack) && Small(st.alt) }

  lemma PickIsSmall(minimal: bool, op: byte, st: State)
    requires SmallState(st)
    ensures var r := PickOrRoll(minimal, op, st); r.Next? ==> SmallState(r.st)
  {
    hide ScriptNum.Parse;
  }

  lemma CopiesAreSmall(minimal: bool, op: byte, st: State)
    requires SmallState(st) && op <= OP_2SWAP
    ensures var r := StackOp(minimal, op, st); OP_TOALTSTACK <= op && r.Next? ==> SmallState(r.st)
  {
    hide StackOp;
    if op <= OP_2DUP { FirstCopiesAreSmall(minimal, op, st); }
    else if op <= OP_2OVER { MoreCopiesAreSmall(minimal, op, st); }
    else { LastCopiesAreSmall(minimal, op, st); }
  }

  lemma FirstCopiesAreSmall(minimal: bool, op: byte, st: State)
    requires SmallState(st) && op <= OP_2DUP
    ensures var r := StackOp(minimal, op, st); OP_TOALTSTACK <= op && r.Next? ==> SmallState(r.st)
  {
    hide PickOrRoll, ScriptNum.Encode, CastToBool;
  }

  lemma MoreCopiesAreSmall(minimal: bool, op: byte, st: State)
    requires SmallState(st) && OP_3DUP <= op <= OP_2OVER
    ensures var r := StackOp(minimal, op, st); r.Next? ==> SmallState(r.st)
  {
    hide PickOrRoll, ScriptNum.Encode, CastToBool;
  }

  lemma LastCopiesAreSmall(minimal: bool, op: byte, st: State)
    requires SmallState(st) && OP_2ROT <= op <= OP_2SWAP
    ensures var r := StackOp(minimal, op, st); r.Next? ==> SmallState(r.st)
  {
    hide PickOrRoll, ScriptNum.Encode, CastToBool;
  }

  lemma StackOpIsSmall(minimal: bool, op: byte, st: State)
    requires SmallState(st) && Countable(st.stack) && OP_TOALTSTACK <= op
    ensures var r := StackOp(minimal, op, st); r.Next? ==> SmallState(r.st)
  {
    hide PickOrRoll, ScriptNum.Encode, CastToBool;
    assert Pow256(8) == 0x1_0000_0000_0000_0000;
    ScriptNum.EncodeLength(|st.stack|);
    if |st.stack| > 0 { ScriptNum.EncodeLength(|Top(st.stack, 1)|); }
    PickIsSmall(minimal, op, st);
    if op <= OP_2SWAP { CopiesAreSmall(minimal, op, st); return; }
  }

  lemma NumbersAreShort(vch: Bytes, requireMinimal: bool)
    requires ScriptNum.Parse(vch, requireMinimal, ScriptNum.DEFAULT_MAX_NUM_SIZE).Some?
    ensures -0x1_0000_0000 < ScriptNum.Parse(vch, requireMinimal, ScriptNum.DEFAULT_MAX_NUM_SIZE).value < 0x1_0000_0000
  {
    if vch != [] {
      var k := |vch| - 1;
      LeNatBound(vch[..k] + [vch[k] % 128]);
      assert Pow256(1) == 0x100 && Pow256(2) == 0x1_0000 && Pow256(3) == 0x100_0000 && Pow256(4) == 0x1_0000_0000;
    }
  }

  lemma NumericIsSmall(minimal: bool, op: byte, st: State)
    requires SmallState(st)
    ensures var r := UnaryOp(minimal, op, st); r.Next? ==> SmallState(r.st)
    ensures var r := BinaryOp(minimal, op, st); r.Next? ==> SmallState(r.st)
  {
    hide ScriptNum.Encode, ScriptNum.Parse, CastToBool;
    assert Pow256(8) == 0x1_0000_0000_0000_0000;
    var n := |st.stack|;
    if n >= 1 && ScriptNum.Parse(Top(st.stack, 1), minimal, 4).Some? {
      NumbersAreShort(Top(st.stack, 1), minimal);
      var b := ScriptNum.Parse(Top(st.stack, 1), minimal, 4).value;
      ScriptNum.EncodeLength(UnaryValue(op, b));
      if n >= 2 && ScriptNum.Parse(Top(st.stack, 2), minimal, 4).Some? {
        NumbersAreShort(Top(st.stack, 2), minimal);
        ScriptNum.EncodeLength(BinaryValue(op, ScriptNum.Parse(Top(st.stack, 2), minimal, 4).value, b));
      }
    }
  }

  lemma SigOpsAreSmall(env: Env, op: byte, st: State)
    requires st.codeStart <= |env.script| && SmallState(st)
    ensures var r := SigOp(env, op, st); r.Next? ==> SmallState(r.st)
    ensures var r := MultisigOp(env, op, st); r.Next? ==> SmallState(r.st)
  {
    hide ScriptNum.Parse, StripSignatures, MatchSignatures, EncodingError, Slice;
  }

  lemma OthersAreSmall(env: Env, op: byte, st: State)
    requires SmallState(st)
    ensures var r := EqualOp(op, st); r.Next? ==> SmallState(r.st)
    ensures var r := WithinOp(MINIMALDATA in env.flags, st); r.Next? ==> SmallState(r.st)
    ensures var r := HashOp(env.checker, op, st); r.Next? ==> SmallState(r.st)
    ensures var r := LockOp(env, op, st); r.Next? ==> SmallState(r.st)
  {
    hide ScriptNum.Parse;
  }

  lemma ExecIsSmall(env: Env, op: byte, next: nat, st: State)
    requires st.codeStart <= |env.script| && next <= |env.script|
    requires SmallState(st) && Countable(st.stack)
    ensures var r := Exec(env, op, next, st); r.Next? ==> SmallState(r.st)
  {
    hide StackOp, UnaryOp, BinaryOp, EqualOp, WithinOp, HashOp, LockOp, SigOp, MultisigOp, ScriptNum.Encode, CastToBool;
    assert Pow256(8) == 0x1_0000_0000_0000_0000;
    if op == OP_1NEGATE || OP_1 <= op <= OP_16 { ScriptNum.EncodeLength(op as int - 0x50); }
    if OP_TOALTSTACK <= op { StackOpIsSmall(MINIMALDATA in env.flags, op, st); }
    NumericIsSmall(MINIMALDATA in env.flags, op, st);
    SigOpsAreSmall(env, op, st);
    OthersAreSmall(env, op, st);
  }

  ghost predicate Within(st: State) {
    SmallState(st) && |st.stack| + |st.alt| <= MAX_STACK_SIZE
  }

  lemma StepIsWithin(env: Env, op: byte, data: Bytes, next: nat, live: bool, st: State)
    requires st.codeStart <= |env.script| && next <= |env.script|
    requires SmallState(st) && Countable(st.stack)
    ensures var r := Step(env, op, data, next, live, st); r.Next? ==> Within(r.st)
  {
    hide Exec;
    var a := Admit(env, op, data, st);
    if a.Next? { ExecIsSmall(env, op, next, a.st); }
  }

  lemma BranchIsWithin(env: Env, op: byte, exec: seq<bool>, st: State)
    requires SmallState(st)
    ensures var t := Branch(env, op, exec, st); t.Turn? ==> Within(t.st)
  {}

  /** Every state the main loop completes, from here on. */
  ghost predicate EveryStateIsWithin(env: Env, pc: nat, exec: seq<bool>, st: State)
    requires st.codeStart <= |env.script|
    decreases |env.script| - pc
  {
    var f := GetOp(env.script, pc);
    pc < |env.script| && f.Op? ==>
      if IsConditional(f.opcode) then
        var t := Branch(env, f.opcode, exec, st);
        t.Turn? ==> Within(t.st) && EveryStateIsWithin(env, f.next, t.exec, t.st)
      else
        var r := Step(env, f.opcode, f.data, f.next, AllTrue(exec), st);
        r.Next? ==> Within(r.st) && EveryStateIsWithin(env, f.next, exec, r.st)
  }

  /** Starting from small elements, after every completed instruction of any run the two stacks hold at
      most 1000 elements together, each of at most 520 bytes. */
  lemma {:induction false} RunStaysWithin(env: Env, pc: nat, exec: seq<bool>, st: State)
    requires st.codeStart <= |env.script|
    requires SmallState(st) && Countable(st.stack)
    ensures EveryStateIsWithin(env, pc, exec, st)
    decreases |env.script| - pc
  {
    var f := GetOp(env.script, pc);
    hide Step, Branch, GetOp, Small;
    if pc < |env.script| && f.Op? {
      if IsConditional(f.opcode) {
        BranchIsWithin(env, f.opcode, exec, st);
        var t := Branch(env, f.opcode, exec, st);
        if t.Turn? { RunStaysWithin(env, f.next, t.exec, t.st); }
      } else {
        StepIsWithin(env, f.opcode, f.data, f.next, AllTrue(exec), st);
        var r := Step(env, f.opcode, f.data, f.next, AllTrue(exec), st);
        if r.Next? { RunStaysWithin(env, f.next, exec, r.st); }
      }
    }
  }
}
