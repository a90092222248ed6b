/** Every verification flag is a soft fork. */
module SoftFork {
  import opened Bytes
  import opened Script
  import opened Interpreter
  import opened Verify
  import ScriptNum

  lemma {:induction false} StripIsSoft(env: Env, tight: Flags, code: Bytes, sigs: seq<Bytes>)
    requires env.flags <= tight
    requires StripSignatures(env.(flags := tight), code, sigs).Some?
    ensures StripSignatures(env, code, sigs) == StripSignatures(env.(flags := tight), code, sigs)
    decreases |sigs|
  {
    if sigs != [] && env.sigversion == BASE {
      StripIsSoft(env, tight, Delete(code, PushData(sigs[0])).rest, sigs[1..]);
    }
  }

  lemma EncodingIsSoft(env: Env, tight: Flags, sig: Bytes, key: Bytes)
    requires env.flags <= tight
    requires EncodingError(env.(flags := tight), sig, key).None?
    ensures EncodingError(env, sig, key).None?
  {}

  lemma {:induction false} MatchingIsSoft(env: Env, tight: Flags, code: Bytes, sigs: seq<Bytes>, keys: seq<Bytes>,
                                          checks: nat)
    requires env.flags <= tight && |sigs| <= |keys|
    requires MatchSignatures(env.(flags := tight), code, sigs, keys, checks).Matched?
    ensures MatchSignatures(env, code, sigs, keys, checks) == MatchSignatures(env.(flags := tight), code, sigs, keys,
            checks)
    decreases |keys|
  {
    if sigs != [] {
      EncodingIsSoft(env, tight, sigs[0], keys[0]);
      var rest := if env.checker.checkSig(sigs[0], keys[0], code, env.sigversion) then sigs[1..] else sigs;
      if |rest| <= |keys| - 1 { MatchingIsSoft(env, tight, code, rest, keys[1..], checks + 1); }
    }
  }

  lemma SigOpIsSoft(env: Env, tight: Flags, op: byte, st: State)
    requires env.flags <= tight && st.codeStart <= |env.script|
    requires SigOp(env.(flags := tight), op, st).Next?
    ensures SigOp(env, op, st) == SigOp(env.(flags := tight), op, st)
  {
    StripIsSoft(env, tight, env.script[st.codeStart..], [Top(st.stack, 2)]);
  }

  lemma MultisigIsSoft(env: Env, tight: Flags, op: byte, st: State, nKeys: nat, nSigs: nat)
    requires env.flags <= tight && st.codeStart <= |env.script|
    requires nSigs <= nKeys && nKeys + nSigs + 3 <= |st.stack|
    requires CheckMultisig(env.(flags := tight), op, st, nKeys, nSigs).Next?
    ensures CheckMultisig(env, op, st, nKeys, nSigs) == CheckMultisig(env.(flags := tight), op, st, nKeys, nSigs)
  {
    var keys, sigs := Slice(st.stack, 2, nKeys), Slice(st.stack, nKeys + 3, nSigs);
    var code := env.script[st.codeStart..];
    StripIsSoft(env, tight, code, sigs);
    MatchingIsSoft(env, tight, StripSignatures(env, code, sigs).value, sigs, keys, st.sigChecks);
  }

  lemma MultisigOpIsSoft(env: Env, tight: Flags, op: byte, st: State)
    requires env.flags <= tight && st.codeStart <= |env.script|
    requires MultisigOp(env.(flags := tight), op, st).Next?
    ensures MultisigOp(env, op, st) == MultisigOp(env.(flags := tight), op, st)
  {
    hide CheckMultisig, ScriptNum.Decode, ScriptNum.IsMinimal;
    var size := ScriptNum.DEFAULT_MAX_NUM_SIZE;
    var nKeys := ScriptNum.Parse(Top(st.stack, 1), MINIMALDATA in tight, size).value;
    var nSigs := ScriptNum.Parse(Top(st.stack, nKeys + 2), MINIMALDATA in tight, size).value;
    MultisigIsSoft(env, tight, op, st.(opCount := st.opCount + nKeys), nKeys, nSigs);
  }

  lemma ExecIsSoft(env: Env, tight: Flags, op: byte, next: nat, st: State)
    requires env.flags <= tight && st.codeStart <= |env.script| && next <= |env.script|
    requires Exec(env.(flags := tight), op, next, st).Next?
    ensures Exec(env, op, next, st) == Exec(env.(flags := tight), op, next, st)
  {
    hide SigOp, MultisigOp;
    if op == OP_CHECKSIG || op == OP_CHECKSIGVERIFY { SigOpIsSoft(env, tight, op, st); }
    else if op == OP_CHECKMULTISIG || op == OP_CHECKMULTISIGVERIFY { MultisigOpIsSoft(env, tight, op, st); }
  }

  lemma StepIsSoft(env: Env, tight: Flags, op: byte, data: Bytes, next: nat, live: bool, st: State)
    requires env.flags <= tight && st.codeStart <= |env.script| && next <= |env.script|
    requires Step(env.(flags := tight), op, data, next, live, st).Next?
    ensures Step(env, op, data, next, live, st) == Step(env.(flags := tight), op, data, next, live, st)
  {
    var st1 := Admit(env.(flags := tight), op, data, st).st;
    if !(live && op <= OP_PUSHDATA4) && (live || OP_IF <= op <= OP_ENDIF) {
      ExecIsSoft(env, tight, op, next, st1);
    }
  }

  lemma {:induction false} RunIsSoft(env: Env, tight: Flags, pc: nat, exec: seq<bool>, st: State)
    requires env.flags <= tight && st.codeStart <= |env.script|
    requires RunFrom(env.(flags := tight), pc, exec, st).Next?
    ensures RunFrom(env, pc, exec, st) == RunFrom(env.(flags := tight), pc, exec, st)
    decreases |env.script| - pc
  {
    if pc < |env.script| {
      var f := GetOp(env.script, pc);
      if IsConditional(f.opcode) {
        var t := Branch(env.(flags := tight), f.opcode, exec, st);
        RunIsSoft(env, tight, f.next, t.exec, t.st);
      } else {
        StepIsSoft(env, tight, f.opcode, f.data, f.next, AllTrue(exec), st);
        hide Step;
        RunIsSoft(env, tight, f.next, exec, Step(env, f.opcode, f.data, f.next, AllTrue(exec), st).st);
      }
    }
  }

  /** A successful evaluation ends in the very same state under any weaker flag set. */
  lemma EvalIsSoft(script: Bytes, loose: Flags, tight: Flags, checker: Checker, sv: SigVersion, stack: Stack)
    requires loose <= tight
    ensures Eval(Env(script, tight, checker, sv), stack).Next?
            ==> Eval(Env(script, loose, checker, sv), stack) == Eval(Env(script, tight, checker, sv), stack)
  {
    if Eval(Env(script, tight, checker, sv), stack).Next? {
      RunIsSoft(Env(script, loose, checker, sv), tight, 0, [], Start(stack));
    }
  }

  lemma WitnessIsSoft(wit: Stack, version: nat, program: Bytes, loose: Flags, tight: Flags, checker: Checker)
    requires loose <= tight
    requires WitnessError(wit, version, program, tight, checker).None?
    ensures WitnessError(wit, version, program, loose, checker).None?
  {
    if version == 0 {
      if |program| == 32 {
        EvalIsSoft(Top(wit, 1), loose, tight, checker, WITNESS_V0, Below(wit, 1));
      } else {
        EvalIsSoft(KeyHashScript(program), loose, tight, checker, WITNESS_V0, wit);
      }
    }
  }

  /** What acceptance under a flag set amounts to, once the scripts ran. */
  lemma RedeemIsSoft(scriptSig: Bytes, wit: Stack, loose: Flags, tight: Flags, checker: Checker, pushed: Stack,
                     had: bool)
    requires loose <= tight && P2SH in loose
    requires VerifyRedeem(scriptSig, wit, tight, checker, pushed, had) == Accept
    ensures VerifyRedeem(scriptSig, wit, loose, checker, pushed, had)
            == if WellFormed(loose) then Accept else AbortFlags
  {
    var redeem := Top(pushed, 1);
    EvalIsSoft(redeem, loose, tight, checker, BASE, Below(pushed, 1));
    if WITNESS in loose && WitnessProgram(redeem).Some? {
      var (version, program) := WitnessProgram(redeem).value;
      WitnessIsSoft(wit, version, program, loose, tight, checker);
    }
  }

  /** Soft-fork monotonicity, for all scripts, witnesses, checkers and flag sets: whatever is accepted
      under the larger set is accepted under the smaller one, if and only if the smaller one is a
      combination the verifier admits; otherwise its assert stops the run. */
  lemma VerifyScriptIsSoft(scriptSig: Bytes, scriptPubKey: Bytes, wit: Stack, loose: Flags, tight: Flags,
                           checker: Checker)
    requires loose <= tight
    requires VerifyScript(scriptSig, scriptPubKey, wit, tight, checker) == Accept
    ensures WellFormed(tight)
    ensures VerifyScript(scriptSig, scriptPubKey, wit, loose, checker)
            == if WellFormed(loose) then Accept else AbortFlags
  {
    EvalIsSoft(scriptSig, loose, tight, checker, BASE, []);
    var first := Eval(Env(scriptSig, tight, checker, BASE), []).st;
    EvalIsSoft(scriptPubKey, loose, tight, checker, BASE, first.stack);
    if WITNESS in tight && WitnessProgram(scriptPubKey).Some? {
      var (version, program) := WitnessProgram(scriptPubKey).value;
      WitnessIsSoft(wit, version, program, loose, tight, checker);
    } else if P2SH in loose && IsPayToScriptHash(scriptPubKey) {
      RedeemIsSoft(scriptSig, wit, loose, tight, checker, first.stack, false);
    }
  }
}
