/** The interpreter's loops as the program runs them, each proved equal to its specification. */
module InterpreterLoop {
  import opened Bytes
  import opened Script
  import opened Interpreter

  /** CastToBool: stop at the first nonzero byte. */
  method TestTruth(vch: Bytes) returns (value: bool)
    ensures value == CastToBool(vch)
  {
    var i := 0;
    while i < |vch|
      invariant 0 <= i <= |vch|
      invariant forall j :: 0 <= j < i ==> vch[j] == 0
    {
      if vch[i] != 0 {
        if i == |vch| - 1 && vch[i] == 0x80 { return false; }
        assert !IsFalsy(vch, i);
        return true;
      }
      i := i + 1;
    }
    return false;
  }

  /** Delete every signature's push from the code, in order. */
  method StripAll(env: Env, stack: Stack, isig: nat, nSigs: nat, code: Bytes) returns (r: Option<Bytes>)
    requires 1 <= isig && isig + nSigs <= |stack| + 1
    ensures r == StripSignatures(env, code, Slice(stack, isig, nSigs))
  {
    var k, scriptCode := 0, code;
    ghost var sigs := Slice(stack, isig, nSigs);
    assert sigs[0..] == sigs;
    while k < nSigs
      invariant 0 <= k <= nSigs
      invariant StripSignatures(env, code, sigs) == StripSignatures(env, scriptCode, sigs[k..])
    {
      if env.sigversion == BASE {
        assert sigs[k..][1..] == sigs[k + 1..];
        var found, rest := FindAndDelete(scriptCode, PushData(Top(stack, isig + k)));
        if found > 0 && CONST_SCRIPTCODE in env.flags { return None; }
        scriptCode := rest;
      }
      k := k + 1;
    }
    return Some(scriptCode);
  }

  /** The signature-matching loop, by stack positions. */
  method MatchLoop(env: Env, code: Bytes, stack: Stack, nKeys: nat, nSigs: nat, start: nat) returns (r: Matching)
    requires nSigs <= nKeys && nKeys + nSigs + 3 <= |stack|
    ensures r == MatchSignatures(env, code, Slice(stack, nKeys + 3, nSigs), Slice(stack, 2, nKeys), start)
  {
    ghost var keys, sigs := Slice(stack, 2, nKeys), Slice(stack, nKeys + 3, nSigs);
    assert keys[0..] == keys && sigs[0..] == sigs;
    var ikey, isig, keysLeft, sigsLeft, checks := 2, nKeys + 3, nKeys, nSigs, start;
    var success := true;
    while success && sigsLeft > 0
      invariant 0 <= sigsLeft <= nSigs && 0 <= keysLeft <= nKeys
      invariant ikey == 2 + nKeys - keysLeft && isig == nKeys + 3 + nSigs - sigsLeft
      invariant success ==> sigsLeft <= keysLeft
      invariant success ==> MatchSignatures(env, code, sigs, keys, start)
                            == MatchSignatures(env, code, sigs[nSigs - sigsLeft..], keys[nKeys - keysLeft..], checks)
      invariant !success ==> MatchSignatures(env, code, sigs, keys, start) == Matched(false, checks)
      decreases keysLeft
    {
      ghost var s, k := sigs[nSigs - sigsLeft..], keys[nKeys - keysLeft..];
      var sig, key := Top(stack, isig), Top(stack, ikey);
      assert s[0] == sig && k[0] == key;
      match EncodingError(env, sig, key)
      case Some(e) => return Refused(e, checks);
      case None =>
        if env.checker.checkSig(sig, key, code, env.sigversion) {
          assert s[1..] == sigs[nSigs - (sigsLeft - 1)..];
          isig := isig + 1;
          sigsLeft := sigsLeft - 1;
        }
        assert k[1..] == keys[nKeys - (keysLeft - 1)..];
        checks := checks + 1;
        ikey := ikey + 1;
        keysLeft := keysLeft - 1;
        if sigsLeft > keysLeft { success := false; }
    }
    return Matched(success, checks);
  }

  /** Popping the arguments: after a failure the last nSigs pops before the dummy must be of empty
      elements under NULLFAIL, told by counting the others down. */
  method PopArguments(stack: Stack, nKeys: nat, nSigs: nat, strict: bool) returns (ok: bool, rest: Stack)
    requires nKeys + nSigs + 3 <= |stack|
    ensures ok <==> (strict ==> AllEmpty(Slice(stack, nKeys + 3, nSigs)))
    ensures ok ==> rest == Below(stack, nKeys + nSigs + 2)
  {
    var i, others := nKeys + nSigs + 3, nKeys + 2;
    rest := stack;
    ghost var sigs := Slice(stack, nKeys + 3, nSigs);
    while i > 1
      invariant 1 <= i <= nKeys + nSigs + 3
      invariant rest == stack[..|stack| - (nKeys + nSigs + 3 - i)]
      invariant others == if nKeys + nSigs + 3 - i <= nKeys + 2 then i - nSigs - 1 else 0
      invariant strict ==> forall j :: 0 <= j < nSigs && j < nSigs + 1 - i ==> |sigs[j]| == 0
      decreases i
    {
      if strict && others == 0 && |Top(rest, 1)| > 0 {
        assert Top(rest, 1) == sigs[nSigs + 1 - i];
        return false, rest;
      }
      if others == 0 { assert Top(rest, 1) == sigs[nSigs + 1 - i]; }
      if others > 0 { others := others - 1; }
      rest := Below(rest, 1);
      i := i - 1;
    }
    ok := true;
  }

  /** OP_CHECKMULTISIG after its two counts were read. The test for an empty stack before the dummy
      is popped cannot succeed. */
  method RunMultisig(env: Env, op: byte, st: State, nKeys: nat, nSigs: nat) returns (r: Outcome)
    requires st.codeStart <= |env.script|
    requires nSigs <= nKeys && nKeys + nSigs + 3 <= |st.stack|
    ensures r == CheckMultisig(env, op, st, nKeys, nSigs)
  {
    var code := StripAll(env, st.stack, nKeys + 3, nSigs, env.script[st.codeStart..]);
    if code.None? { return Bad(SIG_FINDANDDELETE, st); }
    var m := MatchLoop(env, code.value, st.stack, nKeys, nSigs, st.sigChecks);
    if m.Refused? { return Fail(m.error, m.checks); }
    var ok, rest := PopArguments(st.stack, nKeys, nSigs, !m.success && NULLFAIL in env.flags);
    if !ok { return Fail(SIG_NULLFAIL, m.checks); }
    assert |rest| >= 1;
    assert Top(rest, 1) == Top(st.stack, nKeys + nSigs + 3);
    if NULLDUMMY in env.flags && |Top(rest, 1)| > 0 { return Fail(SIG_NULLDUMMY, m.checks); }
    rest := Below(rest, 1);
    assert rest == Below(st.stack, nKeys + nSigs + 3);
    r := Verdict(op == OP_CHECKMULTISIGVERIFY, m.success, CHECKMULTISIGVERIFY_FAILED,
        st.(stack := rest, sigChecks := m.checks));
  }

  /** EvalScript's main loop. */
  method EvalScript(env: Env, stack: Stack) returns (r: Outcome)
    ensures r == Eval(env, stack)
  {
    if |env.script| > MAX_SCRIPT_SIZE { return Fail(SCRIPT_SIZE, 0); }
    var pc, vfExec, st := 0, [], Start(stack);
    while pc < |env.script|
      invariant 0 <= pc <= |env.script| && st.codeStart <= |env.script|
      invariant Eval(env, stack) == RunFrom(env, pc, vfExec, st)
      decreases |env.script| - pc
    {
      var f := GetOp(env.script, pc);
      if f.NoOp? { return Bad(BAD_OPCODE, st); }
      if IsConditional(f.opcode) {
        var t := Branch(env, f.opcode, vfExec, st);
        if t.Halt? { return Fail(t.error, t.sigChecks); }
        vfExec, st := t.exec, t.st;
      } else {
        r := Step(env, f.opcode, f.data, f.next, AllTrue(vfExec), st);
        if r.Fail? { return; }
        st := r.st;
      }
      pc := f.next;
    }
    return if vfExec != [] then Bad(UNBALANCED_CONDITIONAL, st) else Next(st);
  }
}
