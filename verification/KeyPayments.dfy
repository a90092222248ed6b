/** Small whole scripts around one signature or one condition, each with exactly the inputs that spend it. */
module KeyPayments {
  import opened Bytes
  import opened Script
  import opened Interpreter
  import opened Verify
  import opened SignatureEncoding
  import opened Payments
  import opened Separators
  import HashLocks
  import ScriptNum

  // ----- A signature checked, step by step -----

  /** The signature and key on top, for this code: None when the check is refused. */
  ghost function Verified(env: Env, code: Bytes, sig: Bytes, key: Bytes): Option<bool> {
    var signed := StripSignatures(env, code, [sig]);
    if signed.None? || !FollowRules(env, sig, key) then None else
      var valid := env.checker.checkSig(sig, key, signed.value, env.sigversion);
      if !valid && NULLFAIL in env.flags && sig != [] then None else Some(valid)
  }

  /** The code a signature covers: in a witness script all of it; before segwit without the signature's own pushes,
      unless the code is to be constant and there are some. */
  lemma CodeOf(env: Env, code: Bytes, sig: Bytes)
    ensures env.sigversion == WITNESS_V0 ==> StripSignatures(env, code, [sig]) == Some(code)
    ensures env.sigversion == BASE ==>
              var d := Delete(code, PushData(sig));
              StripSignatures(env, code, [sig])
              == if CONST_SCRIPTCODE in env.flags && d.found > 0 then None else Some(d.rest)
  {
    hide Delete, PushData;
    if env.sigversion == BASE {
      assert StripSignatures(env, Delete(code, PushData(sig)).rest, [sig][1..]).Some?;
    }
  }

  lemma SignatureStep(env: Env, next: nat, st: State)
    requires st.codeStart <= |env.script| && next <= |env.script| && st.opCount < MAX_OPS_PER_SCRIPT
    requires 2 <= |st.stack| && |st.stack| + |st.alt| <= MAX_STACK_SIZE
    ensures var r := Step(env, OP_CHECKSIG, [], next, true, st);
            var v := Verified(env, env.script[st.codeStart..], Top(st.stack, 2), Top(st.stack, 1));
            if v.None? then r.Fail?
            else r == Next(st.(stack := Below(st.stack, 2) + [Truth(v.value)], opCount := st.opCount + 1,
                               sigChecks := st.sigChecks + 1))
  {
    hide Step, StripSignatures, EncodingError, FollowRules;
    RulesIff(env, Top(st.stack, 2), Top(st.stack, 1));
    StepOf(env, OP_CHECKSIG, next, st);
  }

  // ----- Pay to public key -----

  /** The push of a key and what is done with it. */
  function KeyScript(key: Bytes, ops: Bytes): Bytes
    requires 2 <= |key| <= 75
  {
    [|key|] + key + ops
  }

  lemma KeyLayout(key: Bytes, ops: Bytes)
    requires 2 <= |key| <= 75
    ensures var s := KeyScript(key, ops); var n := |key| + 1;
            |s| == n + |ops| && GetOp(s, 0) == Op(|key|, key, n) && s[n..] == ops
    ensures WitnessProgram(KeyScript(key, ops)) == None && !IsPayToScriptHash(KeyScript(key, ops))
  {
    assert KeyScript(key, ops)[1..|key| + 1] == key;
  }

  lemma OpAfterKey(key: Bytes, ops: Bytes, i: nat)
    requires 2 <= |key| <= 75 && i < |ops| && ops[i] > OP_PUSHDATA4
    ensures GetOp(KeyScript(key, ops), |key| + 1 + i) == Op(ops[i], [], |key| + 1 + i + 1)
  {
    assert KeyScript(key, ops)[|key| + 1 + i] == ops[i];
  }

  /** Up to the first opcode: the key lies on top of what the input left. */
  lemma KeyPushed(env: Env, key: Bytes, ops: Bytes, stack: Stack)
    requires 2 <= |key| <= 75 && |ops| <= 100 && env.script == KeyScript(key, ops)
    ensures Eval(env, stack)
         == if |stack| + 1 > MAX_STACK_SIZE then Fail(STACK_SIZE, 0)
            else RunFrom(env, |key| + 1, [], Start(stack + [key]))
  {
    hide RunFrom, Step, GetOp, KeyScript;
    KeyLayout(key, ops);
    RunOne(env, 0, |key|, key, |key| + 1, Start(stack));
    HashLocks.PushStep(env, key, |key| + 1, Start(stack));
  }

  lemma PubKeyEval(env: Env, key: Bytes, stack: Stack)
    requires 2 <= |key| <= 75 && env.script == KeyScript(key, [0xac])
    ensures var r := Eval(env, stack);
            (EndsTrue(r) <==> 1 <= |stack| <= MAX_STACK_SIZE - 1
                              && Verified(env, env.script, Top(stack, 1), key) == Some(true))
            && (EndsTrue(r) ==> |r.st.stack| == |stack|)
  {
    hide Eval, RunFrom, Step, GetOp, KeyScript, Verified, CastToBool;
    var n := |key| + 1;
    KeyPushed(env, key, [0xac], stack);
    KeyLayout(key, [0xac]);
    OpAfterKey(key, [0xac], 0);
    if |stack| + 1 <= MAX_STACK_SIZE {
      var st := Start(stack + [key]);
      RunOne(env, n, OP_CHECKSIG, [], n + 1, st);
      if stack == [] { NoSignature(env, n + 1, st); } else {
        SignatureStep(env, n + 1, st);
        assert env.script[0..] == env.script && Below(st.stack, 2) == Below(stack, 1);
        var v := Verified(env, env.script, Top(stack, 1), key);
        if v.Some? {
          TruthIsTrue(v.value);
          RunEnds(env, st.(stack := Below(stack, 1) + [Truth(v.value)], opCount := 1, sigChecks := 1));
        }
      }
    }
  }

  lemma NoSignature(env: Env, next: nat, st: State)
    requires st.codeStart <= |env.script| && next <= |env.script| && st.opCount < MAX_OPS_PER_SCRIPT
    requires |st.stack| < 2
    ensures Step(env, OP_CHECKSIG, [], next, true, st).Fail?
  {
    hide Step;
    StepOf(env, OP_CHECKSIG, next, st);
  }

  /** An output to a key is spent exactly by a signature for it, over the output script itself. */
  lemma PayToPubKeyIff(key: Bytes, scriptSig: Bytes, wit: Stack, flags: Flags, checker: Checker)
    requires 2 <= |key| <= 75 && WellFormed(flags)
    ensures var first := Eval(Env(scriptSig, flags, checker, BASE), []);
            var script := KeyScript(key, [0xac]);
            VerifyScript(scriptSig, script, wit, flags, checker) == Accept
            <==> PushesOnlyIfAsked(flags, scriptSig) && first.Next? && 1 <= |first.st.stack| <= MAX_STACK_SIZE - 1
                 && Verified(Env(script, flags, checker, BASE), script, Top(first.st.stack, 1), key) == Some(true)
                 && TidyIfAsked(flags, |first.st.stack|, wit)
  {
    hide VerifyScript, Eval, EndsTrue, KeyScript, Verified, TidyIfAsked, GetOp;
    var script := KeyScript(key, [0xac]);
    KeyLayout(key, [0xac]);
    VerifyScriptIff(scriptSig, script, wit, flags, checker);
    var first := Eval(Env(scriptSig, flags, checker, BASE), []);
    if first.Next? { PubKeyEval(Env(script, flags, checker, BASE), key, first.st.stack); }
  }

  // ----- The same behind a code separator -----

  /** One opcode cannot hold the push of a signature. */
  lemma NothingToStrip(env: Env, sig: Bytes)
    ensures StripSignatures(env, [0xac], [sig]) == Some([0xac])
  {
    var b := PushData(sig);
    assert |b| >= 1 && b[0] == PushHeader(|sig|)[0] && b[0] <= OP_PUSHDATA4;
    assert !MatchesAt([0xac], b, 0) && !MatchesAt([0xac], b, 1);
    assert GetOp([0xac], 0) == Op(0xac, [], 1) && GetOp([0xac], 1) == NoOp;
    hide MatchesAt, GetOp;
    assert DeleteFrom([0xac], b, 1) == Deletion(0, []);
    assert DeleteFrom([0xac], b, 0) == Deletion(0, [0xac]);
    hide DeleteFrom;
    assert StripSignatures(env, [0xac], [sig][1..]) == Some([0xac]);
  }

  lemma CheckAlone(env: Env, st: State)
    requires env.script == [0xac] && st.codeStart == 0 && st.opCount < MAX_OPS_PER_SCRIPT
    requires 1 <= |st.stack| && |st.stack| + |st.alt| <= MAX_STACK_SIZE
    ensures var r := RunFrom(env, 0, [], st);
            (EndsTrue(r) <==> 2 <= |st.stack|
                              && Verified(env, [0xac], Top(st.stack, 2), Top(st.stack, 1)) == Some(true))
            && (EndsTrue(r) ==> |r.st.stack| == |st.stack| - 1)
  {
    assert GetOp(env.script, 0) == Op(0xac, [], 1);
    hide RunFrom, Step, GetOp, Verified, CastToBool;
    RunOne(env, 0, OP_CHECKSIG, [], 1, st);
    if |st.stack| < 2 { NoSignature(env, 1, st); } else {
      SignatureStep(env, 1, st);
      assert env.script[0..] == [0xac];
      var v := Verified(env, [0xac], Top(st.stack, 2), Top(st.stack, 1));
      if v.Some? {
        TruthIsTrue(v.value);
        RunEnds(env, st.(stack := Below(st.stack, 2) + [Truth(v.value)], opCount := st.opCount + 1,
            sigChecks := st.sigChecks + 1));
      }
    }
  }

  lemma SeparatedEval(env: Env, key: Bytes, stack: Stack)
    requires 2 <= |key| <= 75 && env.script == KeyScript(key, [0xab, 0xac])
    ensures var r := Eval(env, stack);
            (EndsTrue(r) <==> !(env.sigversion == BASE && CONST_SCRIPTCODE in env.flags)
                              && 1 <= |stack| <= MAX_STACK_SIZE - 1
                              && Verified(env.(script := [0xac]), [0xac], Top(stack, 1), key) == Some(true))
            && (EndsTrue(r) ==> |r.st.stack| == |stack|)
  {
    hide Eval, RunFrom, GetOp, KeyScript, Verified, CastToBool;
    KeyPushed(env, key, [0xab, 0xac], stack);
    if |stack| + 1 <= MAX_STACK_SIZE {
      var u := [|key| as byte] + key;
      assert env.script == u + [0xab] + [0xac] by { SeparatedIs(key); }
      var st := Start(stack + [key]);
      SeparatorStarts(u, [0xac], env, [], st);
      CheckAlone(env.(script := [0xac]), st.(opCount := 1));
    }
  }

  lemma SeparatedIs(key: Bytes)
    requires 2 <= |key| <= 75
    ensures KeyScript(key, [0xab, 0xac]) == [|key| as byte] + key + [0xab] + [0xac]
  {}

  /** With a separator before CHECKSIG the signature covers that one opcode and nothing else. */
  lemma PayAfterSeparatorIff(key: Bytes, scriptSig: Bytes, wit: Stack, flags: Flags, checker: Checker)
    requires 2 <= |key| <= 75 && WellFormed(flags)
    ensures var first := Eval(Env(scriptSig, flags, checker, BASE), []);
            VerifyScript(scriptSig, KeyScript(key, [0xab, 0xac]), wit, flags, checker) == Accept
            <==> PushesOnlyIfAsked(flags, scriptSig) && CONST_SCRIPTCODE !in flags
                 && first.Next? && 1 <= |first.st.stack| <= MAX_STACK_SIZE - 1
                 && FollowRules(Env([0xac], flags, checker, BASE), Top(first.st.stack, 1), key)
                 && checker.checkSig(Top(first.st.stack, 1), key, [0xac], BASE)
                 && TidyIfAsked(flags, |first.st.stack|, wit)
  {
    hide VerifyScript, Eval, EndsTrue, KeyScript, TidyIfAsked, GetOp, StripSignatures, FollowRules;
    var script := KeyScript(key, [0xab, 0xac]);
    KeyLayout(key, [0xab, 0xac]);
    VerifyScriptIff(scriptSig, script, wit, flags, checker);
    var first := Eval(Env(scriptSig, flags, checker, BASE), []);
    if first.Next? {
      SeparatedEval(Env(script, flags, checker, BASE), key, first.st.stack);
      if first.st.stack != [] { NothingToStrip(Env([0xac], flags, checker, BASE), Top(first.st.stack, 1)); }
    }
  }

  // ----- A signature that must fail -----

  lemma NotStep(env: Env, b: bool, next: nat, st: State)
    requires st.codeStart <= |env.script| && next <= |env.script| && st.opCount < MAX_OPS_PER_SCRIPT
    requires 1 <= |st.stack| && |st.stack| + |st.alt| <= MAX_STACK_SIZE && Top(st.stack, 1) == Truth(b)
    ensures Step(env, 0x91, [], next, true, st)
         == Next(st.(stack := Below(st.stack, 1) + [Truth(!b)], opCount := st.opCount + 1))
  {
    assert ScriptNum.Decode([]) == 0;
    assert [] + [1 % 128] == [1] && LeNat([1]) == 1;
    assert ScriptNum.Decode([1]) == 1;
    assert ScriptNum.Encode(0) == [] && NatLe(1) == [1] && ScriptNum.Encode(1) == [1];
    hide ScriptNum.Decode, ScriptNum.Encode;
    hide StackOp, EqualOp, BinaryOp, WithinOp, HashOp, LockOp, SigOp, MultisigOp, CastToBool;
  }

  lemma RefusalEval(env: Env, key: Bytes, stack: Stack)
    requires 2 <= |key| <= 75 && env.script == KeyScript(key, [0xac, 0x91])
    ensures var r := Eval(env, stack);
            (EndsTrue(r) <==> 1 <= |stack| <= MAX_STACK_SIZE - 1
                              && Verified(env, env.script, Top(stack, 1), key) == Some(false))
            && (EndsTrue(r) ==> |r.st.stack| == |stack|)
  {
    hide Eval, RunFrom, Step, GetOp, KeyScript, Verified, CastToBool;
    var n := |key| + 1;
    KeyPushed(env, key, [0xac, 0x91], stack);
    KeyLayout(key, [0xac, 0x91]);
    OpAfterKey(key, [0xac, 0x91], 0);
    OpAfterKey(key, [0xac, 0x91], 1);
    if |stack| + 1 <= MAX_STACK_SIZE {
      var st := Start(stack + [key]);
      RunOne(env, n, OP_CHECKSIG, [], n + 1, st);
      if stack == [] { NoSignature(env, n + 1, st); } else {
        SignatureStep(env, n + 1, st);
        assert env.script[0..] == env.script && Below(st.stack, 2) == Below(stack, 1);
        var v := Verified(env, env.script, Top(stack, 1), key);
        if v.Some? {
          var st1 := st.(stack := Below(stack, 1) + [Truth(v.value)], opCount := 1, sigChecks := 1);
          RunOne(env, n + 1, 0x91, [], n + 2, st1);
          NotStep(env, v.value, n + 2, st1);
          TruthIsTrue(!v.value);
          RunEnds(env, st1.(stack := Below(st1.stack, 1) + [Truth(!v.value)], opCount := 2));
        }
      }
    }
  }

  /** CHECKSIG NOT is satisfied exactly by a signature that follows the rules and does not check; under NULLFAIL only
      by the empty one. */
  lemma PayToRefusalIff(key: Bytes, scriptSig: Bytes, wit: Stack, flags: Flags, checker: Checker)
    requires 2 <= |key| <= 75 && WellFormed(flags)
    ensures var first := Eval(Env(scriptSig, flags, checker, BASE), []);
            var script := KeyScript(key, [0xac, 0x91]);
            VerifyScript(scriptSig, script, wit, flags, checker) == Accept
            <==> PushesOnlyIfAsked(flags, scriptSig) && first.Next? && 1 <= |first.st.stack| <= MAX_STACK_SIZE - 1
                 && TidyIfAsked(flags, |first.st.stack|, wit)
                 && var sig, env := Top(first.st.stack, 1), Env(script, flags, checker, BASE);
                    var code := StripSignatures(env, script, [sig]);
                    code.Some? && FollowRules(env, sig, key) && !checker.checkSig(sig, key, code.value, BASE)
                    && (NULLFAIL in flags ==> sig == [])
  {
    hide VerifyScript, Eval, EndsTrue, KeyScript, TidyIfAsked, GetOp, StripSignatures, FollowRules;
    var script := KeyScript(key, [0xac, 0x91]);
    KeyLayout(key, [0xac, 0x91]);
    VerifyScriptIff(scriptSig, script, wit, flags, checker);
    var first := Eval(Env(scriptSig, flags, checker, BASE), []);
    if first.Next? { RefusalEval(Env(script, flags, checker, BASE), key, first.st.stack); }
  }
}
