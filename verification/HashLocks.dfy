/** Outputs locked by a hash: which secret opens each of the five hash opcodes. */
module HashLocks {
  import opened Bytes
  import opened Script
  import opened Interpreter
  import opened Verify
  import opened Payments
  import Pushes

  /** The five digests, by opcode. */
  function DigestOf(op: byte, x: Bytes, checker: Checker): Bytes
    requires 0xa6 <= op <= 0xaa
  {
    match op
    case 0xa6 => checker.ripemd160(x)
    case 0xa7 => checker.sha1(x)
    case 0xa8 => checker.sha256(x)
    case 0xa9 => checker.ripemd160(checker.sha256(x))
    case 0xaa => checker.sha256(checker.sha256(x))
  }

  /** A hash opcode, the push of a digest, and EQUAL. */
  function LockScript(op: byte, h: Bytes): Bytes
    requires 2 <= |h| <= 75
  {
    [op, |h|] + h + [0x87]
  }

  lemma LockLayout(op: byte, h: Bytes)
    requires 0xa6 <= op <= 0xaa && 2 <= |h| <= 75
    ensures var s := LockScript(op, h); var n := |h| + 2;
            |s| == n + 1 && GetOp(s, 0) == Op(op, [], 1) && GetOp(s, 1) == Op(|h|, h, n)
                && GetOp(s, n) == Op(OP_EQUAL, [], n + 1)
    ensures WitnessProgram(LockScript(op, h)) == None
    ensures IsPayToScriptHash(LockScript(op, h)) <==> op == 0xa9 && |h| == 20
  {
    var s := LockScript(op, h);
    assert s[2..|h| + 2] == h;
  }

  lemma HashStep(env: Env, op: byte, next: nat, st: State)
    requires 0xa6 <= op <= 0xaa
    requires st.codeStart <= |env.script| && next <= |env.script| && st.opCount < MAX_OPS_PER_SCRIPT
    ensures Step(env, op, [], next, true, st)
         == if st.stack == [] then Bad(INVALID_STACK_OPERATION, st)
            else Sized(st.(stack := Below(st.stack, 1) + [DigestOf(op, Top(st.stack, 1), env.checker)],
                 opCount := st.opCount + 1))
  {
    hide Step;
    StepOf(env, op, next, st);
  }

  lemma PushStep(env: Env, h: Bytes, next: nat, st: State)
    requires st.codeStart <= |env.script| && next <= |env.script| && 2 <= |h| <= 75
    ensures Step(env, |h|, h, next, true, st) == Sized(st.(stack := st.stack + [h]))
  {
    Pushes.PushIsMinimal(h);
    hide CheckMinimalPush, Exec;
  }

  /** The lock opens exactly on an element with the digest, and leaves true in its place. */
  lemma LockEval(env: Env, op: byte, h: Bytes, stack: Stack)
    requires 0xa6 <= op <= 0xaa && 2 <= |h| <= 75 && env.script == LockScript(op, h)
    ensures var r := Eval(env, stack);
            (EndsTrue(r) <==> 1 <= |stack| <= MAX_STACK_SIZE - 1 && DigestOf(op, Top(stack, 1), env.checker) == h)
            && (EndsTrue(r) ==> r.st.stack == Below(stack, 1) + [[1]])
  {
    hide RunFrom, Step, GetOp, LockScript, CastToBool, IsPayToScriptHash, WitnessProgram, DigestOf;
    LockLayout(op, h);
    var st, n := Start(stack), |h| + 2;
    RunOne(env, 0, op, [], 1, st);
    HashStep(env, op, 1, st);
    if stack != [] && |stack| <= MAX_STACK_SIZE {
      var x := DigestOf(op, Top(stack, 1), env.checker);
      var st1 := st.(stack := Below(stack, 1) + [x], opCount := 1);
      RunOne(env, 1, |h|, h, n, st1);
      PushStep(env, h, n, st1);
      if |stack| + 1 <= MAX_STACK_SIZE {
        var st2 := st1.(stack := st1.stack + [h]);
        RunOne(env, n, OP_EQUAL, [], n + 1, st2);
        Compare(env, OP_EQUAL, n + 1, st2);
        TruthIsTrue(x == h);
        var st3 := st2.(stack := Below(st2.stack, 2), opCount := 2);
        assert st3.stack == Below(stack, 1);
        RunEnds(env, Push(st3, Truth(x == h)));
      }
    }
  }

  /** An output locked by a digest is spent exactly by an input that leaves an element with that digest on top. The
      one lock with a meaning of its own is HASH160 of 20 bytes under P2SH. */
  lemma HashLockIff(op: byte, h: Bytes, scriptSig: Bytes, wit: Stack, flags: Flags, checker: Checker)
    requires 0xa6 <= op <= 0xaa && 2 <= |h| <= 75 && WellFormed(flags)
    requires !(op == 0xa9 && |h| == 20 && P2SH in flags)
    ensures var first := Eval(Env(scriptSig, flags, checker, BASE), []);
            VerifyScript(scriptSig, LockScript(op, h), wit, flags, checker) == Accept
            <==> PushesOnlyIfAsked(flags, scriptSig) && first.Next? && 1 <= |first.st.stack| <= MAX_STACK_SIZE - 1
                 && DigestOf(op, Top(first.st.stack, 1), checker) == h && TidyIfAsked(flags, |first.st.stack|, wit)
  {
    hide VerifyScript, Eval, EndsTrue, DigestOf, LockScript, TidyIfAsked, WitnessProgram, IsPayToScriptHash;
    LockLayout(op, h);
    VerifyScriptIff(scriptSig, LockScript(op, h), wit, flags, checker);
    var first := Eval(Env(scriptSig, flags, checker, BASE), []);
    if first.Next? { LockEval(Env(LockScript(op, h), flags, checker, BASE), op, h, first.st.stack); }
  }

  /** The same five locks behind a witness script hash: the secret is the only other element. */
  lemma WitnessHashLockIff(op: byte, h: Bytes, wit: Stack, flags: Flags, checker: Checker)
    requires 0xa6 <= op <= 0xaa && 2 <= |h| <= 75
    requires wit != [] && Top(wit, 1) == LockScript(op, h)
    ensures ScriptPays(checker.sha256(LockScript(op, h)), wit, flags, checker)
            <==> |wit| == 2 && |wit[0]| <= MAX_SCRIPT_ELEMENT_SIZE && DigestOf(op, wit[0], checker) == h
  {
    hide Eval, EndsTrue, DigestOf, LockScript;
    LockEval(Env(LockScript(op, h), flags, checker, WITNESS_V0), op, h, Below(wit, 1));
  }
}
