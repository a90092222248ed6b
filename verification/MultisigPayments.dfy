/** Outputs to several keys: exactly which signatures satisfy a multisig script. */
module MultisigPayments {
  import opened Bytes
  import opened Script
  import opened Interpreter
  import opened Verify
  import opened Multisig
  import opened Payments
  import opened SignatureEncoding
  import opened Standard
  import Expressions
  import Pushes
  import ScriptNum

  // ----- The pushes before the opcode -----

  lemma SmallIntStep(env: Env, n: nat, next: nat, st: State)
    requires 1 <= n <= 16 && st.codeStart <= |env.script| && next <= |env.script|
    ensures Step(env, SmallInt(n), [], next, true, st) == Sized(Push(st, ScriptNum.Encode(n)))
  {
    hide ScriptNum.Encode;
  }

  lemma KeyStep(env: Env, key: Bytes, next: nat, st: State)
    requires ValidKey(key) && st.codeStart <= |env.script| && next <= |env.script|
    ensures PushHeader(|key|) == [|key|] && !IsConditional(|key|)
    ensures Step(env, |key|, key, next, true, st) == Sized(Push(st, key))
  {
    Pushes.PushIsMinimal(key);
    hide CheckMinimalPush, Exec;
  }

  /** Below the limit a run over key pushes puts the keys on the stack in order; above it, it fails. */
  lemma {:induction false} KeysRun(env: Env, before: Bytes, keys: seq<Bytes>, after: Bytes, st: State)
    requires env.script == before + KeyPushes(keys) + after && st.codeStart <= |env.script|
    requires (forall i :: 0 <= i < |keys| ==> ValidKey(keys[i])) && |st.stack| + |st.alt| <= MAX_STACK_SIZE
    ensures if |st.stack| + |st.alt| + |keys| <= MAX_STACK_SIZE
            then RunFrom(env, |before|, [], st) == RunFrom(env, |before| + |KeyPushes(keys)|, [],
                 st.(stack := st.stack + keys))
            else RunFrom(env, |before|, [], st).Fail?
    decreases |keys|
  {
    hide RunFrom, Step, GetOp, ValidKey, PushHeader;
    if keys == [] {
      assert st.stack + keys == st.stack;
    } else {
      var key, rest := keys[0], KeyPushes(keys[1..]);
      var next := |before| + |PushData(key)|;
      KeyFits(key);
      Shift(before, PushData(key), rest, after);
      GetOpOfPush(before, key, rest + after);
      KeyStep(env, key, next, st);
      RunOne(env, |before|, |key|, key, next, st);
      if |st.stack| + |st.alt| < MAX_STACK_SIZE {
        KeysRun(env, before + PushData(key), keys[1..], after, Push(st, key));
        assert st.stack + [key] + keys[1..] == st.stack + keys;
      }
    }
  }

  lemma {:induction false} PushesAreShort(keys: seq<Bytes>)
    requires forall i :: 0 <= i < |keys| ==> ValidKey(keys[i])
    ensures 34 * |keys| <= |KeyPushes(keys)| <= 66 * |keys|
    decreases |keys|
  {
    if keys != [] {
      assert ValidKey(keys[0]);
      PushesAreShort(keys[1..]);
    }
  }

  // ----- The opcode -----

  /** Every pair the pass over the keys tries follows the rules for encodings. */
  ghost predicate TriedFollow(env: Env, code: Bytes, sigs: seq<Bytes>, keys: seq<Bytes>) {
    forall i: nat, j: nat :: Tries(env, code, sigs, keys, i, j) ==> FollowRules(env, sigs[i], keys[j])
  }

  lemma TriedFollowIff(env: Env, code: Bytes, sigs: seq<Bytes>, keys: seq<Bytes>)
    requires |sigs| <= |keys|
    ensures MatchSignatures(env, code, sigs, keys, 0).Matched? <==> TriedFollow(env, code, sigs, keys)
  {
    hide MatchSignatures, FollowRules, EncodingError;
    MatchedIff(env, code, sigs, keys, 0);
    forall i: nat, j: nat | Tries(env, code, sigs, keys, i, j)
      ensures EncodingError(env, sigs[i], keys[j]).None? <==> FollowRules(env, sigs[i], keys[j])
    {
      RulesIff(env, sigs[i], keys[j]);
    }
  }

  /** Signatures from the stack, nearest the top first, can be assigned in order to the keys, last key first, and
      what is tried on the way is well encoded. */
  ghost predicate MultisigPays(env: Env, m: nat, keys: seq<Bytes>, stack: Stack) {
    m + 1 <= |stack| <= MAX_STACK_SIZE - 2 - |keys| &&
    var sigs, back := Slice(stack, 1, m), Slice(keys, 1, |keys|);
    var code := StripSignatures(env, env.script, sigs);
    code.Some? && Assignable(env, code.value, sigs, back) && TriedFollow(env, code.value, sigs, back)
    && (NULLDUMMY in env.flags ==> |Top(stack, m + 1)| == 0)
  }

  /** The stack as the opcode finds it. */
  function Laid(stack: Stack, m: nat, keys: seq<Bytes>): Stack {
    stack + [ScriptNum.Encode(m)] + keys + [ScriptNum.Encode(|keys|)]
  }

  /** The part of the stack a slice reads. */
  function Window(s: Stack, k: nat, n: nat): (w: Stack)
    requires 1 <= k && k + n <= |s| + 1
    ensures |w| == n
  {
    s[|s| + 1 - k - n..|s| + 1 - k]
  }

  lemma {:induction false} SlicesAgree(s: Stack, k: nat, t: Stack, j: nat, n: nat)
    requires 1 <= k && k + n <= |s| + 1 && 1 <= j && j + n <= |t| + 1
    requires Window(s, k, n) == Window(t, j, n)
    ensures Slice(s, k, n) == Slice(t, j, n)
    decreases n
  {
    if n > 0 {
      assert Top(s, k) == Window(s, k, n)[n - 1] && Top(t, j) == Window(t, j, n)[n - 1];
      assert Window(s, k + 1, n - 1) == Window(s, k, n)[..n - 1] && Window(t, j + 1, n - 1) == Window(t, j, n)[..n - 1];
      SlicesAgree(s, k + 1, t, j + 1, n - 1);
    }
  }

  lemma LaidParts(stack: Stack, m: nat, keys: seq<Bytes>)
    ensures var s := Laid(stack, m, keys); var n := |keys|;
            |s| == |stack| + n + 2 && Top(s, 1) == ScriptNum.Encode(n) && Top(s, n + 2) == ScriptNum.Encode(m)
            && Slice(s, 2, n) == Slice(keys, 1, n)
            && (m + 1 <= |stack| ==> Slice(s, n + 3, m) == Slice(stack, 1, m) && Top(s, n + m + 3) == Top(stack, m + 1)
                                     && Below(s, n + m + 3) == Below(stack, m + 1))
  {
    hide ScriptNum.Encode;
    var s, n := Laid(stack, m, keys), |keys|;
    assert Window(s, 2, n) == keys == Window(keys, 1, n);
    SlicesAgree(s, 2, keys, 1, n);
    if m + 1 <= |stack| {
      assert Window(s, n + 3, m) == stack[|stack| - m..] == Window(stack, 1, m);
      SlicesAgree(s, n + 3, stack, 1, m);
      assert Below(s, n + m + 3) == Below(stack, m + 1);
    }
  }

  /** Passing the pass over the keys, and the two optional rules, is what makes the result true. */
  lemma CheckMultisigTrue(env: Env, st: State, n: nat, m: nat)
    requires st.codeStart == 0 && m <= n && n + m + 3 <= |st.stack| && st.sigChecks == 0
    ensures var r := CheckMultisig(env, OP_CHECKMULTISIG, st, n, m);
            var sigs, keys := Slice(st.stack, n + 3, m), Slice(st.stack, 2, n);
            var code := StripSignatures(env, env.script, sigs);
            (EndsTrue(r) <==> code.Some? && Assignable(env, code.value, sigs, keys)
                              && TriedFollow(env, code.value, sigs, keys)
                              && (NULLDUMMY in env.flags ==> |Top(st.stack, n + m + 3)| == 0))
            && (EndsTrue(r) ==> r.st.stack == Below(st.stack, n + m + 3) + [[1]] && r.st.alt == st.alt)
  {
    hide CastToBool, StripSignatures, MatchSignatures, Assignable, TriedFollow, Slice;
    assert env.script[0..] == env.script;
    TruthIsTrue(true);
    TruthIsTrue(false);
    var sigs, keys := Slice(st.stack, n + 3, m), Slice(st.stack, 2, n);
    var code := StripSignatures(env, env.script, sigs);
    if code.Some? {
      TriedFollowIff(env, code.value, sigs, keys);
      if MatchSignatures(env, code.value, sigs, keys, 0).Matched? { GreedyIsComplete(env, code.value, sigs, keys, 0); }
    }
  }

  /** A count on the stack, of at most four bytes. */
  function Count(env: Env, x: Bytes): Option<int> { ScriptNum.Parse(x, MINIMALDATA in env.flags, 4) }

  /** What the two opcodes ask for: counts in range, a code without the signatures, pairs that follow the rules, an
      empty dummy and empty failed signatures where the flags want them. */
  ghost predicate Completes(env: Env, op: byte, st: State)
    requires st.codeStart <= |env.script|
  {
    var s := st.stack;
    1 <= |s| && Count(env, Top(s, 1)).Some? &&
    var n := Count(env, Top(s, 1)).value;
    0 <= n <= 20 && st.opCount + n <= 201 && n + 2 <= |s| && Count(env, Top(s, n + 2)).Some? &&
    var m := Count(env, Top(s, n + 2)).value;
    0 <= m <= n && n + m + 3 <= |s| &&
    var sigs, keys := Slice(s, n + 3, m), Slice(s, 2, n);
    var code := StripSignatures(env, env.script[st.codeStart..], sigs);
    code.Some? && TriedFollow(env, code.value, sigs, keys)
    && (NULLDUMMY in env.flags ==> Top(s, n + m + 3) == [])
    && (!Assignable(env, code.value, sigs, keys)
        ==> op == OP_CHECKMULTISIG && (NULLFAIL in env.flags ==> forall i :: 0 <= i < m ==> sigs[i] == []))
  }

  lemma MatchedAnywhere(env: Env, code: Bytes, sigs: seq<Bytes>, keys: seq<Bytes>, checks: nat)
    requires |sigs| <= |keys|
    ensures MatchSignatures(env, code, sigs, keys, checks).Matched? <==> TriedFollow(env, code, sigs, keys)
    ensures MatchSignatures(env, code, sigs, keys, checks).Matched?
            ==> (MatchSignatures(env, code, sigs, keys, checks).success <==> Assignable(env, code, sigs, keys))
  {
    hide MatchSignatures, TriedFollow, Assignable;
    TriedFollowIff(env, code, sigs, keys);
    MatchedIff(env, code, sigs, keys, 0);
    MatchedIff(env, code, sigs, keys, checks);
    if MatchSignatures(env, code, sigs, keys, checks).Matched? { GreedyIsComplete(env, code, sigs, keys, checks); }
  }

  lemma CheckCompletes(env: Env, op: byte, st: State, n: nat, m: nat)
    requires op == OP_CHECKMULTISIG || op == OP_CHECKMULTISIGVERIFY
    requires st.codeStart <= |env.script| && m <= n && n + m + 3 <= |st.stack|
    ensures var sigs, keys := Slice(st.stack, n + 3, m), Slice(st.stack, 2, n);
            var code := StripSignatures(env, env.script[st.codeStart..], sigs);
            CheckMultisig(env, op, st, n, m).Next?
            <==> code.Some? && TriedFollow(env, code.value, sigs, keys)
                 && (NULLDUMMY in env.flags ==> Top(st.stack, n + m + 3) == [])
                 && (!Assignable(env, code.value, sigs, keys)
                     ==> op == OP_CHECKMULTISIG && (NULLFAIL in env.flags ==> forall i :: 0 <= i < m ==> sigs[i] == []))
  {
    hide StripSignatures, MatchSignatures, Assignable, TriedFollow, Slice;
    var sigs, keys := Slice(st.stack, n + 3, m), Slice(st.stack, 2, n);
    var code := StripSignatures(env, env.script[st.codeStart..], sigs);
    if code.Some? { MatchedAnywhere(env, code.value, sigs, keys, st.sigChecks); }
    assert AllEmpty(sigs) <==> forall i :: 0 <= i < m ==> sigs[i] == [];
  }

  /** Exactly when the two multisig opcodes complete, on any stack and under any flags. */
  lemma MultisigCompletesIff(env: Env, op: byte, st: State)
    requires op == OP_CHECKMULTISIG || op == OP_CHECKMULTISIGVERIFY
    requires st.codeStart <= |env.script|
    ensures MultisigOp(env, op, st).Next? <==> Completes(env, op, st)
  {
    hide StripSignatures, Assignable, TriedFollow, Slice, CheckMultisig, ScriptNum.Parse;
    var s := st.stack;
    if 1 <= |s| && Count(env, Top(s, 1)).Some? {
      var n := Count(env, Top(s, 1)).value;
      if 0 <= n && n + 2 <= |s| && Count(env, Top(s, n + 2)).Some? {
        var m := Count(env, Top(s, n + 2)).value;
        if 0 <= m <= n && n + m + 3 <= |s| { CheckCompletes(env, op, st.(opCount := st.opCount + n), n, m); }
      }
    }
  }

  lemma OpcodeStep(env: Env, next: nat, st: State)
    requires st.codeStart <= |env.script| && next <= |env.script| && st.opCount < MAX_OPS_PER_SCRIPT
    ensures Step(env, OP_CHECKMULTISIG, [], next, true, st)
         == Limit(MultisigOp(env, OP_CHECKMULTISIG, st.(opCount := st.opCount + 1)))
  {
    hide Limit, MultisigOp;
  }

  lemma MultisigTrue(env: Env, m: nat, keys: seq<Bytes>, stack: Stack, st: State)
    requires 1 <= m <= |keys| <= 16 && st.stack == Laid(stack, m, keys) && st.alt == [] && st.codeStart == 0
    requires st.sigChecks == 0
    requires st.opCount == 1 && |stack| + |keys| + 2 <= MAX_STACK_SIZE
    ensures var r := Limit(MultisigOp(env, OP_CHECKMULTISIG, st));
            (EndsTrue(r) <==> MultisigPays(env, m, keys, stack))
            && (EndsTrue(r) ==> r.st.stack == Below(stack, m + 1) + [[1]])
  {
    hide CastToBool, StripSignatures, TriedFollow, Assignable, Slice, Laid, CheckMultisig, ScriptNum.Encode;
    hide ScriptNum.Parse;
    var n := |keys|;
    LaidParts(stack, m, keys);
    Expressions.OperandFits(n, MINIMALDATA in env.flags);
    Expressions.OperandFits(m, MINIMALDATA in env.flags);
    if m + 1 <= |stack| {
      CheckMultisigTrue(env, st.(opCount := 1 + n), n, m);
    }
  }

  /** A multisig script accepts exactly a dummy and signatures that its keys check in order. */
  lemma MultisigEval(env: Env, m: nat, keys: seq<Bytes>, stack: Stack)
    requires 1 <= m <= |keys| <= 16 && forall i :: 0 <= i < |keys| ==> ValidKey(keys[i])
    requires env.script == MultisigScript(m, keys)
    ensures var r := Eval(env, stack);
            (EndsTrue(r) <==> MultisigPays(env, m, keys, stack))
            && (EndsTrue(r) ==> r.st.stack == Below(stack, m + 1) + [[1]])
  {
    hide RunFrom, Step, GetOp, ValidKey, KeyPushes, MultisigOp, ScriptNum.Encode, Limit;
    hide CastToBool, StripSignatures, TriedFollow, Assignable, Slice;
    MultisigLayout(m, keys);
    PushesAreShort(keys);
    var st := Start(stack);
    SmallIntStep(env, m, 1, st);
    RunOne(env, 0, SmallInt(m), [], 1, st);
    if |stack| + 1 <= MAX_STACK_SIZE {
      var st1 := Push(st, ScriptNum.Encode(m));
      KeysRun(env, [SmallInt(m)], keys, [SmallInt(|keys|), OP_CHECKMULTISIG], st1);
      if |stack| + 1 + |keys| <= MAX_STACK_SIZE { AfterKeys(env, m, keys, stack, st1.(stack := st1.stack + keys)); }
    }
  }

  lemma AfterKeys(env: Env, m: nat, keys: seq<Bytes>, stack: Stack, st: State)
    requires 1 <= m <= |keys| <= 16 && env.script == MultisigScript(m, keys)
    requires st == Start(stack + [ScriptNum.Encode(m)] + keys)
    ensures var r := RunFrom(env, 1 + |KeyPushes(keys)|, [], st);
            (EndsTrue(r) <==> MultisigPays(env, m, keys, stack))
            && (EndsTrue(r) ==> r.st.stack == Below(stack, m + 1) + [[1]])
  {
    hide RunFrom, Step, GetOp, KeyPushes, MultisigOp, ScriptNum.Encode, Limit, MultisigScript;
    hide CastToBool, StripSignatures, TriedFollow, Assignable, Slice;
    var n, at := |keys|, 1 + |KeyPushes(keys)|;
    MultisigLayout(m, keys);
    SmallIntStep(env, n, at + 1, st);
    RunOne(env, at, SmallInt(n), [], at + 1, st);
    if |stack| + n + 2 <= MAX_STACK_SIZE {
      var st3 := Push(st, ScriptNum.Encode(n));
      OpcodeStep(env, at + 2, st3);
      RunOne(env, at + 1, OP_CHECKMULTISIG, [], at + 2, st3);
      var st4 := st3.(opCount := 1);
      MultisigTrue(env, m, keys, stack, st4);
      var r := Limit(MultisigOp(env, OP_CHECKMULTISIG, st4));
      if r.Next? { RunEnds(env, r.st); }
    }
  }

  lemma MultisigLayout(m: nat, keys: seq<Bytes>)
    requires 1 <= m <= 16 && 1 <= |keys| <= 16
    ensures var s := MultisigScript(m, keys); var at := 1 + |KeyPushes(keys)|;
            |s| == at + 2 && GetOp(s, 0) == Op(SmallInt(m), [], 1) && GetOp(s, at) == Op(SmallInt(|keys|), [], at + 1)
            && GetOp(s, at + 1) == Op(OP_CHECKMULTISIG, [], at + 2) && !IsConditional(SmallInt(m))
               && !IsConditional(SmallInt(|keys|))
  {
    hide KeyPushes;
  }

  // ----- Outputs -----

  lemma MultisigHead(m: nat, keys: seq<Bytes>)
    requires 1 <= m <= |keys| <= 16 && forall i :: 0 <= i < |keys| ==> ValidKey(keys[i])
    ensures WitnessProgram(MultisigScript(m, keys)) == None && !IsPayToScriptHash(MultisigScript(m, keys))
  {
    PushesAreShort(keys);
    assert ValidKey(keys[0]) && PushData(keys[0])[0] == |keys[0]| as int;
    var s := MultisigScript(m, keys);
    assert s[1] == |keys[0]| as int;
    hide KeyPushes;
  }

  /** An output to several keys is spent exactly by a script that leaves a dummy and enough signatures, in order. */
  lemma PayToMultisigIff(m: nat, keys: seq<Bytes>, scriptSig: Bytes, wit: Stack, flags: Flags, checker: Checker)
    requires 1 <= m <= |keys| <= 16 && (forall i :: 0 <= i < |keys| ==> ValidKey(keys[i])) && WellFormed(flags)
    ensures var first := Eval(Env(scriptSig, flags, checker, BASE), []);
            VerifyScript(scriptSig, MultisigScript(m, keys), wit, flags, checker) == Accept
            <==> PushesOnlyIfAsked(flags, scriptSig) && first.Next?
                 && MultisigPays(Env(MultisigScript(m, keys), flags, checker, BASE), m, keys, first.st.stack)
                 && TidyIfAsked(flags, |first.st.stack| - m, wit)
  {
    hide Eval, EvalTrue, MultisigScript, TidyIfAsked, CastToBool, Finish, IsPushOnly, VerifyRedeem, ValidKey;
    hide StripSignatures, TriedFollow, Assignable, Slice;
    var script := MultisigScript(m, keys);
    MultisigHead(m, keys);
    var first := Eval(Env(scriptSig, flags, checker, BASE), []);
    if first.Next? {
      var s := first.st.stack;
      EvalTrueIs(script, s, flags, checker);
      MultisigEval(Env(script, flags, checker, BASE), m, keys, s);
      if m + 1 <= |s| { FinishIsTidy(flags, |s| - m, wit); }
    }
  }

  /** The same behind a witness script hash: the witness is the dummy, the signatures and the script. */
  lemma PayToWitnessMultisigIff(m: nat, keys: seq<Bytes>, stack: Stack, flags: Flags, checker: Checker)
    requires 1 <= m <= |keys| <= 16 && (forall i :: 0 <= i < |keys| ==> ValidKey(keys[i])) && WellFormed(flags)
    requires WITNESS in flags
    ensures var script := MultisigScript(m, keys);
            VerifyScript([], ScriptFor(WitnessScript(checker.sha256(script))), stack + [script], flags, checker)
                == Accept
            <==> CastToBool(checker.sha256(script)) && |stack| == m + 1 && AllSmall(stack)
                 && MultisigPays(Env(script, flags, checker, WITNESS_V0), m, keys, stack)
  {
    hide VerifyScript, Eval, MultisigScript, CastToBool, AllSmall, ValidKey;
    hide StripSignatures, TriedFollow, Assignable, Slice;
    var script := MultisigScript(m, keys);
    var wit := stack + [script];
    assert Below(wit, 1) == stack && Top(wit, 1) == script;
    PayToWitnessScriptHashIff(checker.sha256(script), [], wit, flags, checker);
    MultisigEval(Env(script, flags, checker, WITNESS_V0), m, keys, stack);
  }
}
