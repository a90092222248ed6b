/** The standard payments: exactly which inputs VerifyScript accepts for key-hash and script-hash outputs. */
module Payments {
  import opened Bytes
  import opened Script
  import opened Interpreter
  import opened Verify
  import opened SignatureEncoding
  import Pushes
  import Standard

  function Hash160(checker: Checker, x: Bytes): Bytes { checker.ripemd160(checker.sha256(x)) }

  // ----- One instruction of a run outside conditionals -----

  function Continue(env: Env, next: nat, r: Outcome): Outcome
    requires r.Next? ==> r.st.codeStart <= |env.script|
  {
    if r.Next? then RunFrom(env, next, [], r.st) else r
  }

  lemma RunOne(env: Env, pc: nat, op: byte, data: Bytes, next: nat, st: State)
    requires st.codeStart <= |env.script| && next <= |env.script|
    requires GetOp(env.script, pc) == Op(op, data, next) && !IsConditional(op)
    ensures RunFrom(env, pc, [], st) == Continue(env, next, Step(env, op, data, next, true, st))
  {
    hide Step, GetOp;
    assert AllTrue([]);
  }

  lemma RunEnds(env: Env, st: State)
    requires st.codeStart <= |env.script|
    ensures RunFrom(env, |env.script|, [], st) == Next(st)
  {}

  function Sized(st: State): Outcome {
    if |st.stack| + |st.alt| > MAX_STACK_SIZE then Bad(STACK_SIZE, st) else Next(st)
  }

  lemma StepOf(env: Env, op: byte, next: nat, st: State)
    requires st.codeStart <= |env.script| && next <= |env.script| && st.opCount < MAX_OPS_PER_SCRIPT
    requires op == OP_DUP || 0xa6 <= op <= 0xaa || op == OP_EQUAL || op == OP_EQUALVERIFY || op == OP_CHECKSIG
    ensures Step(env, op, [], next, true, st) == Limit(Exec(env, op, next, st.(opCount := st.opCount + 1)))
  {
    hide Limit, Exec;
  }

  lemma Dup(env: Env, next: nat, st: State)
    requires st.codeStart <= |env.script| && next <= |env.script| && st.opCount < MAX_OPS_PER_SCRIPT
    ensures Step(env, OP_DUP, [], next, true, st)
         == if st.stack == [] then Bad(INVALID_STACK_OPERATION, st)
            else Sized(st.(stack := st.stack + [Top(st.stack, 1)], opCount := st.opCount + 1))
  {
    hide Step, PickOrRoll;
    StepOf(env, OP_DUP, next, st);
  }

  lemma HashTop(env: Env, next: nat, st: State)
    requires st.codeStart <= |env.script| && next <= |env.script| && st.opCount < MAX_OPS_PER_SCRIPT
    ensures Step(env, OP_HASH160, [], next, true, st)
         == if st.stack == [] then Bad(INVALID_STACK_OPERATION, st)
            else Sized(st.(stack := Below(st.stack, 1) + [Hash160(env.checker, Top(st.stack, 1))],
                 opCount := st.opCount + 1))
  {
    hide Step;
    StepOf(env, OP_HASH160, next, st);
  }

  lemma PushHash(env: Env, h: Bytes, next: nat, st: State)
    requires st.codeStart <= |env.script| && next <= |env.script| && |h| == 20
    ensures Step(env, 20, h, next, true, st) == Sized(st.(stack := st.stack + [h]))
  {
    Pushes.PushIsMinimal(h);
    hide CheckMinimalPush, Exec;
  }

  function Compared(op: byte, same: bool, st: State): Outcome {
    if op == OP_EQUAL then Next(Push(st, Truth(same))) else if same then Next(st) else Bad(EQUALVERIFY_FAILED, st)
  }

  lemma Compare(env: Env, op: byte, next: nat, st: State)
    requires op == OP_EQUAL || op == OP_EQUALVERIFY
    requires st.codeStart <= |env.script| && next <= |env.script| && st.opCount < MAX_OPS_PER_SCRIPT
    requires 2 <= |st.stack| && |st.stack| + |st.alt| <= MAX_STACK_SIZE
    ensures Step(env, op, [], next, true, st)
         == Compared(op, Top(st.stack, 2) == Top(st.stack, 1),
            st.(stack := Below(st.stack, 2), opCount := st.opCount + 1))
  {
    hide Step;
    StepOf(env, op, next, st);
  }

  // ----- Signatures -----

  /** The run ended with a true element on top. */
  predicate EndsTrue(r: Outcome) { r.Next? && r.st.stack != [] && CastToBool(Top(r.st.stack, 1)) }

  lemma TruthIsTrue(b: bool)
    ensures CastToBool(Truth(b)) == b
  {
    if b { assert !IsFalsy(Truth(b), 0); }
  }

  /** The two top elements are a signature and a key that check, for the code without the signature. */
  ghost predicate SignedBy(env: Env, stack: Stack) {
    2 <= |stack| &&
    var sig, key := Top(stack, 2), Top(stack, 1);
    var code := StripSignatures(env, env.script, [sig]);
    code.Some? && FollowRules(env, sig, key) && env.checker.checkSig(sig, key, code.value, env.sigversion)
  }

  lemma CheckSigStep(env: Env, next: nat, st: State)
    requires st.codeStart == 0 && next <= |env.script| && st.opCount < MAX_OPS_PER_SCRIPT
    requires |st.stack| + |st.alt| <= MAX_STACK_SIZE
    ensures var r := Step(env, OP_CHECKSIG, [], next, true, st);
            (EndsTrue(r) <==> SignedBy(env, st.stack)) && (EndsTrue(r) ==> r.st.stack == Below(st.stack, 2) + [[1]])
  {
    hide Step, CastToBool, StripSignatures, EncodingError, FollowRules;
    if |st.stack| >= 2 { RulesIff(env, Top(st.stack, 2), Top(st.stack, 1)); }
    StepOf(env, OP_CHECKSIG, next, st);
    assert env.script[0..] == env.script;
    TruthIsTrue(true);
    TruthIsTrue(false);
  }

  // ----- The key-hash script -----

  lemma KeyHashLayout(h: Bytes)
    requires |h| == 20
    ensures var s := KeyHashScript(h);
            |s| == 25 && GetOp(s, 0) == Op(OP_DUP, [], 1) && GetOp(s, 1) == Op(OP_HASH160, [], 2)
            && GetOp(s, 2) == Op(20, h, 23) && GetOp(s, 23) == Op(OP_EQUALVERIFY, [], 24)
               && GetOp(s, 24) == Op(OP_CHECKSIG, [], 25) && GetOp(s, 25) == NoOp
            && s[0..1] == [OP_DUP] && s[1..2] == [OP_HASH160] && s[23..24] == [OP_EQUALVERIFY]
               && s[24..25] == [OP_CHECKSIG]
  {
    var s := KeyHashScript(h);
    assert s[3..23] == h;
  }

  /** Key and signature satisfy a key hash. */
  ghost predicate KeyHashPays(env: Env, h: Bytes, stack: Stack) {
    2 <= |stack| <= MAX_STACK_SIZE - 2 && Hash160(env.checker, Top(stack, 1)) == h && SignedBy(env, stack)
  }

  lemma AfterCompare(env: Env, h: Bytes, st: State)
    requires |h| == 20 && env.script == KeyHashScript(h) && st.codeStart == 0 && st.opCount < 10
    requires 2 <= |st.stack| && |st.stack| + |st.alt| <= MAX_STACK_SIZE
    ensures var r := RunFrom(env, 23, [], st);
            (EndsTrue(r) <==> Top(st.stack, 2) == Top(st.stack, 1) && SignedBy(env, Below(st.stack, 2)))
            && (EndsTrue(r) ==> r.st.stack == Below(Below(st.stack, 2), 2) + [[1]])
  {
    hide RunFrom, Step, GetOp, KeyHashScript, SignedBy, CastToBool;
    KeyHashLayout(h);
    RunOne(env, 23, OP_EQUALVERIFY, [], 24, st);
    Compare(env, OP_EQUALVERIFY, 24, st);
    var st1 := st.(stack := Below(st.stack, 2), opCount := st.opCount + 1);
    RunOne(env, 24, OP_CHECKSIG, [], 25, st1);
    CheckSigStep(env, 25, st1);
    var r := Step(env, OP_CHECKSIG, [], 25, true, st1);
    if r.Next? { RunEnds(env, r.st); }
  }

  /** A key-hash script accepts exactly a key with that hash and a signature for it. */
  lemma KeyHashEval(env: Env, h: Bytes, stack: Stack)
    requires |h| == 20 && env.script == KeyHashScript(h)
    ensures var r := Eval(env, stack);
            (EndsTrue(r) <==> KeyHashPays(env, h, stack)) && (EndsTrue(r) ==> r.st.stack == Below(stack, 2) + [[1]])
  {
    hide RunFrom, Step, GetOp, KeyHashScript, StripSignatures, FollowRules, CastToBool;
    KeyHashLayout(h);
    var st := Start(stack);
    RunOne(env, 0, OP_DUP, [], 1, st);
    Dup(env, 1, st);
    if stack != [] && |stack| + 1 <= MAX_STACK_SIZE {
      var key := Top(stack, 1);
      var st1 := st.(stack := stack + [key], opCount := 1);
      RunOne(env, 1, OP_HASH160, [], 2, st1);
      HashTop(env, 2, st1);
      var st2 := st1.(stack := stack + [Hash160(env.checker, key)], opCount := 2);
      assert Below(st1.stack, 1) == stack;
      RunOne(env, 2, 20, h, 23, st2);
      PushHash(env, h, 23, st2);
      if |stack| + 2 <= MAX_STACK_SIZE {
        var st3 := st2.(stack := st2.stack + [h]);
        AfterCompare(env, h, st3);
        assert Below(st3.stack, 2) == stack;
      }
    }
  }

  /** The code a key-hash signature covers: the script itself, unless the signature repeats the hash, whose push
      is then deleted or, as a constant script code, refused. */
  lemma SignedCode(env: Env, h: Bytes, sig: Bytes)
    requires |h| == 20 && env.sigversion == BASE
    ensures StripSignatures(env, KeyHashScript(h), [sig])
         == if sig != h then Some(KeyHashScript(h))
            else if CONST_SCRIPTCODE in env.flags then None
            else Some([OP_DUP, OP_HASH160, OP_EQUALVERIFY, OP_CHECKSIG])
  {
    var d := Delete(KeyHashScript(h), PushData(sig));
    assert StripSignatures(env, d.rest, [sig][1..]) == Some(d.rest);
    KeyHashDeletion(h, sig);
    if sig != h { DeleteKeepsScript(KeyHashScript(h), PushData(sig)); }
    hide Delete;
  }

  /** Where the push of a signature can lie in a key-hash script. */
  lemma PushMatches(h: Bytes, sig: Bytes)
    requires |h| == 20
    ensures var s := KeyHashScript(h); var b := PushData(sig);
            !MatchesAt(s, b, 0) && !MatchesAt(s, b, 1) && !MatchesAt(s, b, 23) && !MatchesAt(s, b, 24)
                && !MatchesAt(s, b, 25)
            && (MatchesAt(s, b, 2) <==> sig == h) && b != [] && (sig == h ==> |b| == 21)
  {
    var s, b := KeyHashScript(h), PushData(sig);
    assert |b| >= 1 && b[0] == PushHeader(|sig|)[0] && b[0] <= OP_PUSHDATA4;
    assert s[0] == OP_DUP && s[1] == OP_HASH160 && s[2] == 20 && s[23] == OP_EQUALVERIFY && s[24] == OP_CHECKSIG;
    assert s[3..23] == h;
    if MatchesAt(s, b, 2) {
      assert s[2..2 + |b|][0] == b[0] == 20;
      assert b == [20] + sig;
      assert s[2..2 + |b|][1..] == sig;
    }
    if sig == h { assert s[2..23] == [20] + h == b; }
    assert forall p :: 0 <= p < 25 && MatchesAt(s, b, p) ==> s[p] == s[p..p + |b|][0] == b[0];
  }

  lemma KeyHashDeletion(h: Bytes, sig: Bytes)
    requires |h| == 20
    ensures var d := Delete(KeyHashScript(h), PushData(sig));
            if sig == h then d == Deletion(1, [OP_DUP, OP_HASH160, OP_EQUALVERIFY, OP_CHECKSIG]) else d.found == 0
  {
    hide KeyHashScript, PushData, MatchesAt, GetOp;
    var s, b := KeyHashScript(h), PushData(sig);
    KeyHashLayout(h);
    PushMatches(h, sig);
    assert DeleteFrom(s, b, 25) == Deletion(0, []);
    assert DeleteFrom(s, b, 24) == Deletion(0, [OP_CHECKSIG]);
    assert DeleteFrom(s, b, 23) == Deletion(0, [OP_EQUALVERIFY, OP_CHECKSIG]);
    if sig == h {
      assert DeleteFrom(s, b, 2) == Deletion(1, [OP_EQUALVERIFY, OP_CHECKSIG]);
      assert DeleteFrom(s, b, 1) == Deletion(1, [OP_HASH160, OP_EQUALVERIFY, OP_CHECKSIG]);
    } else {
      assert DeleteFrom(s, b, 2).found == 0 && DeleteFrom(s, b, 1).found == 0;
    }
  }

  // ----- Pay to key hash -----

  predicate PushesOnlyIfAsked(flags: Flags, scriptSig: Bytes) { SIGPUSHONLY in flags ==> IsPushOnly(scriptSig) }

  /** What both kinds of older output leave to check: a clean stack and no witness, if asked for. */
  predicate TidyIfAsked(flags: Flags, depth: nat, wit: Stack) {
    (CLEANSTACK in flags ==> depth == 1) && (WITNESS in flags ==> wit == [])
  }

  lemma FinishIsTidy(flags: Flags, depth: nat, wit: Stack)
    requires WellFormed(flags)
    ensures Finish(flags, depth, false, wit) == Accept <==> TidyIfAsked(flags, depth, wit)
    ensures Finish(flags, 1, true, wit) == Accept
  {}

  lemma EvalTrueIs(script: Bytes, stack: Stack, flags: Flags, checker: Checker)
    ensures var r := Eval(Env(script, flags, checker, BASE), stack);
            (EvalTrue(script, stack, flags, checker).Next? <==> EndsTrue(r))
                && (EndsTrue(r) ==> EvalTrue(script, stack, flags, checker) == r)
  {
    hide Eval, CastToBool;
  }

  /** An output to a key hash is spent exactly by a script that leaves a signature and a key with that hash. */
  lemma PayToKeyHashIff(h: Hash20, scriptSig: Bytes, wit: Stack, flags: Flags, checker: Checker)
    requires WellFormed(flags)
    ensures var first := Eval(Env(scriptSig, flags, checker, BASE), []);
            VerifyScript(scriptSig, Standard.ScriptFor(Standard.KeyId(h)), wit, flags, checker) == Accept
            <==> PushesOnlyIfAsked(flags, scriptSig) && first.Next?
                 && KeyHashPays(Env(KeyHashScript(h), flags, checker, BASE), h, first.st.stack)
                 && TidyIfAsked(flags, |first.st.stack| - 1, wit)
  {
    hide Eval, EvalTrue, KeyHashScript, SignedBy, TidyIfAsked, CastToBool, Finish, IsPushOnly, VerifyRedeem;
    var script := KeyHashScript(h);
    KeyHashHead(h);
    var first := Eval(Env(scriptSig, flags, checker, BASE), []);
    if first.Next? {
      var s := first.st.stack;
      EvalTrueIs(script, s, flags, checker);
      KeyHashEval(Env(script, flags, checker, BASE), h, s);
      if KeyHashPays(Env(script, flags, checker, BASE), h, s) {
        FinishIsTidy(flags, |s| - 1, wit);
      }
    }
  }

  lemma KeyHashHead(h: Hash20)
    ensures Standard.ScriptFor(Standard.KeyId(h)) == KeyHashScript(h)
    ensures WitnessProgram(KeyHashScript(h)) == None && !IsPayToScriptHash(KeyHashScript(h))
  {}

  // ----- Pay to witness -----

  /** A version byte and one push of the program. */
  function ProgramScript(version: nat, program: Bytes): Bytes
    requires version <= 16 && |program| <= 40
  {
    [if version == 0 then 0 else 0x50 + version, |program|] + program
  }

  /** The scripts the verifier takes for witness programs: versions 0 to 16, programs of 2 to 40 bytes. */
  lemma ProgramShape(script: Bytes, version: nat, program: Bytes)
    ensures WitnessProgram(script) == Some((version, program))
            <==> version <= 16 && 2 <= |program| <= 40 && script == ProgramScript(version, program)
  {
    if version <= 16 && 2 <= |program| <= 40 && script == ProgramScript(version, program) {
      assert script[2..] == program;
    }
    if WitnessProgram(script) == Some((version, program)) { assert script == script[..2] + program; }
  }

  /** What a version leaves on the stack. */
  function VersionNumber(version: byte): Bytes { if version == 0 then [] else [version] }

  lemma PushVersion(env: Env, version: byte, next: nat, st: State)
    requires version <= 16 && st.codeStart <= |env.script| && next <= |env.script|
    ensures Step(env, if version == 0 then 0 else 0x50 + version, [], next, true, st)
         == Sized(st.(stack := st.stack + [VersionNumber(version)]))
  {
    if version > 0 { assert NatLe(version) == [version]; }
  }

  lemma PushProgram(env: Env, program: Bytes, next: nat, st: State)
    requires 2 <= |program| <= 40 && st.codeStart <= |env.script| && next <= |env.script|
    ensures Step(env, |program|, program, next, true, st) == Sized(st.(stack := st.stack + [program]))
  {
    Pushes.PushIsMinimal(program);
    hide CheckMinimalPush, Exec;
  }

  lemma ProgramLayout(version: nat, program: Bytes)
    requires version <= 16 && 2 <= |program| <= 40
    ensures var s := ProgramScript(version, program);
            |s| == |program| + 2 && GetOp(s, 0) == Op(if version == 0 then 0 else 0x50 + version, [], 1)
                && GetOp(s, 1) == Op(|program|, program, |s|)
  {
    var s := ProgramScript(version, program);
    assert s[2..] == program && s[2..2 + |program|] == program && s[1..1] == [];
  }

  /** As a script, a witness program leaves its version and itself. */
  lemma ProgramEval(env: Env, version: nat, program: Bytes, stack: Stack)
    requires version <= 16 && 2 <= |program| <= 40 && env.script == ProgramScript(version, program)
    ensures Eval(env, stack)
         == if |stack| + 2 > MAX_STACK_SIZE then Fail(STACK_SIZE, 0)
            else Next(Start(stack + [VersionNumber(version), program]))
  {
    hide Step, GetOp, RunFrom, ProgramScript, VersionNumber;
    ProgramLayout(version, program);
    var st := Start(stack);
    RunOne(env, 0, if version == 0 then 0 else 0x50 + version, [], 1, st);
    PushVersion(env, version, 1, st);
    if |stack| + 1 <= MAX_STACK_SIZE {
      var st1 := st.(stack := stack + [VersionNumber(version)]);
      RunOne(env, 1, |program|, program, |env.script|, st1);
      PushProgram(env, program, |env.script|, st1);
      assert st1.stack + [program] == stack + [VersionNumber(version), program];
      if |stack| + 2 <= MAX_STACK_SIZE { RunEnds(env, st.(stack := st1.stack + [program])); }
    }
  }

  lemma EmptyScript(flags: Flags, checker: Checker)
    ensures Eval(Env([], flags, checker, BASE), []) == Next(Start([])) && IsPushOnly([])
  {}

  predicate AllSmall(stack: Stack) { forall i :: 0 <= i < |stack| ==> |stack[i]| <= MAX_SCRIPT_ELEMENT_SIZE }

  lemma RunWitnessIs(script: Bytes, stack: Stack, flags: Flags, checker: Checker)
    ensures var r := Eval(Env(script, flags, checker, WITNESS_V0), stack);
            RunWitness(script, stack, flags, checker) == None <==> AllSmall(stack) && EndsTrue(r) && |r.st.stack| == 1
  {
    hide Eval, CastToBool;
  }

  /** The last witness element is a script with this hash, and accepts the elements before it. */
  predicate ScriptPays(h: Bytes, wit: Stack, flags: Flags, checker: Checker) {
    wit != [] && checker.sha256(Top(wit, 1)) == h && AllSmall(Below(wit, 1)) &&
    var r := Eval(Env(Top(wit, 1), flags, checker, WITNESS_V0), Below(wit, 1));
    EndsTrue(r) && |r.st.stack| == 1
  }

  /** The witness satisfies a program: version 0 knows programs of 20 and of 32 bytes and nothing else, and a later
      version asks for nothing unless it is discouraged. */
  ghost predicate ProgramPays(version: nat, program: Bytes, wit: Stack, flags: Flags, checker: Checker) {
    if version != 0 then DISCOURAGE_UPGRADABLE_WITNESS_PROGRAM !in flags
    else if |program| == 20 then
      |wit| == 2 && AllSmall(wit) && KeyHashPays(Env(KeyHashScript(program), flags, checker, WITNESS_V0), program, wit)
    else |program| == 32 && ScriptPays(program, wit, flags, checker)
  }

  lemma WitnessAccepts(wit: Stack, version: nat, program: Bytes, flags: Flags, checker: Checker)
    ensures WitnessError(wit, version, program, flags, checker) == None
            <==> ProgramPays(version, program, wit, flags, checker)
  {
    hide Eval, CastToBool, AllSmall, SignedBy, KeyHashScript, RunWitness;
    if |program| == 20 {
      RunWitnessIs(KeyHashScript(program), wit, flags, checker);
      KeyHashEval(Env(KeyHashScript(program), flags, checker, WITNESS_V0), program, wit);
    } else if wit != [] {
      RunWitnessIs(Top(wit, 1), Below(wit, 1), flags, checker);
    }
  }

  lemma NotScriptHash(version: nat, program: Bytes)
    requires version <= 16 && 2 <= |program| <= 40
    ensures !IsPayToScriptHash(ProgramScript(version, program))
  {}

  /** A witness program as output, of any version and length, under every admitted flag set. Under WITNESS it is spent
      exactly by an empty script and a witness the program takes; without, by any script that leaves room. Either way
      the program must not be zero. */
  lemma PayToProgramIff(version: nat, program: Bytes, scriptSig: Bytes, wit: Stack, flags: Flags, checker: Checker)
    requires version <= 16 && 2 <= |program| <= 40 && WellFormed(flags)
    ensures var first := Eval(Env(scriptSig, flags, checker, BASE), []);
            VerifyScript(scriptSig, ProgramScript(version, program), wit, flags, checker) == Accept
            <==> CastToBool(program) &&
                 if WITNESS in flags then scriptSig == [] && ProgramPays(version, program, wit, flags, checker)
                 else PushesOnlyIfAsked(flags, scriptSig) && first.Next? && |first.st.stack| + 2 <= MAX_STACK_SIZE
  {
    hide Eval, CastToBool, Finish, IsPushOnly, VerifyRedeem, WitnessError, ProgramScript, WitnessProgram, ProgramPays;
    hide IsPayToScriptHash;
    var script := ProgramScript(version, program);
    ProgramShape(script, version, program);
    NotScriptHash(version, program);
    EmptyScript(flags, checker);
    var first := Eval(Env(scriptSig, flags, checker, BASE), []);
    if first.Next? {
      ProgramEval(Env(script, flags, checker, BASE), version, program, first.st.stack);
      FinishIsTidy(flags, |first.st.stack| + 2, wit);
    }
    WitnessAccepts(wit, version, program, flags, checker);
  }

  /** How an output is refused whose version or length the verifier does not know. */
  lemma UnknownProgram(version: nat, program: Bytes, wit: Stack, flags: Flags, checker: Checker)
    requires version <= 16 && 2 <= |program| <= 40 && WellFormed(flags) && WITNESS in flags && CastToBool(program)
    requires version != 0 || (|program| != 20 && |program| != 32)
    ensures VerifyScript([], ProgramScript(version, program), wit, flags, checker)
         == if version == 0 then Reject(WITNESS_PROGRAM_WRONG_LENGTH)
            else if DISCOURAGE_UPGRADABLE_WITNESS_PROGRAM in flags then Reject(WITNESS_PROGRAM_DISCOURAGED)
            else Accept
  {
    hide Eval, CastToBool, Finish, IsPushOnly, VerifyRedeem, ProgramScript, WitnessProgram, IsPayToScriptHash;
    hide RunWitness;
    var script := ProgramScript(version, program);
    ProgramShape(script, version, program);
    NotScriptHash(version, program);
    EmptyScript(flags, checker);
    ProgramEval(Env(script, flags, checker, BASE), version, program, []);
    FinishIsTidy(flags, 1, wit);
  }

  lemma ProgramOfHash(h: Bytes)
    requires |h| == 20 || |h| == 32
    ensures [OP_0] + PushData(h) == ProgramScript(0, h)
  {}

  /** An output to a witness key hash is spent exactly by a signature and a key with that hash. */
  lemma PayToWitnessKeyHashIff(h: Hash20, scriptSig: Bytes, wit: Stack, flags: Flags, checker: Checker)
    requires WellFormed(flags) && WITNESS in flags
    ensures VerifyScript(scriptSig, Standard.ScriptFor(Standard.WitnessKey(h)), wit, flags, checker) == Accept
            <==> scriptSig == [] && CastToBool(h) && |wit| == 2 && AllSmall(wit)
                 && KeyHashPays(Env(KeyHashScript(h), flags, checker, WITNESS_V0), h, wit)
  {
    hide VerifyScript, Eval, CastToBool, AllSmall, KeyHashPays, KeyHashScript, ProgramScript, PushData;
    ProgramOfHash(h);
    PayToProgramIff(0, h, scriptSig, wit, flags, checker);
  }

  /** An output to a witness script hash is spent exactly by a script with that hash on top of a stack it accepts. */
  lemma PayToWitnessScriptHashIff(h: Hash32, scriptSig: Bytes, wit: Stack, flags: Flags, checker: Checker)
    requires WellFormed(flags) && WITNESS in flags
    ensures VerifyScript(scriptSig, Standard.ScriptFor(Standard.WitnessScript(h)), wit, flags, checker) == Accept
            <==> scriptSig == [] && CastToBool(h) && wit != [] && checker.sha256(Top(wit, 1)) == h
                 && AllSmall(Below(wit, 1))
                 && var r := Eval(Env(Top(wit, 1), flags, checker, WITNESS_V0), Below(wit, 1));
                    EndsTrue(r) && |r.st.stack| == 1
  {
    hide VerifyScript, Eval, CastToBool, AllSmall, EndsTrue, ProgramScript, PushData;
    ProgramOfHash(h);
    PayToProgramIff(0, h, scriptSig, wit, flags, checker);
  }

  // ----- Pay to script hash -----

  function ScriptHashScript(h: Bytes): Bytes { [OP_HASH160] + PushData(h) + [OP_EQUAL] }

  lemma ScriptHashLayout(h: Bytes)
    requires |h| == 20
    ensures var s := ScriptHashScript(h);
            |s| == 23 && GetOp(s, 0) == Op(OP_HASH160, [], 1) && GetOp(s, 1) == Op(20, h, 22)
                && GetOp(s, 22) == Op(OP_EQUAL, [], 23)
            && IsPayToScriptHash(s) && WitnessProgram(s) == None
  {
    assert ScriptHashScript(h)[2..22] == h;
  }

  lemma ScriptHashEval(env: Env, h: Bytes, stack: Stack)
    requires |h| == 20 && env.script == ScriptHashScript(h)
    ensures EndsTrue(Eval(env, stack))
            <==> 1 <= |stack| <= MAX_STACK_SIZE - 1 && Hash160(env.checker, Top(stack, 1)) == h
  {
    hide RunFrom, Step, GetOp, ScriptHashScript, CastToBool, IsPayToScriptHash, WitnessProgram;
    ScriptHashLayout(h);
    var st := Start(stack);
    RunOne(env, 0, OP_HASH160, [], 1, st);
    HashTop(env, 1, st);
    if stack != [] && |stack| <= MAX_STACK_SIZE {
      var x := Hash160(env.checker, Top(stack, 1));
      var st1 := st.(stack := Below(stack, 1) + [x], opCount := 1);
      RunOne(env, 1, 20, h, 22, st1);
      PushHash(env, h, 22, st1);
      if |stack| + 1 <= MAX_STACK_SIZE {
        var st2 := st1.(stack := st1.stack + [h]);
        RunOne(env, 22, OP_EQUAL, [], 23, st2);
        Compare(env, OP_EQUAL, 23, st2);
        TruthIsTrue(x == h);
        var st3 := st2.(stack := Below(st2.stack, 2), opCount := 2);
        RunEnds(env, Push(st3, Truth(x == h)));
      }
    }
  }

  /** The redeem script accepts: on its own, or through the witness program it is. */
  ghost predicate Redeems(redeem: Bytes, scriptSig: Bytes, rest: Stack, wit: Stack, flags: Flags, checker: Checker) {
    var r := Eval(Env(redeem, flags, checker, BASE), rest);
    var nested := if WITNESS in flags then WitnessProgram(redeem) else None;
    EndsTrue(r) &&
    if nested.Some?
    then scriptSig == PushData(redeem) && ProgramPays(nested.value.0, nested.value.1, wit, flags, checker)
    else TidyIfAsked(flags, |r.st.stack|, wit)
  }

  /** An output to a script hash is spent exactly by pushes that end in a script with that hash, which accepts. */
  lemma PayToScriptHashIff(h: Hash20, scriptSig: Bytes, wit: Stack, flags: Flags, checker: Checker)
    requires WellFormed(flags) && P2SH in flags
    ensures var first := Eval(Env(scriptSig, flags, checker, BASE), []);
            VerifyScript(scriptSig, Standard.ScriptFor(Standard.ScriptId(h)), wit, flags, checker) == Accept
            <==> IsPushOnly(scriptSig) && first.Next? && 1 <= |first.st.stack| <= MAX_STACK_SIZE - 1
                 && Hash160(checker, Top(first.st.stack, 1)) == h
                 && Redeems(Top(first.st.stack, 1), scriptSig, Below(first.st.stack, 1), wit, flags, checker)
  {
    hide Eval, EvalTrue, EndsTrue, ScriptHashScript, TidyIfAsked, Finish, IsPushOnly, WitnessError, WitnessProgram;
    hide IsPayToScriptHash, PushData, ProgramPays;
    var script := ScriptHashScript(h);
    ScriptHashLayout(h);
    assert Standard.ScriptFor(Standard.ScriptId(h)) == script by { ScriptHashIs(h); }
    var first := Eval(Env(scriptSig, flags, checker, BASE), []);
    if first.Next? {
      var s := first.st.stack;
      EvalTrueIs(script, s, flags, checker);
      ScriptHashEval(Env(script, flags, checker, BASE), h, s);
      if s != [] {
        RedeemIs(scriptSig, wit, flags, checker, s);
      }
    }
  }

  lemma ScriptHashIs(h: Hash20)
    ensures Standard.ScriptFor(Standard.ScriptId(h)) == ScriptHashScript(h)
  {}

  lemma RedeemIs(scriptSig: Bytes, wit: Stack, flags: Flags, checker: Checker, s: Stack)
    requires WellFormed(flags) && s != []
    ensures VerifyRedeem(scriptSig, wit, flags, checker, s, false) == Accept
            <==> IsPushOnly(scriptSig) && Redeems(Top(s, 1), scriptSig, Below(s, 1), wit, flags, checker)
  {
    hide Eval, EvalTrue, TidyIfAsked, Finish, IsPushOnly, WitnessError, WitnessProgram, PushData, CastToBool;
    hide ProgramPays;
    EvalTrueIs(Top(s, 1), Below(s, 1), flags, checker);
    var program := WitnessProgram(Top(s, 1));
    if program.Some? { WitnessAccepts(wit, program.value.0, program.value.1, flags, checker); }
    var r := Eval(Env(Top(s, 1), flags, checker, BASE), Below(s, 1));
    FinishIsTidy(flags, if r.Next? then |r.st.stack| else 0, wit);
  }

  lemma OnePushEval(env: Env, x: Bytes)
    requires 2 <= |x| <= 75 && env.script == PushData(x)
    ensures Eval(env, []) == Next(Start([x])) && IsPushOnly(env.script)
  {
    GetOpOfPush([], x, []);
    assert [] + PushData(x) + [] == PushData(x);
    Pushes.PushIsMinimal(x);
    hide Eval, GetOp, CheckMinimalPush;
    Pushes.OnePush(env, |x|, x, [], x);
    assert IsPushOnlyFrom(env.script, |env.script|);
  }

  /** A witness program of any version and length behind a script hash, pushed alone. */
  lemma PayToNestedProgramIff(version: nat, program: Bytes, wit: Stack, flags: Flags, checker: Checker)
    requires version <= 16 && 2 <= |program| <= 40 && WellFormed(flags) && P2SH in flags
    ensures var redeem := ProgramScript(version, program);
            var output := Standard.ScriptFor(Standard.ScriptId(checker.ripemd160(checker.sha256(redeem))));
            VerifyScript(PushData(redeem), output, wit, flags, checker) == Accept
            <==> CastToBool(program) && (WITNESS in flags ==> ProgramPays(version, program, wit, flags, checker))
  {
    hide VerifyScript, Eval, CastToBool, IsPushOnly, ProgramScript, WitnessProgram, ProgramPays, PushData;
    var redeem := ProgramScript(version, program);
    ProgramLayout(version, program);
    ProgramShape(redeem, version, program);
    OnePushEval(Env(PushData(redeem), flags, checker, BASE), redeem);
    ProgramEval(Env(redeem, flags, checker, BASE), version, program, []);
    PayToScriptHashIff(checker.ripemd160(checker.sha256(redeem)), PushData(redeem), wit, flags, checker);
    assert Below([redeem], 1) == [] && [] + [VersionNumber(version), program] == [VersionNumber(version), program];
  }

  // ----- Any output -----

  /** The scripts the verifier takes for pay-to-script-hash. */
  lemma ScriptHashOutputShape(script: Bytes)
    ensures IsPayToScriptHash(script) <==> exists h: Bytes :: |h| == 20 && script == [0xa9, 20] + h + [0x87]
  {
    if IsPayToScriptHash(script) { assert script == [0xa9, 20] + script[2..22] + [0x87]; }
  }

  lemma NotBoth(script: Bytes)
    ensures !(IsPayToScriptHash(script) && WitnessProgram(script).Some?)
  {}

  /** When any output at all is spent, from the runs of the scripts involved. */
  lemma VerifyScriptIff(scriptSig: Bytes, scriptPubKey: Bytes, wit: Stack, flags: Flags, checker: Checker)
    requires WellFormed(flags)
    ensures var first := Eval(Env(scriptSig, flags, checker, BASE), []);
            VerifyScript(scriptSig, scriptPubKey, wit, flags, checker) == Accept
            <==> PushesOnlyIfAsked(flags, scriptSig) && first.Next? &&
                 var second := Eval(Env(scriptPubKey, flags, checker, BASE), first.st.stack);
                 var program := WitnessProgram(scriptPubKey);
                 EndsTrue(second) &&
                 if WITNESS in flags && program.Some?
                 then scriptSig == [] && ProgramPays(program.value.0, program.value.1, wit, flags, checker)
                 else if P2SH in flags && IsPayToScriptHash(scriptPubKey)
                 then IsPushOnly(scriptSig) && first.st.stack != []
                      && Redeems(Top(first.st.stack, 1), scriptSig, Below(first.st.stack, 1), wit, flags, checker)
                 else TidyIfAsked(flags, |second.st.stack|, wit)
  {
    hide Eval, EvalTrue, TidyIfAsked, Finish, IsPushOnly, WitnessError, ProgramPays, Redeems, VerifyRedeem, CastToBool;
    hide IsPayToScriptHash, WitnessProgram;
    var first := Eval(Env(scriptSig, flags, checker, BASE), []);
    NotBoth(scriptPubKey);
    if first.Next? {
      var s := first.st.stack;
      EvalTrueIs(scriptPubKey, s, flags, checker);
      var second := Eval(Env(scriptPubKey, flags, checker, BASE), s);
      FinishIsTidy(flags, if second.Next? then |second.st.stack| else 0, wit);
      var program := WitnessProgram(scriptPubKey);
      if program.Some? { WitnessAccepts(wit, program.value.0, program.value.1, flags, checker); }
      if s != [] { RedeemIs(scriptSig, wit, flags, checker, s); }
      else if IsPayToScriptHash(scriptPubKey) { ScriptHashNeedsArgument(Env(scriptPubKey, flags, checker, BASE)); }
    }
  }
}
