/** VerifyWitnessProgram and VerifyScript. */
module Verify {
  import opened Bytes
  import opened Script
  import opened Interpreter

  /** A failed assert stops the program: `AbortFlags` for the two asserts on the flag combination,
      `AbortEmptyStack` for the one in the P2SH path. */
  datatype Result = Accept | Reject(error: ScriptError) | AbortFlags | AbortEmptyStack

  /** The flag combinations VerifyScript asserts. */
  predicate WellFormed(flags: Flags) {
    (WITNESS in flags ==> P2SH in flags) && (CLEANSTACK in flags ==> P2SH in flags && WITNESS in flags)
  }

  /** The implied script of a version-0 key-hash program. */
  function KeyHashScript(program: Bytes): Bytes {
    [OP_DUP, OP_HASH160] + PushData(program) + [OP_EQUALVERIFY, OP_CHECKSIG]
  }

  /** The error VerifyWitnessProgram reports, or None when it accepts. */
  function WitnessError(wit: Stack, version: nat, program: Bytes, flags: Flags, checker: Checker): Option<ScriptError> {
    if version != 0 then
      if DISCOURAGE_UPGRADABLE_WITNESS_PROGRAM in flags then Some(WITNESS_PROGRAM_DISCOURAGED) else None
    else if |program| == 32 then
      if wit == [] then Some(WITNESS_PROGRAM_WITNESS_EMPTY) else
        var script := Top(wit, 1);
        if checker.sha256(script) != program then Some(WITNESS_PROGRAM_MISMATCH)
        else RunWitness(script, Below(wit, 1), flags, checker)
    else if |program| == 20 then
      if |wit| != 2 then Some(WITNESS_PROGRAM_MISMATCH)
      else RunWitness(KeyHashScript(program), wit, flags, checker)
    else Some(WITNESS_PROGRAM_WRONG_LENGTH)
  }

  function RunWitness(script: Bytes, stack: Stack, flags: Flags, checker: Checker): Option<ScriptError> {
    if exists i :: 0 <= i < |stack| && |stack[i]| > MAX_SCRIPT_ELEMENT_SIZE then Some(PUSH_SIZE) else
      match Eval(Env(script, flags, checker, WITNESS_V0), stack)
      case Fail(e, _) => Some(e)
      case Next(st) =>
        if |st.stack| != 1 then Some(CLEANSTACK_VIOLATED)
        else if !CastToBool(Top(st.stack, 1)) then Some(EVAL_FALSE)
        else None
  }

  /** Evaluate one script before segwit; the top of a successful stack must exist and be true. */
  function EvalTrue(script: Bytes, stack: Stack, flags: Flags, checker: Checker): Outcome {
    match Eval(Env(script, flags, checker, BASE), stack)
    case Fail(e, n) => Fail(e, n)
    case Next(st) => if st.stack == [] || !CastToBool(Top(st.stack, 1)) then Bad(EVAL_FALSE, st) else Next(st)
  }

  /** The checks on the remaining stack and an unused witness, with their asserts. */
  function Finish(flags: Flags, depth: nat, hadWitness: bool, wit: Stack): Result {
    if CLEANSTACK in flags && (P2SH !in flags || WITNESS !in flags) then AbortFlags
    else if CLEANSTACK in flags && depth != 1 then Reject(CLEANSTACK_VIOLATED)
    else if WITNESS in flags && P2SH !in flags then AbortFlags
    else if WITNESS in flags && !hadWitness && wit != [] then Reject(WITNESS_UNEXPECTED)
    else Accept
  }

  function VerifyScript(scriptSig: Bytes, scriptPubKey: Bytes, wit: Stack, flags: Flags, checker: Checker): Result {
    if SIGPUSHONLY in flags && !IsPushOnly(scriptSig) then Reject(SIG_PUSHONLY) else
      match Eval(Env(scriptSig, flags, checker, BASE), [])
      case Fail(e, _) => Reject(e)
      case Next(first) =>
        match EvalTrue(scriptPubKey, first.stack, flags, checker)
        case Fail(e, _) => Reject(e)
        case Next(second) =>
          var bare := if WITNESS in flags then WitnessProgram(scriptPubKey) else None;
          if bare.Some? && scriptSig != [] then Reject(WITNESS_MALLEATED) else
            var error := if bare.Some? then WitnessError(wit, bare.value.0, bare.value.1, flags, checker) else None;
            if error.Some? then Reject(error.value)
            else if P2SH in flags && IsPayToScriptHash(scriptPubKey) then
              VerifyRedeem(scriptSig, wit, flags, checker, first.stack, bare.Some?)
            else Finish(flags, if bare.Some? then 1 else |second.stack|, bare.Some?, wit)
  }

  /** The pay-to-script-hash path: `pushed` is the stack the scriptSig left. */
  function VerifyRedeem(scriptSig: Bytes, wit: Stack, flags: Flags, checker: Checker, pushed: Stack,
                        hadWitness: bool): Result {
    if !IsPushOnly(scriptSig) then Reject(SIG_PUSHONLY)
    else if pushed == [] then AbortEmptyStack
    else
      var redeem := Top(pushed, 1);
      match EvalTrue(redeem, Below(pushed, 1), flags, checker)
      case Fail(e, _) => Reject(e)
      case Next(third) =>
        var nested := if WITNESS in flags then WitnessProgram(redeem) else None;
        if nested.Some? && scriptSig != PushData(redeem) then Reject(WITNESS_MALLEATED_P2SH) else
          var error := if nested.Some? then WitnessError(wit, nested.value.0, nested.value.1, flags, checker) else None;
          if error.Some? then Reject(error.value)
          else Finish(flags, if nested.Some? then 1 else |third.stack|, hadWitness || nested.Some?, wit)
  }

  // ----- The P2SH assert -----

  /** A pay-to-script-hash output fails on an empty stack: its first opcode is OP_HASH160. */
  lemma ScriptHashNeedsArgument(env: Env)
    requires IsPayToScriptHash(env.script)
    ensures Eval(env, []).Fail?
  {
    var st := Start([]);
    assert GetOp(env.script, 0) == Op(OP_HASH160, [], 1);
    assert AllTrue([]);
    assert Step(env, OP_HASH160, [], 1, true, st).Fail?;
  }

  /** The assert in the P2SH path never fires, and the flag asserts fire only on a combination that
      the interface rules out. */
  lemma AssertsHold(scriptSig: Bytes, scriptPubKey: Bytes, wit: Stack, flags: Flags, checker: Checker)
    ensures VerifyScript(scriptSig, scriptPubKey, wit, flags, checker) != AbortEmptyStack
    ensures VerifyScript(scriptSig, scriptPubKey, wit, flags, checker) == AbortFlags ==> !WellFormed(flags)
  {
    if IsPayToScriptHash(scriptPubKey) {
      ScriptHashNeedsArgument(Env(scriptPubKey, flags, checker, BASE));
    }
  }
}
