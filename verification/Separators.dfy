/** OP_CODESEPARATOR: what follows an executed separator runs as if it were the whole script, so a signature there
    covers exactly what follows. */
module Separators {
  import opened Bytes
  import opened Script
  import opened Interpreter
  import ScriptNum

  // ----- A run does not look back past its code -----

  /** The same state with the code further along by n. */
  function Moved(st: State, n: nat): State { st.(codeStart := st.codeStart + n) }

  function MovedOutcome(r: Outcome, n: nat): Outcome { if r.Next? then Next(Moved(r.st, n)) else r }

  function MovedFetch(f: Fetch, n: nat): Fetch { if f.Op? then f.(next := f.next + n) else f }

  lemma GetOpMoves(u: Bytes, v: Bytes, pc: nat)
    ensures GetOp(u + v, |u| + pc) == MovedFetch(GetOp(v, pc), |u|)
  {
    var s := u + v;
    assert forall a, b :: 0 <= a <= b <= |v| ==> s[|u| + a..|u| + b] == v[a..b];
  }

  lemma StackOpMoves(minimal: bool, op: byte, st: State, n: nat)
    ensures StackOp(minimal, op, Moved(st, n)) == MovedOutcome(StackOp(minimal, op, st), n)
  {
    hide ScriptNum.Parse, ScriptNum.Encode, CastToBool;
  }

  lemma SimpleOpsMove(minimal: bool, op: byte, checker: Checker, st: State, n: nat)
    ensures EqualOp(op, Moved(st, n)) == MovedOutcome(EqualOp(op, st), n)
    ensures UnaryOp(minimal, op, Moved(st, n)) == MovedOutcome(UnaryOp(minimal, op, st), n)
    ensures BinaryOp(minimal, op, Moved(st, n)) == MovedOutcome(BinaryOp(minimal, op, st), n)
    ensures WithinOp(minimal, Moved(st, n)) == MovedOutcome(WithinOp(minimal, st), n)
    ensures HashOp(checker, op, Moved(st, n)) == MovedOutcome(HashOp(checker, op, st), n)
  {
    hide ScriptNum.Parse, ScriptNum.Encode, CastToBool, UnaryValue, BinaryValue;
  }

  lemma LockOpMoves(u: Bytes, env: Env, op: byte, st: State)
    ensures LockOp(env.(script := u + env.script), op, Moved(st, |u|)) == MovedOutcome(LockOp(env, op, st), |u|)
  {
    hide ScriptNum.Parse;
  }

  lemma {:induction false} StripMoves(u: Bytes, env: Env, code: Bytes, sigs: seq<Bytes>)
    ensures StripSignatures(env.(script := u + env.script), code, sigs) == StripSignatures(env, code, sigs)
    decreases |sigs|
  {
    hide Delete, PushData;
    if sigs != [] { StripMoves(u, env, Delete(code, PushData(sigs[0])).rest, sigs[1..]); }
  }

  lemma EncodingMoves(u: Bytes, env: Env, sig: Bytes, key: Bytes)
    ensures EncodingError(env.(script := u + env.script), sig, key) == EncodingError(env, sig, key)
  {}

  lemma {:induction false} MatchingMoves(u: Bytes, env: Env, code: Bytes, sigs: seq<Bytes>, keys: seq<Bytes>,
                                         checks: nat)
    requires |sigs| <= |keys|
    ensures MatchSignatures(env.(script := u + env.script), code, sigs, keys, checks)
         == MatchSignatures(env, code, sigs, keys, checks)
    decreases |keys|
  {
    hide EncodingError;
    if sigs != [] {
      EncodingMoves(u, env, sigs[0], keys[0]);
      var rest := if env.checker.checkSig(sigs[0], keys[0], code, env.sigversion) then sigs[1..] else sigs;
      if |rest| <= |keys| - 1 { MatchingMoves(u, env, code, rest, keys[1..], checks + 1); }
    }
  }

  lemma CodeMoves(u: Bytes, v: Bytes, k: nat)
    requires k <= |v|
    ensures (u + v)[k + |u|..] == v[k..]
  {}

  lemma SigOpMoves(u: Bytes, env: Env, op: byte, st: State)
    requires st.codeStart <= |env.script|
    ensures SigOp(env.(script := u + env.script), op, Moved(st, |u|)) == MovedOutcome(SigOp(env, op, st), |u|)
  {
    hide StripSignatures, EncodingError;
    CodeMoves(u, env.script, st.codeStart);
    if |st.stack| >= 2 {
      StripMoves(u, env, env.script[st.codeStart..], [Top(st.stack, 2)]);
      EncodingMoves(u, env, Top(st.stack, 2), Top(st.stack, 1));
    }
  }

  lemma CheckMultisigMoves(u: Bytes, env: Env, op: byte, st: State, nKeys: nat, nSigs: nat)
    requires st.codeStart <= |env.script| && nSigs <= nKeys && nKeys + nSigs + 3 <= |st.stack|
    ensures CheckMultisig(env.(script := u + env.script), op, Moved(st, |u|), nKeys, nSigs)
         == MovedOutcome(CheckMultisig(env, op, st, nKeys, nSigs), |u|)
  {
    hide StripSignatures, MatchSignatures, Slice;
    CodeMoves(u, env.script, st.codeStart);
    var keys, sigs := Slice(st.stack, 2, nKeys), Slice(st.stack, nKeys + 3, nSigs);
    var code := StripSignatures(env, env.script[st.codeStart..], sigs);
    StripMoves(u, env, env.script[st.codeStart..], sigs);
    if code.Some? { MatchingMoves(u, env, code.value, sigs, keys, st.sigChecks); }
  }

  lemma MultisigOpMoves(u: Bytes, env: Env, op: byte, st: State)
    requires st.codeStart <= |env.script|
    ensures MultisigOp(env.(script := u + env.script), op, Moved(st, |u|))
         == MovedOutcome(MultisigOp(env, op, st), |u|)
  {
    hide CheckMultisig, ScriptNum.Parse;
    var s, size := st.stack, ScriptNum.DEFAULT_MAX_NUM_SIZE;
    var minimal := MINIMALDATA in env.flags;
    if |s| >= 1 {
      var nKeys := ScriptNum.Parse(Top(s, 1), minimal, size);
      if nKeys.Some? && 0 <= nKeys.value && nKeys.value + 2 <= |s| {
        var nSigs := ScriptNum.Parse(Top(s, nKeys.value + 2), minimal, size);
        if nSigs.Some? && 0 <= nSigs.value <= nKeys.value && nKeys.value + nSigs.value + 3 <= |s| {
          var st1 := st.(opCount := st.opCount + nKeys.value);
          CheckMultisigMoves(u, env, op, st1, nKeys.value, nSigs.value);
        }
      }
    }
  }

  lemma ExecMoves(u: Bytes, env: Env, op: byte, next: nat, st: State)
    requires st.codeStart <= |env.script| && next <= |env.script|
    ensures Exec(env.(script := u + env.script), op, next + |u|, Moved(st, |u|))
         == MovedOutcome(Exec(env, op, next, st), |u|)
  {
    hide StackOp, EqualOp, UnaryOp, BinaryOp, WithinOp, HashOp, LockOp, SigOp, MultisigOp, ScriptNum.Encode, CastToBool;
    StackOpMoves(MINIMALDATA in env.flags, op, st, |u|);
    SimpleOpsMove(MINIMALDATA in env.flags, op, env.checker, st, |u|);
    LockOpMoves(u, env, op, st);
    SigOpMoves(u, env, op, st);
    MultisigOpMoves(u, env, op, st);
  }

  lemma StepMoves(u: Bytes, env: Env, op: byte, data: Bytes, next: nat, live: bool, st: State)
    requires st.codeStart <= |env.script| && next <= |env.script|
    ensures Step(env.(script := u + env.script), op, data, next + |u|, live, Moved(st, |u|))
         == MovedOutcome(Step(env, op, data, next, live, st), |u|)
  {
    hide Exec, CheckMinimalPush, IsDisabled;
    var r := Admit(env, op, data, st);
    if r.Next? { ExecMoves(u, env, op, next, r.st); }
  }

  lemma BranchMoves(u: Bytes, env: Env, op: byte, exec: seq<bool>, st: State)
    ensures var t := Branch(env, op, exec, st);
            Branch(env.(script := u + env.script), op, exec, Moved(st, |u|))
            == if t.Turn? then t.(st := Moved(t.st, |u|)) else t
  {
    hide CastToBool, IsDisabled;
  }

  /** A run that starts past a prefix, with its code past it too, does what the rest does alone. */
  lemma {:induction false} RunMoves(u: Bytes, env: Env, pc: nat, exec: seq<bool>, st: State)
    requires st.codeStart <= |env.script|
    ensures RunFrom(env.(script := u + env.script), pc + |u|, exec, Moved(st, |u|))
         == MovedOutcome(RunFrom(env, pc, exec, st), |u|)
    decreases |env.script| - pc
  {
    hide GetOp, Step, Branch;
    GetOpMoves(u, env.script, pc);
    if pc < |env.script| {
      var f := GetOp(env.script, pc);
      if f.Op? {
        if IsConditional(f.opcode) {
          BranchMoves(u, env, f.opcode, exec, st);
          var t := Branch(env, f.opcode, exec, st);
          if t.Turn? { RunMoves(u, env, f.next, t.exec, t.st); }
        } else {
          StepMoves(u, env, f.opcode, f.data, f.next, AllTrue(exec), st);
          var r := Step(env, f.opcode, f.data, f.next, AllTrue(exec), st);
          if r.Next? { RunMoves(u, env, f.next, exec, r.st); }
        }
      }
    }
  }

  // ----- The separator -----

  /** Wherever a separator (0xab) is executed, what follows it runs as if it were the whole script: in particular its
      signatures cover the code from there on. Before segwit a constant script code forbids separators. */
  lemma SeparatorStarts(u: Bytes, v: Bytes, env: Env, exec: seq<bool>, st: State)
    requires env.script == u + [0xab] + v && st.codeStart <= |u| && AllTrue(exec)
    requires st.opCount < MAX_OPS_PER_SCRIPT && |st.stack| + |st.alt| <= MAX_STACK_SIZE
    ensures RunFrom(env, |u|, exec, st)
         == if env.sigversion == BASE && CONST_SCRIPTCODE in env.flags then Bad(CODESEPARATOR_SEEN, st)
            else MovedOutcome(RunFrom(env.(script := v), 0, exec, st.(opCount := st.opCount + 1, codeStart := 0)),
                              |u| + 1)
  {
    var w := u + [0xab];
    assert env.script[|u|] == 0xab && GetOp(env.script, |u|) == Op(0xab, [], |w|);
    var st1 := st.(opCount := st.opCount + 1, codeStart := 0);
    SeparatorStep(env, |w|, st);
    hide GetOp, Step;
    RunMoves(w, env.(script := v), 0, exec, st1);
    assert env.(script := v).(script := w + v) == env;
  }

  lemma SeparatorStep(env: Env, next: nat, st: State)
    requires st.codeStart <= |env.script| && next <= |env.script|
    requires st.opCount < MAX_OPS_PER_SCRIPT && |st.stack| + |st.alt| <= MAX_STACK_SIZE
    ensures Step(env, 0xab, [], next, true, st)
         == if env.sigversion == BASE && CONST_SCRIPTCODE in env.flags then Bad(CODESEPARATOR_SEEN, st)
            else Next(st.(opCount := st.opCount + 1, codeStart := next))
  {
    hide StackOp, EqualOp, UnaryOp, BinaryOp, WithinOp, HashOp, LockOp, SigOp, MultisigOp, ScriptNum.Encode, CastToBool;
  }

  lemma ExecKeepsCode(env: Env, op: byte, next: nat, st: State)
    requires st.codeStart <= |env.script| && next <= |env.script| && op != 0xab
    ensures var r := Exec(env, op, next, st); r.Next? ==> r.st.codeStart == st.codeStart
  {
    hide StackOp, EqualOp, UnaryOp, BinaryOp, WithinOp, HashOp, LockOp, SigOp, MultisigOp, ScriptNum.Encode, CastToBool;
  }

  /** Nothing else moves the code: not another opcode, and not a separator in a branch that is not taken. */
  lemma OnlySeparatorsMove(env: Env, op: byte, data: Bytes, next: nat, live: bool, st: State)
    requires st.codeStart <= |env.script| && next <= |env.script| && (op != 0xab || !live)
    ensures var r := Step(env, op, data, next, live, st); r.Next? ==> r.st.codeStart == st.codeStart
  {
    hide Exec, CheckMinimalPush, IsDisabled;
    var r := Admit(env, op, data, st);
    if r.Next? && op != 0xab { ExecKeepsCode(env, op, next, r.st); }
  }
}
