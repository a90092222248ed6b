/** Locked scripts: when CHECKLOCKTIMEVERIFY and CHECKSEQUENCEVERIFY let a run go on. */
module TimeLocks {
  import opened Bytes
  import opened Script
  import opened Interpreter
  import opened Conditionals
  import opened Expressions
  import opened Payments
  import Pushes
  import ScriptNum

  predicate IsLock(op: byte) { op == 0xb1 || op == 0xb2 }

  function FlagOf(op: byte): Flag { if op == 0xb1 then CHECKLOCKTIMEVERIFY else CHECKSEQUENCEVERIFY }

  /** Lock arguments may take five bytes. */
  predicate FitsLock(n: int) { -0x80_0000_0000 < n < 0x80_0000_0000 }

  /** A relative lock with bit 31 set is always open. */
  predicate Opened(checker: Checker, op: byte, n: int) {
    if op == 0xb1 then checker.checkLockTime(n)
        else n / 0x8000_0000 % 2 == 1 || checker.checkSequence(n)
  }

  /** The script that locks what follows it. */
  function LockScript(op: byte, n: int): Bytes { PushInt(n) + [op, 0x75] }

  lemma ArgumentFits(n: int, minimal: bool)
    ensures ScriptNum.Parse(ScriptNum.Encode(n), minimal, 5) == (if FitsLock(n) then Some(n) else None)
  {
    assert Pow256(4) == 0x1_0000_0000;
    hide ScriptNum.Encode, ScriptNum.Parse;
    ReadBackIff(n, minimal, 5);
  }

  /** What a lock does to a stack with its argument on top. */
  function Locked(env: Env, op: byte, n: int, st: State): Outcome {
    if FlagOf(op) !in env.flags then Next(st)
    else if !FitsLock(n) then Bad(UNKNOWN_ERROR, st)
    else if n < 0 then Bad(NEGATIVE_LOCKTIME, st)
    else if Opened(env.checker, op, n) then Next(st)
    else Bad(UNSATISFIED_LOCKTIME, st)
  }

  lemma LockRuns(env: Env, op: byte, n: int, next: nat, st: State)
    requires IsLock(op) && st.codeStart <= |env.script| && next <= |env.script| && st.opCount < MAX_OPS_PER_SCRIPT
    requires Roomy(st, 1)
    ensures var st1 := st.(stack := st.stack + [ScriptNum.Encode(n)]);
            Step(env, op, [], next, true, st1) == Locked(env, op, n, Counted(st1, 1))
  {
    hide ScriptNum.Encode, ScriptNum.Parse, FitsLock;
    ArgumentFits(n, MINIMALDATA in env.flags);
  }

  lemma DropRuns(env: Env, x: Bytes, next: nat, st: State)
    requires st.codeStart <= |env.script| && next <= |env.script| && st.opCount < MAX_OPS_PER_SCRIPT && Roomy(st, 1)
    ensures Step(env, OP_DROP, [], next, true, st.(stack := st.stack + [x])) == Next(Counted(st, 1))
  {
    hide PickOrRoll;
    assert Below(st.stack + [x], 1) == st.stack;
  }

  lemma LockLayout(op: byte, n: int)
    requires IsLock(op) && -0x8000_0000_0000_0000 < n < 0x8000_0000_0000_0000
    ensures var s := LockScript(op, n); var k := |PushInt(n)|;
            IsInstruction(PushInt(n)) && |s| == k + 2 <= MAX_SCRIPT_SIZE
            && GetOp(s, 0) == Op(GetOp(PushInt(n), 0).opcode, GetOp(PushInt(n), 0).data, k)
            && GetOp(s, k) == Op(op, [], k + 1) && GetOp(s, k + 1) == Op(OP_DROP, [], k + 2)
  {
    var s, k := LockScript(op, n), |PushInt(n)|;
    PushReads(n);
    assert |PushInt(n)| <= 20 by { PushIsShort(n); }
    assert s[0..k] == PushInt(n);
    hide PushInt;
    GetOpIsLocal(s, 0, PushInt(n));
  }

  lemma PushIsShort(n: int)
    requires -0x8000_0000_0000_0000 < n < 0x8000_0000_0000_0000
    ensures |PushInt(n)| <= 20
  {
    if n != -1 && !(0 <= n <= 16) { Pushes.DataPush(n); }
  }

  /** The whole locking script, under every flag set: ignored, open and gone from the stack, or closed. */
  lemma LockEval(op: byte, n: int, flags: Flags, checker: Checker, sv: SigVersion, stack: Stack)
    requires IsLock(op) && -0x8000_0000_0000_0000 < n < 0x8000_0000_0000_0000 && |stack| < MAX_STACK_SIZE
    ensures Eval(Env(LockScript(op, n), flags, checker, sv), stack)
         == if FlagOf(op) in flags && !FitsLock(n) then Fail(UNKNOWN_ERROR, 0)
            else if FlagOf(op) in flags && n < 0 then Fail(NEGATIVE_LOCKTIME, 0)
            else if FlagOf(op) in flags && !Opened(checker, op, n) then Fail(UNSATISFIED_LOCKTIME, 0)
            else Next(State(stack, [], 2, 0, 0))
  {
    hide RunFrom, Step, GetOp, LockScript, PushInt, ScriptNum.Encode, FitsLock, Opened, FlagOf;
    var env, k := Env(LockScript(op, n), flags, checker, sv), |PushInt(n)|;
    LockLayout(op, n);
    var f, st := GetOp(PushInt(n), 0), Start(stack);
    PushRuns(env, n, k, st);
    PushReads(n);
    RunOne(env, 0, f.opcode, f.data, k, st);
    var st1 := After(st, 0, n);
    LockRuns(env, op, n, k + 1, st);
    RunOne(env, k, op, [], k + 1, st1);
    DropRuns(env, ScriptNum.Encode(n), k + 2, Counted(st, 1));
    RunOne(env, k + 1, OP_DROP, [], k + 2, Counted(st1, 1));
    RunEnds(env, Counted(st, 2));
  }
}
