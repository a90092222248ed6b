/** Arithmetic on the script stack: the script compiled from an expression evaluates to what the expression means. */
module Expressions {
  import opened Bytes
  import opened Script
  import opened Interpreter
  import opened Conditionals
  import Pushes
  import ScriptNum

  datatype Unary = Successor | Predecessor | Opposite | Magnitude | IsZero | IsNonzero

  datatype Binary =
    | Sum | Difference | Both | Either | Same | Different | Less | Greater | AtMost | AtLeast | Least | Greatest

  datatype Expr =
    | Number(n: int)
    | Apply(f: Unary, x: Expr)
    | Combine(g: Binary, x: Expr, y: Expr)
    | Between(x: Expr, low: Expr, high: Expr)
    | Choice(c: Expr, x: Expr, y: Expr)

  // ----- What an expression means -----

  function Bit(b: bool): int { if b then 1 else 0 }

  function Applied(f: Unary, a: int): int {
    match f
    case Successor => a + 1
    case Predecessor => a - 1
    case Opposite => -a
    case Magnitude => if a >= 0 then a else -a
    case IsZero => Bit(a == 0)
    case IsNonzero => Bit(a != 0)
  }

  function Combined(g: Binary, a: int, b: int): int {
    match g
    case Sum => a + b
    case Difference => a - b
    case Both => Bit(a != 0 && b != 0)
    case Either => Bit(a != 0 || b != 0)
    case Same => Bit(a == b)
    case Different => Bit(a != b)
    case Less => Bit(a < b)
    case Greater => Bit(a > b)
    case AtMost => Bit(a <= b)
    case AtLeast => Bit(a >= b)
    case Least => if a <= b then a else b
    case Greatest => if a >= b then a else b
  }

  /** Operands are numbers of at most 31 bits and a sign. */
  predicate Fits(n: int) { -0x8000_0000 < n < 0x8000_0000 }

  function Operand(e: Expr): Option<int>
    decreases e, 1
  {
    match Meaning(e)
    case None => None
    case Some(a) => if Fits(a) then Some(a) else None
  }

  /** None when an operand does not fit; results may be larger, and a branch not chosen does not matter. */
  function Meaning(e: Expr): Option<int>
    decreases e, 0
  {
    match e
    case Number(n) => Some(n)
    case Apply(f, x) =>
      var a := Operand(x);
      if a.Some? then Some(Applied(f, a.value)) else None
    case Combine(g, x, y) =>
      var a, b := Operand(x), Operand(y);
      if a.Some? && b.Some? then Some(Combined(g, a.value, b.value)) else None
    case Between(x, low, high) =>
      var a, b, c := Operand(x), Operand(low), Operand(high);
      if a.Some? && b.Some? && c.Some? then Some(Bit(b.value <= a.value < c.value)) else None
    case Choice(c, x, y) =>
      var a := Operand(c);
      if a.None? then None else if a.value != 0 then Meaning(x) else Meaning(y)
  }

  // ----- The compiler -----

  function UnaryOpcode(f: Unary): byte {
    match f
    case Successor => 0x8b
    case Predecessor => 0x8c
    case Opposite => 0x8f
    case Magnitude => 0x90
    case IsZero => 0x91
    case IsNonzero => 0x92
  }

  function BinaryOpcode(g: Binary): byte {
    match g
    case Sum => 0x93
    case Difference => 0x94
    case Both => 0x9a
    case Either => 0x9b
    case Same => 0x9c
    case Different => 0x9e
    case Less => 0x9f
    case Greater => 0xa0
    case AtMost => 0xa1
    case AtLeast => 0xa2
    case Least => 0xa3
    case Greatest => 0xa4
  }

  /** The program that leaves the value on the stack and goes on with `tail`. */
  function Program(e: Expr, tail: Tree): Tree
    decreases e
  {
    match e
    case Number(n) => Instr(PushInt(n), tail)
    case Apply(f, x) => Program(x, Instr([UnaryOpcode(f)], tail))
    case Combine(g, x, y) => Program(x, Program(y, Instr([BinaryOpcode(g)], tail)))
    case Between(x, low, high) => Program(x, Program(low, Program(high, Instr([0xa5], tail))))
    case Choice(c, x, y) =>
      Program(c, Instr([0x92], Branches(Program(x, Done), Program(y, Done), tail)))
  }

  function Branches(p: Tree, q: Tree, tail: Tree): Tree { Cond(false, Else(p, Final(q)), tail) }

  function Compile(e: Expr): Bytes { Flatten(Program(e, Done)) }

  /** Every number can be given to push_int64, other than the least. */
  predicate Pushable(e: Expr) {
    match e
    case Number(n) => -0x8000_0000_0000_0000 < n < 0x8000_0000_0000_0000
    case Apply(_, x) => Pushable(x)
    case Combine(_, x, y) => Pushable(x) && Pushable(y)
    case Between(x, low, high) => Pushable(x) && Pushable(low) && Pushable(high)
    case Choice(c, x, y) => Pushable(c) && Pushable(x) && Pushable(y)
  }

  /** Counted opcodes; those of a branch not chosen count too. */
  function Ops(e: Expr): nat {
    match e
    case Number(_) => 0
    case Apply(_, x) => Ops(x) + 1
    case Combine(_, x, y) => Ops(x) + Ops(y) + 1
    case Between(x, low, high) => Ops(x) + Ops(low) + Ops(high) + 1
    case Choice(c, x, y) => Ops(c) + Ops(x) + Ops(y) + 4
  }

  function Max(a: nat, b: nat): nat { if a >= b then a else b }

  /** Stack elements needed, as far as the evaluation gets. */
  function Depth(e: Expr): (d: nat)
    ensures d >= 1
  {
    match e
    case Number(_) => 1
    case Apply(_, x) => Depth(x)
    case Combine(_, x, y) => Max(Depth(x), if Meaning(x).Some? then 1 + Depth(y) else 0)
    case Between(x, low, high) =>
      var above := Max(1 + Depth(low), if Meaning(low).Some? then 2 + Depth(high) else 0);
      Max(Depth(x), if Meaning(x).Some? then above else 0)
    case Choice(c, x, y) =>
      var a := Operand(c);
      Max(Depth(c), if a.None? then 0 else if a.value != 0 then Depth(x) else Depth(y))
  }

  function Length(e: Expr): nat {
    match e
    case Number(n) => |PushInt(n)|
    case Apply(_, x) => Length(x) + 1
    case Combine(_, x, y) => Length(x) + Length(y) + 1
    case Between(x, low, high) => Length(x) + Length(low) + Length(high) + 1
    case Choice(c, x, y) => Length(c) + Length(x) + Length(y) + 4
  }

  // ----- Numbers as operands -----

  lemma {:induction false} DigitsOf(v: nat, k: nat)
    ensures |NatLe(v)| <= k <==> v < Pow256(k)
  {
    if k > 0 && v > 0 { DigitsOf(v / 256, k - 1); }
  }

  lemma {:induction false} TopDigit(v: nat, k: nat)
    requires |NatLe(v)| == k + 1
    ensures NatLe(v)[k] >= 0x80 <==> v >= 128 * Pow256(k)
  {
    if k > 0 { TopDigit(v / 256, k - 1); } else { assert NatLe(v) == [v % 256] + NatLe(v / 256); }
  }

  /** A number's own encoding is read back within a size exactly when its magnitude leaves room for the sign. */
  lemma ReadBackIff(n: int, minimal: bool, size: nat)
    requires size >= 1
    ensures ScriptNum.Parse(ScriptNum.Encode(n), minimal, size)
         == if -128 * Pow256(size - 1) < n < 128 * Pow256(size - 1) then Some(n) else None
  {
    ScriptNum.DecodeOfEncode(n);
    ScriptNum.EncodeIsMinimal(n);
    var v := if n < 0 then -n else n;
    DigitsOf(v, size);
    DigitsOf(v, size - 1);
    if |NatLe(v)| == size { TopDigit(v, size - 1); }
    hide ScriptNum.Decode, ScriptNum.IsMinimal, NatLe;
  }

  /** A number can be an operand exactly when it fits. */
  lemma OperandFits(n: int, minimal: bool)
    ensures ScriptNum.Parse(ScriptNum.Encode(n), minimal, ScriptNum.DEFAULT_MAX_NUM_SIZE)
            == (if Fits(n) then Some(n) else None)
  {
    assert Pow256(3) == 0x100_0000;
    hide ScriptNum.Encode, ScriptNum.Parse;
    ReadBackIff(n, minimal, 4);
  }

  // ----- One instruction -----

  /** The state with one more value and some more counted opcodes. */
  function After(st: State, ops: nat, v: int): State {
    st.(stack := st.stack + [ScriptNum.Encode(v)], opCount := st.opCount + ops)
  }

  function Counted(st: State, ops: nat): State { st.(opCount := st.opCount + ops) }

  predicate Roomy(st: State, depth: nat) { |st.stack| + |st.alt| + depth <= MAX_STACK_SIZE }

  /** Which instruction push_int64 writes. */
  lemma PushReads(n: int)
    requires -0x8000_0000_0000_0000 < n < 0x8000_0000_0000_0000
    ensures IsInstruction(PushInt(n))
    ensures var f := GetOp(PushInt(n), 0);
            f.opcode <= OP_16 && |f.data| <= 9 &&
            if f.opcode <= OP_PUSHDATA4 then f.data == ScriptNum.Encode(n) && CheckMinimalPush(f.data, f.opcode)
            else (f.opcode == OP_1NEGATE || OP_1 <= f.opcode) && f.opcode as int - 0x50 == n
  {
    if n == -1 || 0 <= n <= 16 {
      assert ScriptNum.Encode(0) == [];
      hide ScriptNum.Encode;
    } else {
      hide GetOp, ScriptNum.Encode, CheckMinimalPush, PushHeader;
      Pushes.DataPush(n);
    }
  }

  lemma PushRuns(env: Env, n: int, next: nat, st: State)
    requires -0x8000_0000_0000_0000 < n < 0x8000_0000_0000_0000
    requires st.codeStart <= |env.script| && next <= |env.script| && Roomy(st, 0)
    ensures IsInstruction(PushInt(n))
    ensures var f := GetOp(PushInt(n), 0);
            Step(env, f.opcode, f.data, next, false, st) == Next(st) &&
            (Roomy(st, 1) ==> Step(env, f.opcode, f.data, next, true, st) == Next(After(st, 0, n)))
  {
    PushReads(n);
    hide GetOp, ScriptNum.Encode, CheckMinimalPush, PushInt, LockOp, StackOp, EqualOp, UnaryOp, BinaryOp, WithinOp;
    hide HashOp, SigOp, MultisigOp;
  }

  /** The opcodes the compiler emits are enabled ones that are skipped in a branch not taken. */
  lemma OpcodeSkips(env: Env, op: byte, next: nat, st: State)
    requires IsNumeric(op)
    requires st.codeStart <= |env.script| && next <= |env.script| && Roomy(st, 0)
    requires st.opCount + 1 <= MAX_OPS_PER_SCRIPT
    ensures GetOp([op], 0) == Op(op, [], 1) && IsInstruction([op])
    ensures Step(env, op, [], next, false, st) == Next(Counted(st, 1))
  {
    hide Exec;
  }

  /** An executed opcode goes through the switch, counted. */
  lemma OpcodeRuns(env: Env, op: byte, next: nat, st: State)
    requires IsNumeric(op)
    requires st.codeStart <= |env.script| && next <= |env.script| && Roomy(st, 0)
    requires st.opCount + 1 <= MAX_OPS_PER_SCRIPT
    ensures Step(env, op, [], next, true, st)
         == Limit(if IsUnary(op) then UnaryOp(MINIMALDATA in env.flags, op, Counted(st, 1))
                  else if IsBinary(op) then BinaryOp(MINIMALDATA in env.flags, op, Counted(st, 1))
                  else WithinOp(MINIMALDATA in env.flags, Counted(st, 1)))
  {
    hide Limit, LockOp, StackOp, EqualOp, UnaryOp, BinaryOp, WithinOp, HashOp, SigOp, MultisigOp;
  }

  lemma UnaryRuns(env: Env, f: Unary, next: nat, st: State, a: int)
    requires st.codeStart <= |env.script| && next <= |env.script| && Roomy(st, 1)
    requires st.opCount + 1 <= MAX_OPS_PER_SCRIPT
    ensures Step(env, UnaryOpcode(f), [], next, true, st.(stack := st.stack + [ScriptNum.Encode(a)]))
         == if Fits(a) then Next(After(st, 1, Applied(f, a))) else Fail(UNKNOWN_ERROR, st.sigChecks)
  {
    hide Step, ScriptNum.Encode, ScriptNum.Parse, Fits;
    var st1 := st.(stack := st.stack + [ScriptNum.Encode(a)]);
    OpcodeRuns(env, UnaryOpcode(f), next, st1);
    OperandFits(a, MINIMALDATA in env.flags);
    assert Below(st1.stack, 1) == st.stack;
    assert UnaryValue(UnaryOpcode(f), a) == Applied(f, a);
  }

  lemma BinaryRuns(env: Env, g: Binary, next: nat, st: State, a: int, b: int)
    requires st.codeStart <= |env.script| && next <= |env.script| && Roomy(st, 2)
    requires st.opCount + 1 <= MAX_OPS_PER_SCRIPT
    ensures Step(env, BinaryOpcode(g), [], next, true,
            st.(stack := st.stack + [ScriptNum.Encode(a), ScriptNum.Encode(b)]))
         == if Fits(a) && Fits(b) then Next(After(st, 1, Combined(g, a, b))) else Fail(UNKNOWN_ERROR, st.sigChecks)
  {
    hide Step, ScriptNum.Encode, ScriptNum.Parse, Fits;
    var st1 := st.(stack := st.stack + [ScriptNum.Encode(a), ScriptNum.Encode(b)]);
    OpcodeRuns(env, BinaryOpcode(g), next, st1);
    OperandFits(a, MINIMALDATA in env.flags);
    OperandFits(b, MINIMALDATA in env.flags);
    assert Below(st1.stack, 2) == st.stack;
    assert BinaryValue(BinaryOpcode(g), a, b) == Combined(g, a, b);
  }

  lemma WithinRuns(env: Env, next: nat, st: State, a: int, b: int, c: int)
    requires st.codeStart <= |env.script| && next <= |env.script| && Roomy(st, 3)
    requires st.opCount + 1 <= MAX_OPS_PER_SCRIPT
    ensures Step(env, OP_WITHIN, [], next, true,
            st.(stack := st.stack + [ScriptNum.Encode(a), ScriptNum.Encode(b), ScriptNum.Encode(c)]))
         == if Fits(a) && Fits(b) && Fits(c) then Next(After(st, 1, Bit(b <= a < c)))
            else Fail(UNKNOWN_ERROR, st.sigChecks)
  {
    EncodedBit(b <= a < c);
    hide Step, ScriptNum.Encode, ScriptNum.Parse, Fits, Truth;
    var st1 := st.(stack := st.stack + [ScriptNum.Encode(a), ScriptNum.Encode(b), ScriptNum.Encode(c)]);
    OpcodeRuns(env, OP_WITHIN, next, st1);
    OperandFits(a, MINIMALDATA in env.flags);
    OperandFits(b, MINIMALDATA in env.flags);
    OperandFits(c, MINIMALDATA in env.flags);
    assert Below(st1.stack, 3) == st.stack;
  }

  lemma EncodedBit(b: bool)
    ensures ScriptNum.Encode(Bit(b)) == Truth(b) && CastToBool(Truth(b)) == b
  {
    assert NatLe(1) == [1];
    if b { assert !IsFalsy(Truth(b), 0); }
  }

  // ----- Whole programs -----

  predicate IsNumeric(op: byte) { IsUnary(op) || IsBinary(op) || op == OP_WITHIN }

  /** Room for a program of this length before `t`. */
  predicate Before(env: Env, t: Tree, length: nat, pos: nat, st: State) {
    Proper(t) && st.codeStart <= |env.script| && pos + length + |Flatten(t)| <= |env.script|
  }

  lemma Prefixed(op: byte, t: Tree)
    requires IsNumeric(op) && Proper(t)
    ensures Proper(Instr([op], t)) && |Flatten(Instr([op], t))| == 1 + |Flatten(t)| && GetOp([op], 0) == Op(op, [], 1)
  {}

  lemma InstrRuns(env: Env, op: byte, t: Tree, pos: nat, live: bool, st: State)
    requires IsNumeric(op) && Before(env, t, 1, pos, st)
    ensures Before(env, Instr([op], t), 0, pos, st)
    ensures EvalTree(env, Instr([op], t), pos, live, st)
         == match Step(env, op, [], pos + 1, live, st)
            case Fail(e, n) => Fail(e, n)
            case Next(st1) => EvalTree(env, t, pos + 1, live, st1)
  {
    hide Step, GetOp, Flatten, Proper;
    Prefixed(op, t);
  }

  lemma PushFirst(env: Env, n: int, t: Tree, pos: nat, st: State)
    requires -0x8000_0000_0000_0000 < n < 0x8000_0000_0000_0000 && Before(env, t, |PushInt(n)|, pos, st) && Roomy(st, 0)
    ensures Before(env, Instr(PushInt(n), t), 0, pos, st)
    ensures |Flatten(Instr(PushInt(n), t))| == |PushInt(n)| + |Flatten(t)|
    ensures EvalTree(env, Instr(PushInt(n), t), pos, false, st) == EvalTree(env, t, pos + |PushInt(n)|, false, st)
    ensures Roomy(st, 1) ==>
      EvalTree(env, Instr(PushInt(n), t), pos, true, st) == EvalTree(env, t, pos + |PushInt(n)|, true, After(st, 0, n))
  {
    hide Step, GetOp, PushInt;
    PushRuns(env, n, pos + |PushInt(n)|, st);
  }

  lemma SkipFirst(env: Env, op: byte, t: Tree, pos: nat, st: State)
    requires IsNumeric(op) && Before(env, t, 1, pos, st) && Roomy(st, 0) && st.opCount + 1 <= MAX_OPS_PER_SCRIPT
    ensures Before(env, Instr([op], t), 0, pos, st)
    ensures EvalTree(env, Instr([op], t), pos, false, st) == EvalTree(env, t, pos + 1, false, Counted(st, 1))
  {
    hide Step, EvalTree, Before;
    InstrRuns(env, op, t, pos, false, st);
    assert st.codeStart <= |env.script| && pos + 1 <= |env.script| by {
      assert Before(env, t, 1, pos, st);
      BeforeFits(env, t, 1, pos, st);
    }
    OpcodeSkips(env, op, pos + 1, st);
  }

  lemma BeforeFits(env: Env, t: Tree, length: nat, pos: nat, st: State)
    requires Before(env, t, length, pos, st)
    ensures Proper(t) && st.codeStart <= |env.script| && pos + length <= |env.script|
  {}

  lemma BranchesShape(p: Tree, q: Tree, t: Tree)
    requires Proper(p) && Proper(q) && Proper(t)
    ensures Proper(Branches(p, q, t)) && |Flatten(Branches(p, q, t))| == |Flatten(p)| + |Flatten(q)| + 3 + |Flatten(t)|
  {
    assert FlattenArms(Final(q)) == Flatten(q) && ProperArms(Final(q));
  }

  lemma {:induction false} Shape(e: Expr, t: Tree)
    requires Pushable(e) && Proper(t)
    ensures Proper(Program(e, t)) && |Flatten(Program(e, t))| == Length(e) + |Flatten(t)|
    decreases e
  {
    hide IsInstruction, PushInt, GetOp, Branches;
    match e
    case Number(n) => PushReads(n);
    case Apply(f, x) =>
      Prefixed(UnaryOpcode(f), t);
      Shape(x, Instr([UnaryOpcode(f)], t));
    case Combine(g, x, y) =>
      Prefixed(BinaryOpcode(g), t);
      Shape(y, Instr([BinaryOpcode(g)], t));
      Shape(x, Program(y, Instr([BinaryOpcode(g)], t)));
    case Between(x, low, high) =>
      Prefixed(OP_WITHIN, t);
      Shape(high, Instr([OP_WITHIN], t));
      Shape(low, Program(high, Instr([OP_WITHIN], t)));
      Shape(x, Program(low, Program(high, Instr([OP_WITHIN], t))));
    case Choice(c, x, y) =>
      Shape(x, Done);
      Shape(y, Done);
      BranchesShape(Program(x, Done), Program(y, Done), t);
      Prefixed(OP_0NOTEQUAL, Branches(Program(x, Done), Program(y, Done), t));
      Shape(c, Instr([OP_0NOTEQUAL], Branches(Program(x, Done), Program(y, Done), t)));
  }

  // ----- Conditionals -----

  lemma MarkCounts(env: Env, op: byte, st: State)
    requires (op == OP_ELSE || op == OP_ENDIF) && Roomy(st, 0) && st.opCount + 1 <= MAX_OPS_PER_SCRIPT
    ensures Mark(env, op, st) == Next(Counted(st, 1))
  {}

  lemma OpenSkips(env: Env, st: State)
    requires Roomy(st, 0) && st.opCount + 1 <= MAX_OPS_PER_SCRIPT
    ensures Open(env, false, false, st) == Enter(false, Counted(st, 1))
  {}

  /** A truth value is a condition under every flag set. */
  lemma OpenTests(env: Env, st: State, b: bool)
    requires Roomy(st, 1) && st.opCount + 1 <= MAX_OPS_PER_SCRIPT
    ensures Open(env, false, true, st.(stack := st.stack + [Truth(b)])) == Enter(b, Counted(st, 1))
  {
    EncodedBit(b);
    hide CastToBool;
    assert Below(st.stack + [Truth(b)], 1) == st.stack;
  }

  lemma ArmsRun(env: Env, p: Tree, q: Tree, pos: nat, live: bool, taken: bool, st: State)
    requires Proper(p) && Proper(q) && st.codeStart <= |env.script|
    requires pos + |Flatten(p)| + 1 + |Flatten(q)| <= |env.script|
    ensures ProperArms(Else(p, Final(q))) && |FlattenArms(Else(p, Final(q)))| == |Flatten(p)| + 1 + |Flatten(q)|
    ensures EvalArms(env, Else(p, Final(q)), pos, live, taken, st) ==
      match EvalTree(env, p, pos, live && taken, st)
      case Fail(e, n) => Fail(e, n)
      case Next(st1) =>
        match Mark(env, OP_ELSE, st1)
        case Fail(e, n) => Fail(e, n)
        case Next(st2) => EvalTree(env, q, pos + |Flatten(p)| + 1, live && !taken, st2)
  {
    assert FlattenArms(Final(q)) == Flatten(q) && ProperArms(Final(q));
    hide Mark, EvalTree, Flatten, Proper;
  }

  lemma CondRuns(env: Env, arms: Arms, t: Tree, pos: nat, live: bool, st: State, st0: State, taken: bool)
    requires ProperArms(arms) && Before(env, t, |FlattenArms(arms)| + 2, pos, st)
    requires Open(env, false, live, st) == Enter(taken, st0)
    ensures Before(env, Cond(false, arms, t), 0, pos, st) && st0.codeStart <= |env.script|
    ensures EvalTree(env, Cond(false, arms, t), pos, live, st) ==
      match EvalArms(env, arms, pos + 1, live, taken, st0)
      case Fail(e, n) => Fail(e, n)
      case Next(st2) =>
        match Mark(env, OP_ENDIF, st2)
        case Fail(e, n) => Fail(e, n)
        case Next(st3) => EvalTree(env, t, pos + 2 + |FlattenArms(arms)|, live, st3)
  {
    hide Open, Mark, FlattenArms, EvalArms;
  }

  /** A conditional whose arms end in st1 and st2. */
  lemma BranchesRun(env: Env, p: Tree, q: Tree, t: Tree, pos: nat, live: bool, st: State, st0: State, taken: bool,
                    st1: State, st2: State)
    requires Proper(p) && Proper(q) && Before(env, t, |Flatten(p)| + |Flatten(q)| + 3, pos, st)
    requires st0.codeStart <= |env.script| && st1.codeStart <= |env.script| && st2.codeStart <= |env.script|
    requires Roomy(st1, 0) && Roomy(st2, 0) && st1.opCount < MAX_OPS_PER_SCRIPT && st2.opCount < MAX_OPS_PER_SCRIPT
    requires Open(env, false, live, st) == Enter(taken, st0)
    requires EvalTree(env, p, pos + 1, live && taken, st0) == Next(st1)
    requires EvalTree(env, q, pos + 2 + |Flatten(p)|, live && !taken, Counted(st1, 1)) == Next(st2)
    ensures Before(env, Branches(p, q, t), 0, pos, st)
    ensures EvalTree(env, Branches(p, q, t), pos, live, st)
         == EvalTree(env, t, pos + |Flatten(p)| + |Flatten(q)| + 3, live, Counted(st2, 1))
  {
    hide Open, Mark, Flatten, Proper, FlattenArms, ProperArms, EvalTree, EvalArms;
    MarkCounts(env, OP_ELSE, st1);
    MarkCounts(env, OP_ENDIF, st2);
    ArmsRun(env, p, q, pos + 1, live, taken, st0);
    CondRuns(env, Else(p, Final(q)), t, pos, live, st, st0, taken);
  }

  /** A conditional that fails in the arm taken. */
  lemma BranchesFail(env: Env, p: Tree, q: Tree, t: Tree, pos: nat, st: State, st0: State, taken: bool, st1: State,
                     e: ScriptError, n: nat)
    requires Proper(p) && Proper(q) && Before(env, t, |Flatten(p)| + |Flatten(q)| + 3, pos, st)
    requires st0.codeStart <= |env.script| && st1.codeStart <= |env.script|
    requires Roomy(st1, 0) && st1.opCount < MAX_OPS_PER_SCRIPT
    requires Open(env, false, true, st) == Enter(taken, st0)
    requires taken ==> EvalTree(env, p, pos + 1, true, st0) == Fail(e, n)
    requires !taken ==> EvalTree(env, p, pos + 1, false, st0) == Next(st1)
    requires !taken ==> EvalTree(env, q, pos + 2 + |Flatten(p)|, true, Counted(st1, 1)) == Fail(e, n)
    ensures Before(env, Branches(p, q, t), 0, pos, st)
    ensures EvalTree(env, Branches(p, q, t), pos, true, st) == Fail(e, n)
  {
    hide Open, Mark, Flatten, Proper, FlattenArms, ProperArms, EvalTree, EvalArms;
    MarkCounts(env, OP_ELSE, st1);
    ArmsRun(env, p, q, pos + 1, true, taken, st0);
    CondRuns(env, Else(p, Final(q)), t, pos, true, st, st0, taken);
  }

  // ----- Expressions -----

  /** A program that is not executed has room in the script, the count and the stack. */
  predicate SkipsOf(env: Env, e: Expr, t: Tree, pos: nat, st: State) {
    Pushable(e) && Before(env, t, Length(e), pos, st) && st.opCount + Ops(e) <= MAX_OPS_PER_SCRIPT && Roomy(st, 0)
  }

  /** It is counted and skipped. */
  predicate Skipped(env: Env, e: Expr, t: Tree, pos: nat, st: State)
    requires Before(env, t, Length(e), pos, st)
  {
    Before(env, Program(e, t), 0, pos, st) &&
    EvalTree(env, Program(e, t), pos, false, st) == EvalTree(env, t, pos + Length(e), false, Counted(st, Ops(e)))
  }

  lemma DeadNumber(env: Env, n: int, t: Tree, pos: nat, st: State)
    requires SkipsOf(env, Number(n), t, pos, st)
    ensures Skipped(env, Number(n), t, pos, st)
  {
    hide EvalTree, Flatten, Proper, PushInt, ScriptNum.Encode;
    PushFirst(env, n, t, pos, st);
  }

  lemma {:induction false} DeadRun(env: Env, e: Expr, t: Tree, pos: nat, st: State)
    requires SkipsOf(env, e, t, pos, st)
    ensures Skipped(env, e, t, pos, st)
    decreases e, 2
  {
    hide SkipsOf, Skipped, Before;
    match e
    case Number(n) => DeadNumber(env, n, t, pos, st);
    case Apply(f, x) => DeadApply(env, f, x, t, pos, st);
    case Combine(g, x, y) => DeadCombine(env, g, x, y, t, pos, st);
    case Between(x, low, high) => DeadBetween(env, x, low, high, t, pos, st);
    case Choice(c, x, y) => DeadChoice(env, c, x, y, t, pos, st);
  }

  lemma {:induction false} DeadApply(env: Env, f: Unary, x: Expr, t: Tree, pos: nat, st: State)
    requires SkipsOf(env, Apply(f, x), t, pos, st)
    ensures Skipped(env, Apply(f, x), t, pos, st)
    decreases Apply(f, x), 0
  {
    hide Step, GetOp, Flatten, Proper, EvalTree, PushInt;
    var op := UnaryOpcode(f);
    Prefixed(op, t);
    DeadRun(env, x, Instr([op], t), pos, st);
    SkipFirst(env, op, t, pos + Length(x), Counted(st, Ops(x)));
  }

  lemma {:induction false} DeadCombine(env: Env, g: Binary, x: Expr, y: Expr, t: Tree, pos: nat, st: State)
    requires SkipsOf(env, Combine(g, x, y), t, pos, st)
    ensures Skipped(env, Combine(g, x, y), t, pos, st)
    decreases Combine(g, x, y), 0
  {
    hide Step, GetOp, Flatten, Proper, EvalTree, PushInt;
    var op := BinaryOpcode(g);
    Prefixed(op, t);
    Shape(y, Instr([op], t));
    DeadRun(env, x, Program(y, Instr([op], t)), pos, st);
    DeadRun(env, y, Instr([op], t), pos + Length(x), Counted(st, Ops(x)));
    SkipFirst(env, op, t, pos + Length(x) + Length(y), Counted(st, Ops(x) + Ops(y)));
  }

  lemma {:induction false} DeadBetween(env: Env, x: Expr, low: Expr, high: Expr, t: Tree, pos: nat, st: State)
    requires SkipsOf(env, Between(x, low, high), t, pos, st)
    ensures Skipped(env, Between(x, low, high), t, pos, st)
    decreases Between(x, low, high), 0
  {
    hide Step, GetOp, Flatten, Proper, EvalTree, PushInt;
    var last := Instr([OP_WITHIN], t);
    Prefixed(OP_WITHIN, t);
    Shape(high, last);
    Shape(low, Program(high, last));
    DeadRun(env, x, Program(low, Program(high, last)), pos, st);
    DeadRun(env, low, Program(high, last), pos + Length(x), Counted(st, Ops(x)));
    DeadRun(env, high, last, pos + Length(x) + Length(low), Counted(st, Ops(x) + Ops(low)));
    SkipFirst(env, OP_WITHIN, t, pos + Length(x) + Length(low) + Length(high),
        Counted(st, Ops(x) + Ops(low) + Ops(high)));
  }

  /** The bytes of a program that nothing follows. */
  lemma Alone(e: Expr)
    requires Pushable(e)
    ensures Proper(Program(e, Done)) && |Flatten(Program(e, Done))| == Length(e)
  {
    Shape(e, Done);
  }

  lemma NothingFollows()
    ensures Proper(Done) && |Flatten(Done)| == 0
  {}

  lemma Finished(env: Env, pos: nat, live: bool, st: State)
    requires st.codeStart <= |env.script| && pos <= |env.script|
    ensures EvalTree(env, Done, pos, live, st) == Next(st)
  {}

  /** Room for a conditional with these two arms. */
  predicate RoomForBoth(env: Env, x: Expr, y: Expr, t: Tree, pos: nat, st: State) {
    Pushable(x) && Pushable(y) && Before(env, t, Length(x) + Length(y) + 3, pos, st)
    && st.opCount + Ops(x) + Ops(y) + 3 <= MAX_OPS_PER_SCRIPT && Roomy(st, 0)
  }

  lemma {:induction false} DeadArm(env: Env, e: Expr, pos: nat, st: State)
    requires SkipsOf(env, e, Done, pos, st)
    ensures Proper(Program(e, Done)) && |Flatten(Program(e, Done))| == Length(e)
    ensures EvalTree(env, Program(e, Done), pos, false, st) == Next(Counted(st, Ops(e)))
    decreases e, 3
  {
    hide Flatten, Proper, EvalTree, Program, Length, Ops, Pushable;
    NothingFollows();
    Alone(e);
    DeadRun(env, e, Done, pos, st);
    Finished(env, pos + Length(e), false, Counted(st, Ops(e)));
  }

  lemma BothLengths(x: Expr, y: Expr, t: Tree)
    requires Pushable(x) && Pushable(y) && Proper(t)
    ensures var b := Branches(Program(x, Done), Program(y, Done), t);
            Proper(b) && |Flatten(b)| == Length(x) + Length(y) + 3 + |Flatten(t)|
  {
    hide Flatten, Proper, Branches;
    Alone(x);
    Alone(y);
    BranchesShape(Program(x, Done), Program(y, Done), t);
  }

  lemma {:induction false} DeadBoth(env: Env, c: Expr, x: Expr, y: Expr, t: Tree, pos: nat, st: State)
    requires RoomForBoth(env, x, y, t, pos, st)
    ensures Before(env, Branches(Program(x, Done), Program(y, Done), t), 0, pos, st)
    ensures EvalTree(env, Branches(Program(x, Done), Program(y, Done), t), pos, false, st)
         == EvalTree(env, t, pos + Length(x) + Length(y) + 3, false, Counted(st, Ops(x) + Ops(y) + 3))
    decreases Choice(c, x, y), 0
  {
    hide Flatten, Proper, EvalTree, Open, Mark, Program, Branches, Length, Ops, Pushable;
    var st1 := Counted(st, 1 + Ops(x));
    var st2 := Counted(st1, 1 + Ops(y));
    NothingFollows();
    OpenSkips(env, st);
    DeadArm(env, x, pos + 1, Counted(st, 1));
    DeadArm(env, y, pos + 2 + Length(x), Counted(st1, 1));
    BranchesRun(env, Program(x, Done), Program(y, Done), t, pos, false, st, Counted(st, 1), false, st1, st2);
  }

  lemma ChoiceMeasures(c: Expr, x: Expr, y: Expr, t: Tree)
    ensures Pushable(Choice(c, x, y)) <==> Pushable(c) && Pushable(x) && Pushable(y)
    ensures Ops(Choice(c, x, y)) == Ops(c) + Ops(x) + Ops(y) + 4
    ensures Length(Choice(c, x, y)) == Length(c) + Length(x) + Length(y) + 4
    ensures Program(Choice(c, x, y), t)
            == Program(c, Instr([OP_0NOTEQUAL], Branches(Program(x, Done), Program(y, Done), t)))
  {}

  lemma {:induction false} DeadChoice(env: Env, c: Expr, x: Expr, y: Expr, t: Tree, pos: nat, st: State)
    requires SkipsOf(env, Choice(c, x, y), t, pos, st)
    ensures Skipped(env, Choice(c, x, y), t, pos, st)
    decreases Choice(c, x, y), 1
  {
    hide Step, GetOp, Flatten, Proper, EvalTree, Open, Branches, Program, Length, Ops, Pushable;
    var b := Branches(Program(x, Done), Program(y, Done), t);
    ChoiceMeasures(c, x, y, t);
    BothLengths(x, y, t);
    Prefixed(OP_0NOTEQUAL, b);
    DeadRun(env, c, Instr([OP_0NOTEQUAL], b), pos, st);
    SkipFirst(env, OP_0NOTEQUAL, b, pos + Length(c), Counted(st, Ops(c)));
    DeadBoth(env, c, x, y, t, pos + Length(c) + 1, Counted(st, Ops(c) + 1));
  }

  // ----- Executed code -----

  predicate RunsOf(env: Env, e: Expr, t: Tree, pos: nat, st: State) {
    Pushable(e) && Before(env, t, Length(e), pos, st) && st.opCount + Ops(e) <= MAX_OPS_PER_SCRIPT
        && Roomy(st, Depth(e))
  }

  /** Going on after a value, or failing for want of one. */
  function Onward(env: Env, t: Tree, pos: nat, st: State, ops: nat, v: Option<int>): Outcome
    requires Before(env, t, 0, pos, st)
  {
    match v
    case None => Fail(UNKNOWN_ERROR, st.sigChecks)
    case Some(n) => EvalTree(env, t, pos, true, After(st, ops, n))
  }

  predicate Ran(env: Env, e: Expr, t: Tree, pos: nat, st: State)
    requires Before(env, t, Length(e), pos, st)
  {
    Before(env, Program(e, t), 0, pos, st) &&
    EvalTree(env, Program(e, t), pos, true, st) == Onward(env, t, pos + Length(e), st, Ops(e), Meaning(e))
  }

  lemma UnaryLast(env: Env, f: Unary, t: Tree, pos: nat, st: State, ops: nat, a: int)
    requires Before(env, t, 1, pos, st) && Roomy(st, 1) && st.opCount + ops + 1 <= MAX_OPS_PER_SCRIPT
    ensures Before(env, Instr([UnaryOpcode(f)], t), 0, pos, st)
    ensures EvalTree(env, Instr([UnaryOpcode(f)], t), pos, true, After(st, ops, a))
         == Onward(env, t, pos + 1, st, ops + 1, if Fits(a) then Some(Applied(f, a)) else None)
  {
    hide Step, EvalTree, Flatten, Proper, Fits, Applied, ScriptNum.Encode, UnaryOpcode;
    UnaryIsNumeric(f);
    InstrRuns(env, UnaryOpcode(f), t, pos, true, After(st, ops, a));
    UnaryRuns(env, f, pos + 1, Counted(st, ops), a);
  }

  lemma UnaryIsNumeric(f: Unary) ensures IsNumeric(UnaryOpcode(f)) {}

  lemma BinaryIsNumeric(g: Binary) ensures IsNumeric(BinaryOpcode(g)) {}

  lemma BinaryLast(env: Env, g: Binary, t: Tree, pos: nat, st: State, i: nat, j: nat, a: int, b: int)
    requires Before(env, t, 1, pos, st) && Roomy(st, 2) && st.opCount + i + j + 1 <= MAX_OPS_PER_SCRIPT
    ensures Before(env, Instr([BinaryOpcode(g)], t), 0, pos, st)
    ensures EvalTree(env, Instr([BinaryOpcode(g)], t), pos, true, After(After(st, i, a), j, b))
         == Onward(env, t, pos + 1, st, i + j + 1, if Fits(a) && Fits(b) then Some(Combined(g, a, b)) else None)
  {
    hide Step, EvalTree, Flatten, Proper, Fits, Combined, ScriptNum.Encode, BinaryOpcode;
    BinaryIsNumeric(g);
    var x, y := ScriptNum.Encode(a), ScriptNum.Encode(b);
    assert st.stack + [x] + [y] == st.stack + [x, y];
    InstrRuns(env, BinaryOpcode(g), t, pos, true, After(After(st, i, a), j, b));
    BinaryRuns(env, g, pos + 1, Counted(st, i + j), a, b);
  }

  lemma WithinLast(env: Env, t: Tree, pos: nat, st: State, i: nat, j: nat, k: nat, a: int, b: int, c: int)
    requires Before(env, t, 1, pos, st) && Roomy(st, 3) && st.opCount + i + j + k + 1 <= MAX_OPS_PER_SCRIPT
    ensures Before(env, Instr([OP_WITHIN], t), 0, pos, st)
    ensures EvalTree(env, Instr([OP_WITHIN], t), pos, true, After(After(After(st, i, a), j, b), k, c))
         == Onward(env, t, pos + 1, st, i + j + k + 1,
                   if Fits(a) && Fits(b) && Fits(c) then Some(Bit(b <= a < c)) else None)
  {
    hide Step, EvalTree, Flatten, Proper, Fits, ScriptNum.Encode;
    var x, y, z := ScriptNum.Encode(a), ScriptNum.Encode(b), ScriptNum.Encode(c);
    assert st.stack + [x] + [y] + [z] == st.stack + [x, y, z];
    InstrRuns(env, OP_WITHIN, t, pos, true, After(After(After(st, i, a), j, b), k, c));
    WithinRuns(env, pos + 1, Counted(st, i + j + k), a, b, c);
  }

  lemma ApplyMeasures(f: Unary, x: Expr, t: Tree)
    ensures Pushable(Apply(f, x)) <==> Pushable(x)
    ensures Ops(Apply(f, x)) == Ops(x) + 1 && Length(Apply(f, x)) == Length(x) + 1 && Depth(Apply(f, x)) == Depth(x)
    ensures Program(Apply(f, x), t) == Program(x, Instr([UnaryOpcode(f)], t))
    ensures Meaning(Apply(f, x)) == if Operand(x).Some? then Some(Applied(f, Operand(x).value)) else None
  {}

  lemma CombineMeasures(g: Binary, x: Expr, y: Expr, t: Tree)
    ensures Pushable(Combine(g, x, y)) <==> Pushable(x) && Pushable(y)
    ensures Ops(Combine(g, x, y)) == Ops(x) + Ops(y) + 1 && Length(Combine(g, x, y)) == Length(x) + Length(y) + 1
    ensures Depth(Combine(g, x, y)) == Max(Depth(x), if Meaning(x).Some? then 1 + Depth(y) else 0)
    ensures Program(Combine(g, x, y), t) == Program(x, Program(y, Instr([BinaryOpcode(g)], t)))
    ensures Meaning(Combine(g, x, y))
         == if Operand(x).Some? && Operand(y).Some? then Some(Combined(g, Operand(x).value, Operand(y).value)) else None
  {}

  lemma BetweenMeasures(x: Expr, low: Expr, high: Expr, t: Tree)
    ensures Pushable(Between(x, low, high)) <==> Pushable(x) && Pushable(low) && Pushable(high)
    ensures Ops(Between(x, low, high)) == Ops(x) + Ops(low) + Ops(high) + 1
    ensures Length(Between(x, low, high)) == Length(x) + Length(low) + Length(high) + 1
    ensures Program(Between(x, low, high), t) == Program(x, Program(low, Program(high, Instr([OP_WITHIN], t))))
  {}

  lemma BetweenMeaning(x: Expr, low: Expr, high: Expr)
    ensures var above := Max(1 + Depth(low), if Meaning(low).Some? then 2 + Depth(high) else 0);
            Depth(Between(x, low, high)) == Max(Depth(x), if Meaning(x).Some? then above else 0)
    ensures Meaning(Between(x, low, high))
         == if Operand(x).Some? && Operand(low).Some? && Operand(high).Some?
            then Some(Bit(Operand(low).value <= Operand(x).value < Operand(high).value)) else None
  {
    hide Max, Operand;
  }

  lemma {:induction false} LiveApply(env: Env, f: Unary, x: Expr, t: Tree, pos: nat, st: State)
    requires RunsOf(env, Apply(f, x), t, pos, st)
    ensures Ran(env, Apply(f, x), t, pos, st)
    decreases Apply(f, x), 0
  {
    hide GetOp, Flatten, Proper, EvalTree, Program, Length, Ops, Pushable, Depth, Meaning, Applied, UnaryOpcode, Fits;
    ApplyMeasures(f, x, t);
    UnaryIsNumeric(f);
    Prefixed(UnaryOpcode(f), t);
    LiveRun(env, x, Instr([UnaryOpcode(f)], t), pos, st);
    if Meaning(x).Some? { UnaryLast(env, f, t, pos + Length(x), st, Ops(x), Meaning(x).value); }
  }

  lemma {:induction false} LiveCombine(env: Env, g: Binary, x: Expr, y: Expr, t: Tree, pos: nat, st: State)
    requires RunsOf(env, Combine(g, x, y), t, pos, st)
    ensures Ran(env, Combine(g, x, y), t, pos, st)
    decreases Combine(g, x, y), 0
  {
    hide GetOp, Flatten, Proper, EvalTree, Program, Length, Ops, Pushable, Depth, Meaning, Combined, BinaryOpcode, Fits;
    hide ScriptNum.Encode;
    CombineMeasures(g, x, y, t);
    BinaryIsNumeric(g);
    var last := Instr([BinaryOpcode(g)], t);
    Prefixed(BinaryOpcode(g), t);
    Shape(y, last);
    LiveRun(env, x, Program(y, last), pos, st);
    if Meaning(x).Some? {
      var a := Meaning(x).value;
      LiveRun(env, y, last, pos + Length(x), After(st, Ops(x), a));
      if Meaning(y).Some? {
        BinaryLast(env, g, t, pos + Length(x) + Length(y), st, Ops(x), Ops(y), a, Meaning(y).value);
      }
    }
  }

  lemma {:induction false} LiveBetween(env: Env, x: Expr, low: Expr, high: Expr, t: Tree, pos: nat, st: State)
    requires RunsOf(env, Between(x, low, high), t, pos, st)
    ensures Ran(env, Between(x, low, high), t, pos, st)
    decreases Between(x, low, high), 0
  {
    hide GetOp, Flatten, Proper, EvalTree, Program, Length, Ops, Pushable, Depth, Meaning, Fits, ScriptNum.Encode, Bit;
    BetweenMeasures(x, low, high, t);
    BetweenMeaning(x, low, high);
    var last := Instr([OP_WITHIN], t);
    Prefixed(OP_WITHIN, t);
    Shape(high, last);
    Shape(low, Program(high, last));
    LiveRun(env, x, Program(low, Program(high, last)), pos, st);
    if Meaning(x).Some? {
      var st1 := After(st, Ops(x), Meaning(x).value);
      LiveRun(env, low, Program(high, last), pos + Length(x), st1);
      if Meaning(low).Some? {
        LiveRun(env, high, last, pos + Length(x) + Length(low), After(st1, Ops(low), Meaning(low).value));
        if Meaning(high).Some? {
          WithinLast(env, t, pos + Length(x) + Length(low) + Length(high), st,
                     Ops(x), Ops(low), Ops(high), Meaning(x).value, Meaning(low).value, Meaning(high).value);
        }
      }
    }
  }

  lemma LiveNumber(env: Env, n: int, t: Tree, pos: nat, st: State)
    requires RunsOf(env, Number(n), t, pos, st)
    ensures Ran(env, Number(n), t, pos, st)
  {
    hide EvalTree, Flatten, Proper, PushInt, ScriptNum.Encode;
    PushFirst(env, n, t, pos, st);
  }

  lemma {:induction false} LiveRun(env: Env, e: Expr, t: Tree, pos: nat, st: State)
    requires RunsOf(env, e, t, pos, st)
    ensures Ran(env, e, t, pos, st)
    decreases e, 2
  {
    hide RunsOf, Ran, Before;
    match e
    case Number(n) => LiveNumber(env, n, t, pos, st);
    case Apply(f, x) => LiveApply(env, f, x, t, pos, st);
    case Combine(g, x, y) => LiveCombine(env, g, x, y, t, pos, st);
    case Between(x, low, high) => LiveBetween(env, x, low, high, t, pos, st);
    case Choice(c, x, y) => LiveChoice(env, c, x, y, t, pos, st);
  }

  // ----- A conditional that is executed -----

  lemma {:induction false} LiveArm(env: Env, e: Expr, pos: nat, st: State)
    requires RunsOf(env, e, Done, pos, st)
    ensures Proper(Program(e, Done)) && |Flatten(Program(e, Done))| == Length(e)
    ensures EvalTree(env, Program(e, Done), pos, true, st)
         == match Meaning(e)
            case None => Fail(UNKNOWN_ERROR, st.sigChecks)
            case Some(v) => Next(After(st, Ops(e), v))
    decreases e, 3
  {
    hide Flatten, Proper, EvalTree, Meaning, ScriptNum.Encode, Program, Length, Ops, Depth, Pushable;
    NothingFollows();
    Alone(e);
    LiveRun(env, e, Done, pos, st);
    if Meaning(e).Some? { Finished(env, pos + Length(e), true, After(st, Ops(e), Meaning(e).value)); }
  }

  /** The arm taken gives the value; the other is counted. */
  lemma {:induction false} LiveBoth(env: Env, c: Expr, x: Expr, y: Expr, t: Tree, pos: nat, st: State, taken: bool)
    requires RoomForBoth(env, x, y, t, pos, st) && Roomy(st, 1) && Roomy(st, if taken then Depth(x) else Depth(y))
    ensures Before(env, Branches(Program(x, Done), Program(y, Done), t), 0, pos, st)
    ensures EvalTree(env, Branches(Program(x, Done), Program(y, Done), t), pos, true,
            st.(stack := st.stack + [Truth(taken)]))
         == Onward(env, t, pos + Length(x) + Length(y) + 3, st, Ops(x) + Ops(y) + 3,
                   if taken then Meaning(x) else Meaning(y))
    decreases Choice(c, x, y), 0
  {
    hide Flatten, Proper, EvalTree, Open, Program, Branches, Length, Ops, Pushable, Depth, Meaning, ScriptNum.Encode;
    hide Truth;
    var p, q := Program(x, Done), Program(y, Done);
    var st0 := st.(stack := st.stack + [Truth(taken)]);
    NothingFollows();
    OpenTests(env, st, taken);
    if taken {
      LiveArm(env, x, pos + 1, Counted(st, 1));
      Alone(y);
      if Meaning(x).Some? {
        var st1 := After(st, 1 + Ops(x), Meaning(x).value);
        DeadArm(env, y, pos + 2 + Length(x), Counted(st1, 1));
        BranchesRun(env, p, q, t, pos, true, st0, Counted(st, 1), true, st1, Counted(st1, 1 + Ops(y)));
      } else {
        BranchesFail(env, p, q, t, pos, st0, Counted(st, 1), true, st, UNKNOWN_ERROR, st.sigChecks);
      }
    } else {
      DeadArm(env, x, pos + 1, Counted(st, 1));
      var st1 := Counted(st, 1 + Ops(x));
      LiveArm(env, y, pos + 2 + Length(x), Counted(st1, 1));
      if Meaning(y).Some? {
        BranchesRun(env, p, q, t, pos, true, st0, Counted(st, 1), false, st1, After(st1, 1 + Ops(y), Meaning(y).value));
      } else {
        BranchesFail(env, p, q, t, pos, st0, Counted(st, 1), false, st1, UNKNOWN_ERROR, st.sigChecks);
      }
    }
  }

  lemma ChoiceMeaning(c: Expr, x: Expr, y: Expr)
    ensures var a := Operand(c);
            Depth(Choice(c, x, y)) == Max(Depth(c), if a.None? then 0 else if a.value != 0 then Depth(x) else Depth(y))
    ensures Meaning(Choice(c, x, y))
         == if Operand(c).None? then None else if Operand(c).value != 0 then Meaning(x) else Meaning(y)
  {}

  lemma {:induction false} LiveChoice(env: Env, c: Expr, x: Expr, y: Expr, t: Tree, pos: nat, st: State)
    requires RunsOf(env, Choice(c, x, y), t, pos, st)
    ensures Ran(env, Choice(c, x, y), t, pos, st)
    decreases Choice(c, x, y), 1
  {
    hide GetOp, Flatten, Proper, EvalTree, Branches, Program, Length, Ops, Pushable, Depth, Meaning, Fits;
    hide ScriptNum.Encode, Truth;
    var b := Branches(Program(x, Done), Program(y, Done), t);
    ChoiceMeasures(c, x, y, t);
    ChoiceMeaning(c, x, y);
    BothLengths(x, y, t);
    Prefixed(OP_0NOTEQUAL, b);
    LiveRun(env, c, Instr([OP_0NOTEQUAL], b), pos, st);
    if Meaning(c).Some? {
      var a := Meaning(c).value;
      UnaryLast(env, IsNonzero, b, pos + Length(c), st, Ops(c), a);
      EncodedBit(a != 0);
      if Fits(a) { LiveBoth(env, c, x, y, t, pos + Length(c) + 1, Counted(st, Ops(c) + 1), a != 0); }
    }
  }

  /** Within the limits, the compiled script leaves the value of the expression or fails for want of one. */
  lemma EvaluatesWithin(e: Expr, flags: Flags, checker: Checker, sv: SigVersion, stack: Stack)
    requires Pushable(e) && Length(e) <= MAX_SCRIPT_SIZE && Ops(e) <= MAX_OPS_PER_SCRIPT
    requires |stack| + Depth(e) <= MAX_STACK_SIZE
    ensures Eval(Env(Compile(e), flags, checker, sv), stack)
         == match Meaning(e)
            case None => Fail(UNKNOWN_ERROR, 0)
            case Some(v) => Next(State(stack + [ScriptNum.Encode(v)], [], Ops(e), 0, 0))
  {
    hide Flatten, Proper, EvalTree, Meaning, ScriptNum.Encode, Program, Length, Ops, Depth, Pushable, Eval;
    NothingFollows();
    Alone(e);
    LiveArm(Env(Compile(e), flags, checker, sv), e, 0, Start(stack));
    FlatRefinesNested(Program(e, Done), flags, checker, sv, stack);
  }
}
