/** Compiled expressions and the interpreter's limits: a script succeeds exactly when its expression can be afforded. */
module ExpressionLimits {
  import opened Bytes
  import opened Script
  import opened Interpreter
  import opened Conditionals
  import opened Expressions
  import ScriptNum

  predicate Afforded(e: Expr, st: State) {
    st.opCount + Ops(e) <= MAX_OPS_PER_SCRIPT && Roomy(st, Depth(e)) && Meaning(e).Some?
  }

  /** The program lies at pos, with its tail. */
  predicate Lies(env: Env, e: Expr, t: Tree, pos: nat, st: State) {
    Pushable(e) && Before(env, t, Length(e), pos, st) && Before(env, Program(e, t), 0, pos, st)
        && st.opCount <= MAX_OPS_PER_SCRIPT
  }

  lemma ItLies(env: Env, e: Expr, t: Tree, pos: nat, st: State)
    requires Pushable(e) && Before(env, t, Length(e), pos, st) && st.opCount <= MAX_OPS_PER_SCRIPT
    ensures Lies(env, e, t, pos, st)
  {
    hide Flatten, Proper;
    Shape(e, t);
  }

  // ----- What a success has passed -----

  lemma StepPassed(env: Env, op: byte, data: Bytes, next: nat, live: bool, st: State)
    requires st.codeStart <= |env.script| && next <= |env.script| && Step(env, op, data, next, live, st).Next?
    requires op > OP_16
    ensures st.opCount + 1 <= MAX_OPS_PER_SCRIPT
  {
    hide Perform, Limit;
  }

  lemma InstrPassed(env: Env, op: byte, t: Tree, pos: nat, live: bool, st: State)
    requires IsNumeric(op) && Before(env, t, 1, pos, st) && Before(env, Instr([op], t), 0, pos, st)
    requires EvalTree(env, Instr([op], t), pos, live, st).Next?
    ensures st.opCount + 1 <= MAX_OPS_PER_SCRIPT
  {
    hide Step, EvalTree, Flatten, Proper;
    InstrRuns(env, op, t, pos, live, st);
    StepPassed(env, op, [], pos + 1, live, st);
  }

  lemma PushPassed(env: Env, n: int, t: Tree, pos: nat, st: State)
    requires Lies(env, Number(n), t, pos, st) && EvalTree(env, Program(Number(n), t), pos, true, st).Next?
    ensures Afforded(Number(n), st)
  {
    PushReads(n);
    var f := GetOp(PushInt(n), 0);
    assert Step(env, f.opcode, f.data, pos + |PushInt(n)|, true, st).Next?;
    hide GetOp, PushInt, Flatten, Proper, EvalTree, LockOp, StackOp, EqualOp, UnaryOp, BinaryOp, WithinOp, HashOp;
    hide SigOp, MultisigOp;
  }

  lemma OpenPassed(env: Env, live: bool, st: State)
    requires Open(env, false, live, st).Enter?
    ensures st.opCount + 1 <= MAX_OPS_PER_SCRIPT
  {}

  lemma MarkPassed(env: Env, op: byte, st: State)
    requires (op == OP_ELSE || op == OP_ENDIF) && Mark(env, op, st).Next?
    ensures st.opCount + 1 <= MAX_OPS_PER_SCRIPT
  {}

  lemma CondPassed(env: Env, arms: Arms, t: Tree, pos: nat, live: bool, st: State)
    requires ProperArms(arms) && Before(env, t, |FlattenArms(arms)| + 2, pos, st)
    requires Before(env, Cond(false, arms, t), 0, pos, st)
    requires EvalTree(env, Cond(false, arms, t), pos, live, st).Next?
    ensures Open(env, false, live, st).Enter?
  {
    hide Open, Mark, FlattenArms, EvalArms;
  }

  /** The two arms and the marks of a conditional that was passed. */
  lemma BranchesPassed(env: Env, p: Tree, q: Tree, t: Tree, pos: nat, live: bool, st: State)
    requires Proper(p) && Proper(q) && Before(env, t, |Flatten(p)| + |Flatten(q)| + 3, pos, st)
    requires Before(env, Branches(p, q, t), 0, pos, st) && EvalTree(env, Branches(p, q, t), pos, live, st).Next?
    ensures Open(env, false, live, st).Enter? && Open(env, false, live, st).st.codeStart <= |env.script|
    ensures var o := Open(env, false, live, st);
            var r1 := EvalTree(env, p, pos + 1, live && o.taken, o.st);
            r1.Next? && Mark(env, OP_ELSE, r1.st).Next? &&
            var r2 := EvalTree(env, q, pos + 2 + |Flatten(p)|, live && !o.taken, Mark(env, OP_ELSE, r1.st).st);
            r2.Next? && Mark(env, OP_ENDIF, r2.st).Next?
  {
    hide Open, Mark, Flatten, Proper, FlattenArms, ProperArms, EvalTree, EvalArms;
    var arms := Else(p, Final(q));
    ArmsShape(p, q);
    CondPassed(env, arms, t, pos, live, st);
    var o := Open(env, false, live, st);
    CondRuns(env, arms, t, pos, live, st, o.st, o.taken);
    ArmsRun(env, p, q, pos + 1, live, o.taken, o.st);
  }

  lemma ArmsShape(p: Tree, q: Tree)
    requires Proper(p) && Proper(q)
    ensures ProperArms(Else(p, Final(q))) && |FlattenArms(Else(p, Final(q)))| == |Flatten(p)| + 1 + |Flatten(q)|
  {
    assert FlattenArms(Final(q)) == Flatten(q) && ProperArms(Final(q));
  }

  // ----- Code that is not executed -----

  /** A skipped program that was passed was counted. */
  predicate Passable(env: Env, e: Expr, t: Tree, pos: nat, st: State) { Lies(env, e, t, pos, st) && Roomy(st, 0) }

  lemma {:induction false} DeadPassed(env: Env, e: Expr, t: Tree, pos: nat, st: State)
    requires Passable(env, e, t, pos, st) && EvalTree(env, Program(e, t), pos, false, st).Next?
    ensures st.opCount + Ops(e) <= MAX_OPS_PER_SCRIPT
    decreases e, 2
  {
    hide EvalTree, Flatten, Proper;
    match e
    case Number(n) =>
    case Apply(f, x) => DeadApplyPassed(env, f, x, t, pos, st);
    case Combine(g, x, y) => DeadCombinePassed(env, g, x, y, t, pos, st);
    case Between(x, low, high) => DeadBetweenPassed(env, x, low, high, t, pos, st);
    case Choice(c, x, y) => DeadChoicePassed(env, c, x, y, t, pos, st);
  }

  lemma {:induction false} DeadApplyPassed(env: Env, f: Unary, x: Expr, t: Tree, pos: nat, st: State)
    requires Passable(env, Apply(f, x), t, pos, st) && EvalTree(env, Program(Apply(f, x), t), pos, false, st).Next?
    ensures st.opCount + Ops(Apply(f, x)) <= MAX_OPS_PER_SCRIPT
    decreases Apply(f, x), 0
  {
    hide EvalTree, Flatten, Proper, Program, Length, Ops, Pushable, UnaryOpcode, GetOp;
    ApplyMeasures(f, x, t);
    UnaryIsNumeric(f);
    var op := UnaryOpcode(f);
    var rest := Instr([op], t);
    Prefixed(op, t);
    ItLies(env, x, rest, pos, st);
    DeadPassed(env, x, rest, pos, st);
    DeadRun(env, x, rest, pos, st);
    InstrPassed(env, op, t, pos + Length(x), false, Counted(st, Ops(x)));
  }

  lemma {:induction false} DeadCombinePassed(env: Env, g: Binary, x: Expr, y: Expr, t: Tree, pos: nat, st: State)
    requires Passable(env, Combine(g, x, y), t, pos, st)
    requires EvalTree(env, Program(Combine(g, x, y), t), pos, false, st).Next?
    ensures st.opCount + Ops(Combine(g, x, y)) <= MAX_OPS_PER_SCRIPT
    decreases Combine(g, x, y), 0
  {
    hide EvalTree, Flatten, Proper, Program, Length, Ops, Pushable, BinaryOpcode, GetOp;
    CombineMeasures(g, x, y, t);
    BinaryIsNumeric(g);
    var op := BinaryOpcode(g);
    var last := Instr([op], t);
    Prefixed(op, t);
    Shape(y, last);
    ItLies(env, x, Program(y, last), pos, st);
    DeadPassed(env, x, Program(y, last), pos, st);
    DeadRun(env, x, Program(y, last), pos, st);
    var st1 := Counted(st, Ops(x));
    ItLies(env, y, last, pos + Length(x), st1);
    DeadPassed(env, y, last, pos + Length(x), st1);
    DeadRun(env, y, last, pos + Length(x), st1);
    InstrPassed(env, op, t, pos + Length(x) + Length(y), false, Counted(st1, Ops(y)));
  }

  lemma {:induction false} DeadBetweenPassed(env: Env, x: Expr, low: Expr, high: Expr, t: Tree, pos: nat, st: State)
    requires Passable(env, Between(x, low, high), t, pos, st)
    requires EvalTree(env, Program(Between(x, low, high), t), pos, false, st).Next?
    ensures st.opCount + Ops(Between(x, low, high)) <= MAX_OPS_PER_SCRIPT
    decreases Between(x, low, high), 0
  {
    hide EvalTree, Flatten, Proper, Program, Length, Ops, Pushable, GetOp;
    BetweenMeasures(x, low, high, t);
    var last := Instr([OP_WITHIN], t);
    Prefixed(OP_WITHIN, t);
    Shape(high, last);
    Shape(low, Program(high, last));
    var rest := Program(low, Program(high, last));
    ItLies(env, x, rest, pos, st);
    DeadPassed(env, x, rest, pos, st);
    DeadRun(env, x, rest, pos, st);
    var st1, at := Counted(st, Ops(x)), pos + Length(x);
    ItLies(env, low, Program(high, last), at, st1);
    DeadPassed(env, low, Program(high, last), at, st1);
    DeadRun(env, low, Program(high, last), at, st1);
    var st2, at' := Counted(st1, Ops(low)), at + Length(low);
    ItLies(env, high, last, at', st2);
    DeadPassed(env, high, last, at', st2);
    DeadRun(env, high, last, at', st2);
    InstrPassed(env, OP_WITHIN, t, at' + Length(high), false, Counted(st2, Ops(high)));
  }

  lemma {:induction false} DeadChoicePassed(env: Env, c: Expr, x: Expr, y: Expr, t: Tree, pos: nat, st: State)
    requires Passable(env, Choice(c, x, y), t, pos, st)
    requires EvalTree(env, Program(Choice(c, x, y), t), pos, false, st).Next?
    ensures st.opCount + Ops(Choice(c, x, y)) <= MAX_OPS_PER_SCRIPT
    decreases Choice(c, x, y), 1
  {
    hide EvalTree, Flatten, Proper, Program, Length, Ops, Pushable, GetOp, Branches, Open;
    ChoiceMeasures(c, x, y, t);
    BothLengths(x, y, t);
    var b := Branches(Program(x, Done), Program(y, Done), t);
    var rest := Instr([OP_0NOTEQUAL], b);
    Prefixed(OP_0NOTEQUAL, b);
    ItLies(env, c, rest, pos, st);
    DeadPassed(env, c, rest, pos, st);
    DeadRun(env, c, rest, pos, st);
    var st1, at := Counted(st, Ops(c)), pos + Length(c);
    InstrPassed(env, OP_0NOTEQUAL, b, at, false, st1);
    SkipFirst(env, OP_0NOTEQUAL, b, at, st1);
    DeadBothPassed(env, c, x, y, t, at + 1, Counted(st1, 1));
  }

  lemma {:induction false} DeadArmPassed(env: Env, e: Expr, pos: nat, st: State)
    requires Passable(env, e, Done, pos, st) && EvalTree(env, Program(e, Done), pos, false, st).Next?
    ensures st.opCount + Ops(e) <= MAX_OPS_PER_SCRIPT
    ensures EvalTree(env, Program(e, Done), pos, false, st) == Next(Counted(st, Ops(e)))
    decreases e, 3
  {
    hide EvalTree, Flatten, Proper, Program, Length, Ops, Pushable;
    DeadPassed(env, e, Done, pos, st);
    DeadArm(env, e, pos, st);
  }

  /** Room for a conditional, with no limit known. */
  predicate BothLie(env: Env, x: Expr, y: Expr, t: Tree, pos: nat, st: State) {
    Pushable(x) && Pushable(y) && Before(env, t, Length(x) + Length(y) + 3, pos, st)
    && Before(env, Branches(Program(x, Done), Program(y, Done), t), 0, pos, st) && st.opCount <= MAX_OPS_PER_SCRIPT
       && Roomy(st, 0)
  }

  /** Where the arms lie, for states that differ in stack and count only. */
  lemma ArmsLie(env: Env, x: Expr, y: Expr, t: Tree, pos: nat, st: State, st1: State)
    requires BothLie(env, x, y, t, pos, st) && st1.codeStart == st.codeStart && st1.opCount <= MAX_OPS_PER_SCRIPT
    ensures Lies(env, x, Done, pos + 1, st1) && Lies(env, y, Done, pos + 2 + Length(x), st1)
  {
    hide Flatten, Proper, Program, Length, Pushable;
    NothingFollows();
    ItLies(env, x, Done, pos + 1, st1);
    ItLies(env, y, Done, pos + 2 + Length(x), st1);
  }

  lemma RoomBefore(env: Env, x: Expr, y: Expr, t: Tree, pos: nat, st: State)
    requires BothLie(env, x, y, t, pos, st)
    ensures st.opCount <= MAX_OPS_PER_SCRIPT && Roomy(st, 0)
  {}

  lemma BothPassed(env: Env, x: Expr, y: Expr, t: Tree, pos: nat, live: bool, st: State, st0: State)
    requires BothLie(env, x, y, t, pos, st) && st0.codeStart == st.codeStart
    requires EvalTree(env, Branches(Program(x, Done), Program(y, Done), t), pos, live, st0).Next?
    ensures Open(env, false, live, st0).Enter? && Open(env, false, live, st0).st.codeStart == st.codeStart
    ensures Before(env, Program(x, Done), 0, pos + 1, st) && Before(env, Program(y, Done), 0, pos + 2 + Length(x), st)
    ensures var o := Open(env, false, live, st0);
            var r1 := EvalTree(env, Program(x, Done), pos + 1, live && o.taken, o.st);
            r1.Next? && Mark(env, OP_ELSE, r1.st).Next? &&
            var st2 := Mark(env, OP_ELSE, r1.st).st;
            var r2 := EvalTree(env, Program(y, Done), pos + 2 + Length(x), live && !o.taken, st2);
            r2.Next? && Mark(env, OP_ENDIF, r2.st).Next?
  {
    hide EvalTree, Flatten, Proper, Program, Length, Pushable, Branches, Open, Mark;
    Alone(x);
    Alone(y);
    BranchesPassed(env, Program(x, Done), Program(y, Done), t, pos, live, st0);
  }

  lemma {:induction false} DeadBothPassed(env: Env, c: Expr, x: Expr, y: Expr, t: Tree, pos: nat, st: State)
    requires BothLie(env, x, y, t, pos, st)
    requires EvalTree(env, Branches(Program(x, Done), Program(y, Done), t), pos, false, st).Next?
    ensures st.opCount + Ops(x) + Ops(y) + 3 <= MAX_OPS_PER_SCRIPT
    decreases Choice(c, x, y), 0
  {
    hide EvalTree, Flatten, Proper, Before, BothLie, Lies, Program, Length, Ops, Pushable, Branches, Open, Mark;
    RoomBefore(env, x, y, t, pos, st);
    BothPassed(env, x, y, t, pos, false, st, st);
    OpenPassed(env, false, st);
    OpenSkips(env, st);
    var st1 := Counted(st, 1);
    ArmsLie(env, x, y, t, pos, st, st1);
    DeadArmPassed(env, x, pos + 1, st1);
    var st2 := Counted(st1, Ops(x));
    MarkPassed(env, OP_ELSE, st2);
    MarkCounts(env, OP_ELSE, st2);
    var st3 := Counted(st2, 1);
    ArmsLie(env, x, y, t, pos, st, st3);
    DeadArmPassed(env, y, pos + 2 + Length(x), st3);
    MarkPassed(env, OP_ENDIF, Counted(st3, Ops(y)));
  }

  // ----- Executed code -----

  lemma {:induction false} LivePassed(env: Env, e: Expr, t: Tree, pos: nat, st: State)
    requires Lies(env, e, t, pos, st) && EvalTree(env, Program(e, t), pos, true, st).Next?
    ensures Afforded(e, st)
    decreases e, 2
  {
    hide EvalTree, Flatten, Proper, Lies, Afforded;
    match e
    case Number(n) => PushPassed(env, n, t, pos, st);
    case Apply(f, x) => LiveApplyPassed(env, f, x, t, pos, st);
    case Combine(g, x, y) => LiveCombinePassed(env, g, x, y, t, pos, st);
    case Between(x, low, high) => LiveBetweenPassed(env, x, low, high, t, pos, st);
    case Choice(c, x, y) => LiveChoicePassed(env, c, x, y, t, pos, st);
  }

  /** A program that was passed was afforded, and what follows it was passed with its value on the stack. */
  lemma {:induction false} PassedOn(env: Env, e: Expr, t: Tree, pos: nat, st: State)
    requires Lies(env, e, t, pos, st) && EvalTree(env, Program(e, t), pos, true, st).Next?
    ensures Afforded(e, st) && EvalTree(env, t, pos + Length(e), true, After(st, Ops(e), Meaning(e).value)).Next?
    decreases e, 3
  {
    hide EvalTree, Flatten, Proper, Program, Length, Ops, Pushable, Depth, Meaning, ScriptNum.Encode;
    LivePassed(env, e, t, pos, st);
    LiveRun(env, e, t, pos, st);
  }

  lemma {:induction false} LiveApplyPassed(env: Env, f: Unary, x: Expr, t: Tree, pos: nat, st: State)
    requires Lies(env, Apply(f, x), t, pos, st) && EvalTree(env, Program(Apply(f, x), t), pos, true, st).Next?
    ensures Afforded(Apply(f, x), st)
    decreases Apply(f, x), 0
  {
    hide EvalTree, Flatten, Proper, Program, Length, Ops, Pushable, Depth, Meaning, Applied, UnaryOpcode, Fits, GetOp;
    hide ScriptNum.Encode;
    ApplyMeasures(f, x, t);
    UnaryIsNumeric(f);
    var op := UnaryOpcode(f);
    var rest := Instr([op], t);
    Prefixed(op, t);
    ItLies(env, x, rest, pos, st);
    PassedOn(env, x, rest, pos, st);
    InstrPassed(env, op, t, pos + Length(x), true, After(st, Ops(x), Meaning(x).value));
    UnaryLast(env, f, t, pos + Length(x), st, Ops(x), Meaning(x).value);
  }

  lemma {:induction false} LiveCombinePassed(env: Env, g: Binary, x: Expr, y: Expr, t: Tree, pos: nat, st: State)
    requires Lies(env, Combine(g, x, y), t, pos, st) && EvalTree(env, Program(Combine(g, x, y), t), pos, true, st).Next?
    ensures Afforded(Combine(g, x, y), st)
    decreases Combine(g, x, y), 0
  {
    hide EvalTree, Flatten, Proper, Program, Length, Ops, Pushable, Depth, Meaning, Combined, BinaryOpcode, Fits, GetOp;
    hide ScriptNum.Encode;
    CombineMeasures(g, x, y, t);
    BinaryIsNumeric(g);
    var op := BinaryOpcode(g);
    var last := Instr([op], t);
    Prefixed(op, t);
    Shape(y, last);
    ItLies(env, x, Program(y, last), pos, st);
    PassedOn(env, x, Program(y, last), pos, st);
    var a, at := Meaning(x).value, pos + Length(x);
    var st1 := After(st, Ops(x), a);
    ItLies(env, y, last, at, st1);
    PassedOn(env, y, last, at, st1);
    InstrPassed(env, op, t, at + Length(y), true, After(st1, Ops(y), Meaning(y).value));
    BinaryLast(env, g, t, at + Length(y), st, Ops(x), Ops(y), a, Meaning(y).value);
  }

  lemma {:induction false} LiveBetweenPassed(env: Env, x: Expr, low: Expr, high: Expr, t: Tree, pos: nat, st: State)
    requires Lies(env, Between(x, low, high), t, pos, st)
    requires EvalTree(env, Program(Between(x, low, high), t), pos, true, st).Next?
    ensures Afforded(Between(x, low, high), st)
    decreases Between(x, low, high), 0
  {
    hide EvalTree, Flatten, Proper, Program, Length, Ops, Pushable, Depth, Meaning, Fits, GetOp, ScriptNum.Encode, Bit;
    BetweenMeasures(x, low, high, t);
    BetweenMeaning(x, low, high);
    var last := Instr([OP_WITHIN], t);
    Prefixed(OP_WITHIN, t);
    Shape(high, last);
    Shape(low, Program(high, last));
    var rest := Program(low, Program(high, last));
    ItLies(env, x, rest, pos, st);
    PassedOn(env, x, rest, pos, st);
    var a, at := Meaning(x).value, pos + Length(x);
    var st1 := After(st, Ops(x), a);
    ItLies(env, low, Program(high, last), at, st1);
    PassedOn(env, low, Program(high, last), at, st1);
    var b, at' := Meaning(low).value, at + Length(low);
    var st2 := After(st1, Ops(low), b);
    ItLies(env, high, last, at', st2);
    PassedOn(env, high, last, at', st2);
    var c := Meaning(high).value;
    InstrPassed(env, OP_WITHIN, t, at' + Length(high), true, After(st2, Ops(high), c));
    WithinLast(env, t, at' + Length(high), st, Ops(x), Ops(low), Ops(high), a, b, c);
  }

  lemma {:induction false} LiveChoicePassed(env: Env, c: Expr, x: Expr, y: Expr, t: Tree, pos: nat, st: State)
    requires Lies(env, Choice(c, x, y), t, pos, st) && EvalTree(env, Program(Choice(c, x, y), t), pos, true, st).Next?
    ensures Afforded(Choice(c, x, y), st)
    decreases Choice(c, x, y), 1
  {
    hide EvalTree, Flatten, Proper, Program, Length, Ops, Pushable, Depth, Meaning, Fits, GetOp, ScriptNum.Encode;
    hide Branches, Open, Truth;
    ChoiceMeasures(c, x, y, t);
    ChoiceMeaning(c, x, y);
    BothLengths(x, y, t);
    var b := Branches(Program(x, Done), Program(y, Done), t);
    var rest := Instr([OP_0NOTEQUAL], b);
    Prefixed(OP_0NOTEQUAL, b);
    ItLies(env, c, rest, pos, st);
    PassedOn(env, c, rest, pos, st);
    var a, at := Meaning(c).value, pos + Length(c);
    InstrPassed(env, OP_0NOTEQUAL, b, at, true, After(st, Ops(c), a));
    UnaryLast(env, IsNonzero, b, at, st, Ops(c), a);
    EncodedBit(a != 0);
    if a != 0 { FirstArmPassed(env, c, x, y, t, at + 1, Counted(st, Ops(c) + 1)); }
    else { SecondArmPassed(env, c, x, y, t, at + 1, Counted(st, Ops(c) + 1)); }
  }

  lemma {:induction false} LiveArmPassed(env: Env, e: Expr, pos: nat, st: State)
    requires Lies(env, e, Done, pos, st) && EvalTree(env, Program(e, Done), pos, true, st).Next?
    ensures Afforded(e, st)
    ensures EvalTree(env, Program(e, Done), pos, true, st) == Next(After(st, Ops(e), Meaning(e).value))
    decreases e, 3
  {
    hide EvalTree, Flatten, Proper, Program, Length, Ops, Pushable, Depth, Meaning, ScriptNum.Encode;
    LivePassed(env, e, Done, pos, st);
    LiveArm(env, e, pos, st);
  }

  lemma {:induction false} FirstArmPassed(env: Env, c: Expr, x: Expr, y: Expr, t: Tree, pos: nat, st: State)
    requires BothLie(env, x, y, t, pos, st) && Roomy(st, 1)
    requires var st0 := st.(stack := st.stack + [Truth(true)]);
             EvalTree(env, Branches(Program(x, Done), Program(y, Done), t), pos, true, st0).Next?
    ensures st.opCount + Ops(x) + Ops(y) + 3 <= MAX_OPS_PER_SCRIPT && Roomy(st, Depth(x)) && Meaning(x).Some?
    decreases Choice(c, x, y), 0
  {
    hide EvalTree, Flatten, Proper, Before, BothLie, Lies, Program, Length, Ops, Pushable, Depth, Meaning;
    hide ScriptNum.Encode;
    hide Branches, Open, Mark, Truth;
    RoomBefore(env, x, y, t, pos, st);
    var st0, st1 := st.(stack := st.stack + [Truth(true)]), Counted(st, 1);
    BothPassed(env, x, y, t, pos, true, st, st0);
    OpenPassed(env, true, st0);
    OpenTests(env, st, true);
    ArmsLie(env, x, y, t, pos, st, st1);
    LiveArmPassed(env, x, pos + 1, st1);
    var st2 := After(st1, Ops(x), Meaning(x).value);
    MarkPassed(env, OP_ELSE, st2);
    MarkCounts(env, OP_ELSE, st2);
    var st3 := Counted(st2, 1);
    ArmsLie(env, x, y, t, pos, st, st3);
    DeadArmPassed(env, y, pos + 2 + Length(x), st3);
    MarkPassed(env, OP_ENDIF, Counted(st3, Ops(y)));
  }

  lemma {:induction false} SecondArmPassed(env: Env, c: Expr, x: Expr, y: Expr, t: Tree, pos: nat, st: State)
    requires BothLie(env, x, y, t, pos, st) && Roomy(st, 1)
    requires var st0 := st.(stack := st.stack + [Truth(false)]);
             EvalTree(env, Branches(Program(x, Done), Program(y, Done), t), pos, true, st0).Next?
    ensures st.opCount + Ops(x) + Ops(y) + 3 <= MAX_OPS_PER_SCRIPT && Roomy(st, Depth(y)) && Meaning(y).Some?
    decreases Choice(c, x, y), 0
  {
    hide EvalTree, Flatten, Proper, Before, BothLie, Lies, Program, Length, Ops, Pushable, Depth, Meaning;
    hide ScriptNum.Encode;
    hide Branches, Open, Mark, Truth;
    RoomBefore(env, x, y, t, pos, st);
    var st0, st1 := st.(stack := st.stack + [Truth(false)]), Counted(st, 1);
    BothPassed(env, x, y, t, pos, true, st, st0);
    OpenPassed(env, true, st0);
    OpenTests(env, st, false);
    ArmsLie(env, x, y, t, pos, st, st1);
    DeadArmPassed(env, x, pos + 1, st1);
    var st2 := Counted(st1, Ops(x));
    MarkPassed(env, OP_ELSE, st2);
    MarkCounts(env, OP_ELSE, st2);
    var st3 := Counted(st2, 1);
    ArmsLie(env, x, y, t, pos, st, st3);
    LiveArmPassed(env, y, pos + 2 + Length(x), st3);
    MarkPassed(env, OP_ENDIF, After(st3, Ops(y), Meaning(y).value));
  }

  // ----- The whole script -----

  /** The script of an expression keeps to the limits on size, on counted opcodes and on the stack. */
  predicate Affordable(e: Expr, stack: Stack) {
    Length(e) <= MAX_SCRIPT_SIZE && Ops(e) <= MAX_OPS_PER_SCRIPT && |stack| + Depth(e) <= MAX_STACK_SIZE
  }

  lemma PassedIsAffordable(e: Expr, flags: Flags, checker: Checker, sv: SigVersion, stack: Stack)
    requires Pushable(e) && Eval(Env(Compile(e), flags, checker, sv), stack).Next?
    ensures Affordable(e, stack) && Meaning(e).Some?
  {
    Alone(e);
    NothingFollows();
    var env := Env(Compile(e), flags, checker, sv);
    assert |Compile(e)| == Length(e) <= MAX_SCRIPT_SIZE;
    hide Flatten, Proper, EvalTree, Meaning, Program, Length, Ops, Depth, Pushable, Eval;
    ItLies(env, e, Done, 0, Start(stack));
    FlatRefinesNested(Program(e, Done), flags, checker, sv, stack);
    LivePassed(env, e, Done, 0, Start(stack));
  }

  /** The compiled script leaves the value of the expression, under every flag set and with every checker, or
      fails with an unknown error when an operand that matters does not fit; over a limit it always fails. */
  lemma ExpressionEvaluates(e: Expr, flags: Flags, checker: Checker, sv: SigVersion, stack: Stack)
    requires Pushable(e)
    ensures var r := Eval(Env(Compile(e), flags, checker, sv), stack);
            if !Affordable(e, stack) then r.Fail?
            else if Meaning(e).None? then r == Fail(UNKNOWN_ERROR, 0)
            else r == Next(State(stack + [ScriptNum.Encode(Meaning(e).value)], [], Ops(e), 0, 0))
  {
    hide Meaning, ScriptNum.Encode, Length, Ops, Depth, Pushable, Eval, Compile;
    if Affordable(e, stack) { EvaluatesWithin(e, flags, checker, sv, stack); }
    else if Eval(Env(Compile(e), flags, checker, sv), stack).Next? { PassedIsAffordable(e, flags, checker, sv, stack); }
  }
}
