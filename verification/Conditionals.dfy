/** Structured conditionals: the flat machine with its vfExec stack runs a nested program, and only
    nested programs, the way the nesting reads. */
module Conditionals {
  import opened Bytes
  import opened Script
  import opened Interpreter

  /** A program: single instructions and conditionals, whose arms are separated by OP_ELSE and taken
      alternately. */
  datatype Tree =
    | Done
    | Instr(raw: Bytes, tail: Tree)
    | Cond(negated: bool, arms: Arms, tail: Tree)

  datatype Arms = Final(body: Tree) | Else(body: Tree, rest: Arms)

  /** The bytes of exactly one instruction other than the four conditionals. */
  predicate IsInstruction(raw: Bytes) {
    var f := GetOp(raw, 0);
    f.Op? && f.next == |raw| && !IsConditional(f.opcode)
  }

  predicate Proper(t: Tree) {
    match t
    case Done => true
    case Instr(raw, tail) => IsInstruction(raw) && Proper(tail)
    case Cond(_, arms, tail) => ProperArms(arms) && Proper(tail)
  }

  predicate ProperArms(arms: Arms) {
    match arms
    case Final(body) => Proper(body)
    case Else(body, rest) => Proper(body) && ProperArms(rest)
  }

  function IfOpcode(negated: bool): byte { if negated then 0x64 else 0x63 }

  function Flatten(t: Tree): Bytes {
    match t
    case Done => []
    case Instr(raw, tail) => raw + Flatten(tail)
    case Cond(negated, arms, tail) => [IfOpcode(negated)] + FlattenArms(arms) + [0x68] + Flatten(tail)
  }

  function FlattenArms(arms: Arms): Bytes {
    match arms
    case Final(body) => Flatten(body)
    case Else(body, rest) => Flatten(body) + [0x67] + FlattenArms(rest)
  }

  // ----- Evaluation by nesting, without a vfExec stack -----

  datatype Entry = Enter(taken: bool, st: State) | Stuck(error: ScriptError, sigChecks: nat)

  /** OP_IF or OP_NOTIF: count it, and if this code is live, consume its condition. */
  function Open(env: Env, negated: bool, live: bool, st: State): (r: Entry)
    ensures r.Enter? ==> r.st.codeStart == st.codeStart
  {
    match Admit(env, IfOpcode(negated), [], st)
    case Fail(e, n) => Stuck(e, n)
    case Next(st1) =>
      if live && |st1.stack| < 1 then Stuck(UNBALANCED_CONDITIONAL, st1.sigChecks) else
        var v := if live then Top(st1.stack, 1) else [];
        if live && env.sigversion == WITNESS_V0 && MINIMALIF in env.flags && (|v| > 1 || (|v| == 1 && v[0] != 1))
        then Stuck(MINIMALIF_VIOLATED, st1.sigChecks)
        else
          match Limit(Next(if live then st1.(stack := Below(st1.stack, 1)) else st1))
          case Fail(e, n) => Stuck(e, n)
          case Next(st2) => Enter(live && CastToBool(v) != negated, st2)
  }

  /** OP_ELSE or OP_ENDIF: counted, nothing more. */
  function Mark(env: Env, op: byte, st: State): (r: Outcome)
    ensures r.Next? ==> r.st.codeStart == st.codeStart
  {
    match Admit(env, op, [], st)
    case Fail(e, n) => Fail(e, n)
    case Next(st1) => Limit(Next(st1))
  }

  /** Evaluate a program lying at `pos` in the script. Code that is not live is admitted and skipped,
      except that OP_VERIF and OP_VERNOTIF fail even there. */
  function EvalTree(env: Env, t: Tree, pos: nat, live: bool, st: State): (r: Outcome)
    requires Proper(t) && st.codeStart <= |env.script| && pos + |Flatten(t)| <= |env.script|
    ensures r.Next? ==> r.st.codeStart <= |env.script|
    decreases t
  {
    match t
    case Done => Next(st)
    case Instr(raw, tail) =>
      var f := GetOp(raw, 0);
      (match Step(env, f.opcode, f.data, pos + |raw|, live, st)
       case Fail(e, n) => Fail(e, n)
       case Next(st1) => EvalTree(env, tail, pos + |raw|, live, st1))
    case Cond(negated, arms, tail) =>
      match Open(env, negated, live, st)
      case Stuck(e, n) => Fail(e, n)
      case Enter(taken, st1) =>
        match EvalArms(env, arms, pos + 1, live, taken, st1)
        case Fail(e, n) => Fail(e, n)
        case Next(st2) =>
          match Mark(env, OP_ENDIF, st2)
          case Fail(e, n) => Fail(e, n)
          case Next(st3) => EvalTree(env, tail, pos + 2 + |FlattenArms(arms)|, live, st3)
  }

  function EvalArms(env: Env, arms: Arms, pos: nat, live: bool, taken: bool, st: State): (r: Outcome)
    requires ProperArms(arms) && st.codeStart <= |env.script| && pos + |FlattenArms(arms)| <= |env.script|
    ensures r.Next? ==> r.st.codeStart <= |env.script|
    decreases arms
  {
    match arms
    case Final(body) => EvalTree(env, body, pos, live && taken, st)
    case Else(body, rest) =>
      match EvalTree(env, body, pos, live && taken, st)
      case Fail(e, n) => Fail(e, n)
      case Next(st1) =>
        match Mark(env, OP_ELSE, st1)
        case Fail(e, n) => Fail(e, n)
        case Next(st2) => EvalArms(env, rest, pos + |Flatten(body)| + 1, live, !taken, st2)
  }

  // ----- The flat machine agrees -----

  /** The rest of a flat run, from a position, a vfExec stack and an outcome reached there. */
  function Resume(env: Env, pc: nat, exec: seq<bool>, r: Outcome): Outcome
    requires r.Next? ==> r.st.codeStart <= |env.script|
  {
    if r.Next? then RunFrom(env, pc, exec, r.st) else r
  }

  /** Reading an instruction depends on its own bytes only. */
  lemma GetOpIsLocal(script: Bytes, pc: nat, raw: Bytes)
    requires pc + |raw| <= |script| && script[pc..pc + |raw|] == raw
    requires GetOp(raw, 0).Op? && GetOp(raw, 0).next == |raw|
    ensures GetOp(script, pc) == Op(GetOp(raw, 0).opcode, GetOp(raw, 0).data, pc + |raw|)
  {
    assert forall i :: 0 <= i < |raw| ==> raw[i] == script[pc + i];
    assert forall i, j :: 0 <= i <= j <= |raw| ==> raw[i..j] == script[pc + i..pc + j];
  }

  lemma OneMoreLevel(exec: seq<bool>, taken: bool)
    ensures AllTrue(exec + [taken]) <==> AllTrue(exec) && taken
  {
    if AllTrue(exec + [taken]) {
      assert (exec + [taken])[|exec|] == taken;
      forall i | 0 <= i < |exec| ensures exec[i] { assert (exec + [taken])[i]; }
    }
  }

  lemma FlatInstr(env: Env, raw: Bytes, pos: nat, st: State, exec: seq<bool>)
    requires st.codeStart <= |env.script| && LiesAt(env.script, pos, raw) && IsInstruction(raw)
    ensures var f := GetOp(raw, 0);
            RunFrom(env, pos, exec, st)
            == Resume(env, pos + |raw|, exec, Step(env, f.opcode, f.data, pos + |raw|, AllTrue(exec), st))
  {
    GetOpIsLocal(env.script, pos, raw);
    hide Step;
  }

  lemma FlatOpen(env: Env, negated: bool, pos: nat, st: State, exec: seq<bool>)
    requires st.codeStart <= |env.script| && pos < |env.script| && env.script[pos] == IfOpcode(negated)
    ensures RunFrom(env, pos, exec, st)
            == match Open(env, negated, AllTrue(exec), st)
               case Stuck(e, n) => Fail(e, n)
               case Enter(taken, st1) => RunFrom(env, pos + 1, exec + [taken], st1)
  {
    assert GetOp(env.script, pos) == Op(IfOpcode(negated), [], pos + 1);
  }

  lemma FlatElse(env: Env, pos: nat, st: State, exec: seq<bool>, taken: bool)
    requires st.codeStart <= |env.script| && pos < |env.script| && env.script[pos] == OP_ELSE
    ensures RunFrom(env, pos, exec + [taken], st) == Resume(env, pos + 1, exec + [!taken], Mark(env, OP_ELSE, st))
  {
    assert GetOp(env.script, pos) == Op(OP_ELSE, [], pos + 1);
    assert (exec + [taken])[..|exec|] == exec;
  }

  lemma FlatEndif(env: Env, pos: nat, st: State, exec: seq<bool>, taken: bool)
    requires st.codeStart <= |env.script| && pos < |env.script| && env.script[pos] == OP_ENDIF
    ensures RunFrom(env, pos, exec + [taken], st) == Resume(env, pos + 1, exec, Mark(env, OP_ENDIF, st))
  {
    assert GetOp(env.script, pos) == Op(OP_ENDIF, [], pos + 1);
    assert (exec + [taken])[..|exec|] == exec;
  }

  /** The value on top of vfExec when the arms end. */
  function LastTaken(arms: Arms, taken: bool): bool {
    match arms
    case Final(_) => taken
    case Else(_, rest) => LastTaken(rest, !taken)
  }

  ghost predicate LiesAt(script: Bytes, pos: nat, part: Bytes) {
    pos + |part| <= |script| && script[pos..pos + |part|] == part
  }

  lemma Split(script: Bytes, pos: nat, a: Bytes, b: Bytes)
    requires LiesAt(script, pos, a + b)
    ensures LiesAt(script, pos, a) && LiesAt(script, pos + |a|, b)
  {
    var s := script[pos..pos + |a + b|];
    assert a == s[..|a|] == script[pos..pos + |a|];
    assert b == s[|a|..] == script[pos + |a|..pos + |a| + |b|];
  }

  lemma SplitCond(script: Bytes, pos: nat, negated: bool, arms: Arms, tail: Tree)
    requires LiesAt(script, pos, Flatten(Cond(negated, arms, tail)))
    ensures pos + 2 + |FlattenArms(arms)| + |Flatten(tail)| <= |script|
    ensures script[pos] == IfOpcode(negated) && LiesAt(script, pos + 1, FlattenArms(arms))
    ensures script[pos + 1 + |FlattenArms(arms)|] == OP_ENDIF
    ensures LiesAt(script, pos + 2 + |FlattenArms(arms)|, Flatten(tail))
  {
    SplitFour(script, pos, IfOpcode(negated), FlattenArms(arms), OP_ENDIF, Flatten(tail));
  }

  lemma SplitFour(script: Bytes, pos: nat, first: byte, middle: Bytes, last: byte, tail: Bytes)
    requires LiesAt(script, pos, [first] + middle + [last] + tail)
    ensures pos + 2 + |middle| + |tail| <= |script|
    ensures script[pos] == first && LiesAt(script, pos + 1, middle)
    ensures script[pos + 1 + |middle|] == last && LiesAt(script, pos + 2 + |middle|, tail)
  {
    Split(script, pos, [first] + middle + [last], tail);
    Split(script, pos, [first] + middle, [last]);
    Split(script, pos, [first], middle);
    AtOne(script, pos, first);
    AtOne(script, pos + 1 + |middle|, last);
  }

  lemma AtOne(script: Bytes, pos: nat, c: byte)
    requires LiesAt(script, pos, [c])
    ensures pos < |script| && script[pos] == c
  {
    assert script[pos..pos + |[c]|][0] == c;
  }

  lemma SplitElse(script: Bytes, pos: nat, body: Tree, rest: Arms)
    requires LiesAt(script, pos, FlattenArms(Else(body, rest)))
    ensures LiesAt(script, pos, Flatten(body))
    ensures pos + |Flatten(body)| < |script| && script[pos + |Flatten(body)|] == OP_ELSE
    ensures LiesAt(script, pos + |Flatten(body)| + 1, FlattenArms(rest))
  {
    Split(script, pos, Flatten(body) + [OP_ELSE], FlattenArms(rest));
    Split(script, pos, Flatten(body), [OP_ELSE]);
    var e := pos + |Flatten(body)|;
    assert script[e..e + 1][0] == OP_ELSE;
  }

  lemma {:induction false} FlatRunsTree(env: Env, t: Tree, pos: nat, st: State, exec: seq<bool>)
    requires Proper(t) && st.codeStart <= |env.script| && LiesAt(env.script, pos, Flatten(t))
    ensures RunFrom(env, pos, exec, st)
            == Resume(env, pos + |Flatten(t)|, exec, EvalTree(env, t, pos, AllTrue(exec), st))
    decreases t, 1
  {
    hide Step, RunFrom, Open, Mark, GetOp, LiesAt, AllTrue;
    var live := AllTrue(exec);
    match t
    case Done =>
    case Instr(raw, tail) =>
      Split(env.script, pos, raw, Flatten(tail));
      FlatInstr(env, raw, pos, st, exec);
      var f := GetOp(raw, 0);
      var r := Step(env, f.opcode, f.data, pos + |raw|, live, st);
      if r.Next? { FlatRunsTree(env, tail, pos + |raw|, r.st, exec); }
    case Cond(_, _, _) => FlatRunsCond(env, t, pos, st, exec);
  }

  lemma {:induction false} FlatRunsCond(env: Env, t: Tree, pos: nat, st: State, exec: seq<bool>)
    requires t.Cond? && Proper(t) && st.codeStart <= |env.script| && LiesAt(env.script, pos, Flatten(t))
    ensures RunFrom(env, pos, exec, st)
            == Resume(env, pos + |Flatten(t)|, exec, EvalTree(env, t, pos, AllTrue(exec), st))
    decreases t, 0
  {
    hide Step, RunFrom, Open, Mark, GetOp, LiesAt, AllTrue;
    var Cond(negated, arms, tail) := t;
    SplitCond(env.script, pos, negated, arms, tail);
    FlatOpen(env, negated, pos, st, exec);
    var entry := Open(env, negated, AllTrue(exec), st);
    if entry.Enter? {
      FlatRunsArms(env, arms, pos + 1, entry.st, exec, entry.taken);
      var r2 := EvalArms(env, arms, pos + 1, AllTrue(exec), entry.taken, entry.st);
      if r2.Next? {
        FlatEndif(env, pos + 1 + |FlattenArms(arms)|, r2.st, exec, LastTaken(arms, entry.taken));
        var r3 := Mark(env, OP_ENDIF, r2.st);
        if r3.Next? { FlatRunsTree(env, tail, pos + 2 + |FlattenArms(arms)|, r3.st, exec); }
      }
    }
  }

  lemma {:induction false} FlatRunsArms(env: Env, arms: Arms, pos: nat, st: State, exec: seq<bool>, taken: bool)
    requires ProperArms(arms) && st.codeStart <= |env.script| && LiesAt(env.script, pos, FlattenArms(arms))
    ensures RunFrom(env, pos, exec + [taken], st)
            == Resume(env, pos + |FlattenArms(arms)|, exec + [LastTaken(arms, taken)],
                      EvalArms(env, arms, pos, AllTrue(exec), taken, st))
    decreases arms, 0
  {
    hide Step, RunFrom, Mark, GetOp, LiesAt, AllTrue;
    OneMoreLevel(exec, taken);
    match arms
    case Final(body) =>
      FlatRunsTree(env, body, pos, st, exec + [taken]);
    case Else(body, rest) =>
      SplitElse(env.script, pos, body, rest);
      FlatRunsTree(env, body, pos, st, exec + [taken]);
      var r1 := EvalTree(env, body, pos, AllTrue(exec) && taken, st);
      if r1.Next? {
        FlatElse(env, pos + |Flatten(body)|, r1.st, exec, taken);
        var r2 := Mark(env, OP_ELSE, r1.st);
        if r2.Next? { FlatRunsArms(env, rest, pos + |Flatten(body)| + 1, r2.st, exec, !taken); }
      }
  }

  /** Running a nested program's bytes gives the stacks and the verdict its nesting denotes. */
  lemma FlatRefinesNested(t: Tree, flags: Flags, checker: Checker, sv: SigVersion, stack: Stack)
    requires Proper(t) && |Flatten(t)| <= MAX_SCRIPT_SIZE
    ensures var env := Env(Flatten(t), flags, checker, sv);
            Eval(env, stack) == EvalTree(env, t, 0, true, Start(stack))
  {
    hide Step, Branch, EvalTree, GetOp;
    var env := Env(Flatten(t), flags, checker, sv);
    assert env.script[0..|Flatten(t)|] == Flatten(t) && AllTrue([]);
    FlatRunsTree(env, t, 0, Start(stack), []);
  }

  // ----- Only nested programs can succeed -----

  /** What is left of a program inside some open conditionals: the rest of each level. */
  datatype Suffix = Outermost(t: Tree) | Inside(arms: Arms, outer: Suffix)

  function FlattenSuffix(s: Suffix): Bytes {
    match s
    case Outermost(t) => Flatten(t)
    case Inside(arms, outer) => FlattenArms(arms) + [OP_ENDIF] + FlattenSuffix(outer)
  }

  predicate ProperSuffix(s: Suffix, depth: nat) {
    match s
    case Outermost(t) => depth == 0 && Proper(t)
    case Inside(arms, outer) => depth > 0 && ProperArms(arms) && ProperSuffix(outer, depth - 1)
  }

  /** The program the suffix starts in the middle of, and the bytes behind it. */
  function Body(s: Suffix): Tree {
    match s
    case Outermost(t) => t
    case Inside(arms, _) => arms.body
  }

  function Behind(s: Suffix): Bytes {
    match s
    case Outermost(_) => []
    case Inside(Final(_), outer) => [OP_ENDIF] + FlattenSuffix(outer)
    case Inside(Else(_, rest), outer) => [OP_ELSE] + FlattenArms(rest) + [OP_ENDIF] + FlattenSuffix(outer)
  }

  function WithBody(s: Suffix, t: Tree): Suffix {
    match s
    case Outermost(_) => Outermost(t)
    case Inside(arms, outer) => Inside(arms.(body := t), outer)
  }

  lemma BodyComesFirst(s: Suffix, t: Tree)
    ensures FlattenSuffix(WithBody(s, t)) == Flatten(t) + Behind(s)
    ensures WithBody(s, Body(s)) == s
  {
    match s
    case Outermost(_) =>
    case Inside(Final(_), outer) =>
      assert Flatten(t) + [OP_ENDIF] + FlattenSuffix(outer) == Flatten(t) + ([OP_ENDIF] + FlattenSuffix(outer));
    case Inside(Else(_, rest), outer) =>
      assert Flatten(t) + [OP_ELSE] + FlattenArms(rest) + [OP_ENDIF] + FlattenSuffix(outer)
          == Flatten(t) + ([OP_ELSE] + FlattenArms(rest) + [OP_ENDIF] + FlattenSuffix(outer));
  }

  lemma PutFirst(raw: Bytes, s: Suffix, depth: nat) returns (s': Suffix)
    requires IsInstruction(raw) && ProperSuffix(s, depth)
    ensures ProperSuffix(s', depth) && FlattenSuffix(s') == raw + FlattenSuffix(s)
  {
    hide ProperSuffix, FlattenSuffix, WithBody, Behind, IsInstruction, Body;
    s' := WithBody(s, Instr(raw, Body(s)));
    BodyIsProper(raw, s, depth);
    BodyComesFirst(s, Body(s));
    BodyComesFirst(s, Instr(raw, Body(s)));
    assert raw + Flatten(Body(s)) + Behind(s) == raw + (Flatten(Body(s)) + Behind(s));
  }

  lemma BodyIsProper(raw: Bytes, s: Suffix, depth: nat)
    requires IsInstruction(raw) && ProperSuffix(s, depth)
    ensures ProperSuffix(WithBody(s, Instr(raw, Body(s))), depth)
  {
    assert Proper(Body(s)) && Proper(Instr(raw, Body(s)));
  }

  /** Close an opened conditional over the suffix behind it. */
  lemma Wrap(negated: bool, s: Suffix, depth: nat) returns (s': Suffix)
    requires ProperSuffix(s, depth + 1)
    ensures ProperSuffix(s', depth) && FlattenSuffix(s') == [IfOpcode(negated)] + FlattenSuffix(s)
  {
    var t := Cond(negated, s.arms, Body(s.outer));
    s' := WithBody(s.outer, t);
    BodyComesFirst(s.outer, Body(s.outer));
    BodyComesFirst(s.outer, t);
    var x, y, z := FlattenArms(s.arms), Flatten(Body(s.outer)), Behind(s.outer);
    assert [IfOpcode(negated)] + x + [OP_ENDIF] + y + z == [IfOpcode(negated)] + (x + [OP_ENDIF] + (y + z));
  }

  lemma GetOpIsLocalBack(script: Bytes, pc: nat)
    requires GetOp(script, pc).Op?
    ensures var f := GetOp(script, pc);
            GetOp(script[pc..f.next], 0) == Op(f.opcode, f.data, f.next - pc)
  {
    var raw := script[pc..GetOp(script, pc).next];
    assert forall i :: 0 <= i < |raw| ==> raw[i] == script[pc + i];
    assert forall i, j :: 0 <= i <= j <= |raw| ==> raw[i..j] == script[pc + i..pc + j];
  }

  lemma BranchDepth(env: Env, op: byte, exec: seq<bool>, st: State)
    requires IsConditional(op) && Branch(env, op, exec, st).Turn?
    ensures var n := |Branch(env, op, exec, st).exec|;
            if op == OP_ELSE then n == |exec| > 0 else if op == OP_ENDIF then n == |exec| - 1 else n == |exec| + 1
  {}

  lemma ConditionalIsOneByte(script: Bytes, pc: nat)
    requires GetOp(script, pc).Op?
    ensures IsConditional(GetOp(script, pc).opcode) ==> GetOp(script, pc).next == pc + 1
  {}

  /** A successful run from inside some open conditionals reads the rest of a nested program. */
  lemma {:induction false} SuccessIsNested(env: Env, pc: nat, exec: seq<bool>, st: State) returns (s: Suffix)
    requires st.codeStart <= |env.script| && pc <= |env.script|
    requires RunFrom(env, pc, exec, st).Next?
    ensures ProperSuffix(s, |exec|) && FlattenSuffix(s) == env.script[pc..]
    decreases |env.script| - pc
  {
    if pc == |env.script| {
      s := Outermost(Done);
    } else {
      var f := GetOp(env.script, pc);
      var raw := env.script[pc..f.next];
      ConditionalIsOneByte(env.script, pc);
      hide Step, Branch, GetOp;
      assert env.script[pc..] == raw + env.script[f.next..];
      if !IsConditional(f.opcode) {
        s := SuccessIsNested(env, f.next, exec, Step(env, f.opcode, f.data, f.next, AllTrue(exec), st).st);
        GetOpIsLocalBack(env.script, pc);
        s := PutFirst(raw, s, |exec|);
      } else {
        assert raw == [f.opcode];
        var t := Branch(env, f.opcode, exec, st);
        BranchDepth(env, f.opcode, exec, st);
        s := SuccessIsNested(env, f.next, t.exec, t.st);
        s := Rejoin(f.opcode, s, |exec|);
      }
    }
  }

  /** Put a conditional opcode before a suffix of the depth it leads to. */
  lemma Rejoin(op: byte, s: Suffix, depth: nat) returns (s': Suffix)
    requires IsConditional(op)
    requires op == OP_ELSE || op == OP_ENDIF ==> depth > 0
    requires ProperSuffix(s, if op == OP_ELSE then depth else if op == OP_ENDIF then depth - 1 else depth + 1)
    ensures ProperSuffix(s', depth) && FlattenSuffix(s') == [op] + FlattenSuffix(s)
  {
    if op == OP_ELSE {
      s' := Inside(Else(Done, s.arms), s.outer);
      var x, y := FlattenArms(s.arms), FlattenSuffix(s.outer);
      assert FlattenArms(s'.arms) == [OP_ELSE] + x;
      assert [OP_ELSE] + x + [OP_ENDIF] + y == [OP_ELSE] + (x + [OP_ENDIF] + y);
    } else if op == OP_ENDIF {
      s' := Inside(Final(Done), s);
      assert FlattenArms(s'.arms) == [];
    } else {
      s' := Wrap(op == OP_NOTIF, s, depth);
    }
  }

  /** A script evaluates successfully exactly when it is the flattening of a nested program that does. */
  lemma SuccessIffNested(script: Bytes, flags: Flags, checker: Checker, sv: SigVersion, stack: Stack)
    requires |script| <= MAX_SCRIPT_SIZE
    ensures var env := Env(script, flags, checker, sv);
            Eval(env, stack).Next?
            <==> exists t :: Proper(t) && Flatten(t) == script && EvalTree(env, t, 0, true, Start(stack)).Next?
  {
    var env := Env(script, flags, checker, sv);
    if Eval(env, stack).Next? {
      var s := SuccessIsNested(env, 0, [], Start(stack));
      assert env.script[0..] == script;
      FlatRefinesNested(s.t, flags, checker, sv, stack);
    }
    forall t | Proper(t) && Flatten(t) == script
      ensures Eval(env, stack) == EvalTree(env, t, 0, true, Start(stack))
    {
      FlatRefinesNested(t, flags, checker, sv, stack);
    }
  }
}
