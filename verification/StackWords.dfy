/** The stack opcodes as words over three primitives: copy, bring to the top, and discard. */
module StackWords {
  import opened Bytes
  import opened Script
  import opened Interpreter
  import opened Expressions
  import ScriptNum

  /** Depths count from the top, which is 0. */
  datatype Word = Copy(depth: nat) | Bring(depth: nat) | Discard

  function Do(w: Word, s: Stack): Option<Stack> {
    match w
    case Copy(k) => if k < |s| then Some(s + [s[|s| - 1 - k]]) else None
    case Bring(k) => if k < |s| then Some(s[..|s| - 1 - k] + s[|s| - k..] + [s[|s| - 1 - k]]) else None
    case Discard => if s != [] then Some(s[..|s| - 1]) else None
  }

  function DoAll(ws: seq<Word>, s: Stack): Option<Stack>
    decreases |ws|
  {
    if ws == [] then Some(s) else
      match Do(ws[0], s)
      case None => None
      case Some(s') => DoAll(ws[1..], s')
  }

  /** The definition of each stack opcode that takes no argument from the stack. */
  function Definition(op: byte): seq<Word> {
    if op == 0x75 then [Discard]
    else if op == 0x6d then [Discard, Discard]
    else if op == 0x77 then [Bring(1), Discard]
    else if op == 0x76 then [Copy(0)]
    else if op == 0x78 then [Copy(1)]
    else if op == 0x6e then [Copy(1), Copy(1)]
    else if op == 0x6f then [Copy(2), Copy(2), Copy(2)]
    else if op == 0x70 then [Copy(3), Copy(3)]
    else if op == 0x7d then [Bring(1), Copy(1)]
    else if op == 0x7c then [Bring(1)]
    else if op == 0x7b then [Bring(2)]
    else if op == 0x72 then [Bring(3), Bring(3)]
    else if op == 0x71 then [Bring(5), Bring(5)]
    else []
  }

  /** An outcome on the stack alone: the error is the same wherever the stack is too short. */
  function Told(st: State, r: Option<Stack>): Outcome {
    match r
    case None => Bad(INVALID_STACK_OPERATION, st)
    case Some(s) => Next(st.(stack := s))
  }

  lemma OneWord(w: Word, s: Stack)
    ensures DoAll([w], s) == Do(w, s)
  {
    hide Do;
  }

  lemma TwoWords(v: Word, w: Word, s: Stack)
    ensures DoAll([v, w], s) == if Do(v, s).Some? then Do(w, Do(v, s).value) else None
  {
    hide Do;
    assert [v, w][1..] == [w];
    if Do(v, s).Some? { OneWord(w, Do(v, s).value); }
  }

  lemma ThreeWords(u: Word, v: Word, w: Word, s: Stack)
    ensures DoAll([u, v, w], s) == if Do(u, s).Some? then DoAll([v, w], Do(u, s).value) else None
  {
    hide Do;
    assert [u, v, w][1..] == [v, w];
  }

  // ----- Bringing goes round -----

  function Turned(k: nat, n: nat, s: Stack): Option<Stack> {
    if n == 0 then Some(s) else
      match Turned(k, n - 1, s)
      case None => None
      case Some(s') => Do(Bring(k), s')
  }

  lemma TurnStep(below: Stack, top: Stack, n: nat)
    requires 1 <= n <= |top|
    ensures Do(Bring(|top| - 1), below + top[n - 1..] + top[..n - 1]) == Some(below + top[n..] + top[..n])
  {
    var t := below + top[n - 1..] + top[..n - 1];
    var x := top[n - 1];
    assert t[..|below|] == below && t[|below|] == x;
    assert t[|below| + 1..] == top[n..] + top[..n - 1];
    assert top[..n - 1] + [x] == top[..n];
    assert below + (top[n..] + top[..n - 1]) + [x] == below + top[n..] + (top[..n - 1] + [x]);
  }

  /** After n turns the top k + 1 elements are rotated by n. */
  lemma {:induction false} TurnedIs(k: nat, n: nat, s: Stack)
    requires k < |s| && n <= k + 1
    ensures var below, top := s[..|s| - 1 - k], s[|s| - 1 - k..]; Turned(k, n, s) == Some(below + top[n..] + top[..n])
  {
    hide Do;
    var below, top := s[..|s| - 1 - k], s[|s| - 1 - k..];
    if n == 0 {
      assert below + top[0..] + top[..0] == s;
    } else {
      TurnedIs(k, n - 1, s);
      TurnStep(below, top, n);
    }
  }

  /** Bringing up the element at depth k, k + 1 times, changes nothing. */
  lemma TurnsRound(k: nat, s: Stack)
    requires k < |s|
    ensures Turned(k, k + 1, s) == Some(s)
  {
    TurnedIs(k, k + 1, s);
    var below, top := s[..|s| - 1 - k], s[|s| - 1 - k..];
    assert below + top[k + 1..] + top[..k + 1] == s;
  }

  // ----- Opcode by opcode -----

  lemma BringSecond(s: Stack)
    ensures Do(Bring(1), s) == if |s| < 2 then None else Some(Below(s, 2) + [Top(s, 1), Top(s, 2)])
  {
    if |s| >= 2 { assert s[..|s| - 2] + s[|s| - 1..] + [s[|s| - 2]] == Below(s, 2) + [Top(s, 1), Top(s, 2)]; }
  }

  lemma BringThird(s: Stack)
    ensures Do(Bring(2), s) == if |s| < 3 then None else Some(Below(s, 3) + [Top(s, 2), Top(s, 1), Top(s, 3)])
  {
    if |s| >= 3 {
      assert s[..|s| - 3] + s[|s| - 2..] + [s[|s| - 3]] == Below(s, 3) + [Top(s, 2), Top(s, 1), Top(s, 3)];
    }
  }

  lemma Discards(minimal: bool, op: byte, st: State)
    requires op == OP_DROP || op == OP_2DROP
    ensures StackOp(minimal, op, st) == Told(st, DoAll(Definition(op), st.stack))
  {
    var s := st.stack;
    OneWord(Discard, s);
    TwoWords(Discard, Discard, s);
    hide DoAll;
  }

  lemma Copies(minimal: bool, op: byte, st: State)
    requires op == OP_DUP || op == OP_OVER
    ensures StackOp(minimal, op, st) == Told(st, DoAll(Definition(op), st.stack))
  {
    var s := st.stack;
    OneWord(Copy(0), s);
    OneWord(Copy(1), s);
    hide DoAll;
  }

  lemma Nip(minimal: bool, st: State)
    ensures StackOp(minimal, 0x77, st) == Told(st, DoAll([Bring(1), Discard], st.stack))
  {
    var s := st.stack;
    TwoWords(Bring(1), Discard, s);
    BringSecond(s);
    hide DoAll, PickOrRoll;
    if |s| >= 2 { assert (Below(s, 2) + [Top(s, 1), Top(s, 2)])[..|s| - 1] == Below(s, 2) + [Top(s, 1)]; }
  }

  lemma Tuck(minimal: bool, st: State)
    ensures StackOp(minimal, 0x7d, st) == Told(st, DoAll([Bring(1), Copy(1)], st.stack))
  {
    var s := st.stack;
    TwoWords(Bring(1), Copy(1), s);
    BringSecond(s);
    hide DoAll, PickOrRoll;
    if |s| >= 2 {
      assert Below(s, 2) + [Top(s, 1), Top(s, 2)] + [Top(s, 1)] == Below(s, 2) + [Top(s, 1), Top(s, 2), Top(s, 1)];
    }
  }

  lemma ManyCopies(minimal: bool, op: byte, st: State)
    requires op == OP_2DUP || op == OP_3DUP || op == OP_2OVER
    ensures StackOp(minimal, op, st) == Told(st, DoAll(Definition(op), st.stack))
  {
    var s := st.stack;
    TwoWords(Copy(1), Copy(1), s);
    TwoWords(Copy(3), Copy(3), s);
    ThreeWords(Copy(2), Copy(2), Copy(2), s);
    if |s| >= 3 { TwoWords(Copy(2), Copy(2), Do(Copy(2), s).value); }
    hide DoAll;
  }

  lemma Swap(minimal: bool, st: State)
    ensures StackOp(minimal, 0x7c, st) == Told(st, DoAll([Bring(1)], st.stack))
  {
    OneWord(Bring(1), st.stack);
    BringSecond(st.stack);
    hide DoAll, Do, PickOrRoll;
  }

  lemma Rotation(minimal: bool, st: State)
    ensures StackOp(minimal, 0x7b, st) == Told(st, DoAll([Bring(2)], st.stack))
  {
    OneWord(Bring(2), st.stack);
    BringThird(st.stack);
    hide DoAll, Do, PickOrRoll;
  }

  lemma TurnedTwice(k: nat, s: Stack)
    ensures DoAll([Bring(k), Bring(k)], s) == if k < |s| then Turned(k, 2, s) else None
  {
    TwoWords(Bring(k), Bring(k), s);
    hide DoAll;
    assert Turned(k, 1, s) == Do(Bring(k), s);
  }

  lemma PairSwap(minimal: bool, st: State)
    ensures StackOp(minimal, 0x72, st) == Told(st, DoAll([Bring(3), Bring(3)], st.stack))
  {
    hide DoAll, Turned, PickOrRoll;
    var s := st.stack;
    TurnedTwice(3, s);
    if 3 < |s| {
      TurnedIs(3, 2, s);
      assert s[..|s| - 4] + s[|s| - 4..][2..] + s[|s| - 4..][..2]
              == Below(s, 4) + [Top(s, 2), Top(s, 1), Top(s, 4), Top(s, 3)];
    }
  }

  lemma PairRotation(minimal: bool, st: State)
    ensures StackOp(minimal, 0x71, st) == Told(st, DoAll([Bring(5), Bring(5)], st.stack))
  {
    hide DoAll, Turned, PickOrRoll;
    var s := st.stack;
    TurnedTwice(5, s);
    if 5 < |s| {
      TurnedIs(5, 2, s);
      assert s[..|s| - 6] + s[|s| - 6..][2..] + s[|s| - 6..][..2]
              == Below(s, 6) + s[|s| - 4..] + [Top(s, 6), Top(s, 5)];
    }
  }

  /** Every such opcode does what its definition says, and fails exactly when its definition does. */
  lemma OpcodeIsDefined(minimal: bool, op: byte, st: State)
    requires Definition(op) != []
    ensures StackOp(minimal, op, st) == Told(st, DoAll(Definition(op), st.stack))
  {
    hide DoAll, StackOp;
    if op == OP_DROP || op == OP_2DROP { Discards(minimal, op, st); }
    else if op == OP_NIP { Nip(minimal, st); }
    else if op == OP_DUP || op == OP_OVER { Copies(minimal, op, st); }
    else if op == OP_TUCK { Tuck(minimal, st); }
    else if op == OP_2DUP || op == OP_3DUP || op == OP_2OVER { ManyCopies(minimal, op, st); }
    else if op == OP_SWAP { Swap(minimal, st); }
    else if op == OP_ROT { Rotation(minimal, st); }
    else if op == OP_2SWAP { PairSwap(minimal, st); }
    else { PairRotation(minimal, st); }
  }

  // ----- PICK and ROLL take the depth from the stack -----

  lemma DepthFromStack(minimal: bool, st: State, n: int)
    ensures var st' := st.(stack := st.stack + [ScriptNum.Encode(n)]);
            forall op :: op == 0x79 || op == 0x7a ==>
              StackOp(minimal, op, st') ==
              if st.stack == [] then Bad(INVALID_STACK_OPERATION, st)
              else if !Fits(n) then Bad(UNKNOWN_ERROR, st)
              else if n < 0 then Bad(INVALID_STACK_OPERATION, st)
              else Told(st, Do(if op == 0x79 then Copy(n) else Bring(n), st.stack))
  {
    hide ScriptNum.Encode, ScriptNum.Parse, Fits;
    OperandFits(n, minimal);
    var s' := st.stack + [ScriptNum.Encode(n)];
    assert Below(s', 1) == st.stack;
  }

  // ----- Opcodes that only rearrange come back to where they began -----

  predicate IsTurn(op: byte) { op == OP_SWAP || op == OP_ROT || op == OP_2SWAP || op == OP_2ROT }

  /** The depth the opcode brings up, and how often. */
  function Reach(op: byte): nat {
    if op == OP_SWAP then 1 else if op == OP_ROT then 2 else if op == OP_2SWAP then 3 else 5
  }

  function PerTurn(op: byte): nat { if op == OP_SWAP || op == OP_ROT then 1 else 2 }

  function Times(minimal: bool, op: byte, n: nat, st: State): Outcome {
    if n == 0 then Next(st) else
      match Times(minimal, op, n - 1, st)
      case Fail(e, k) => Fail(e, k)
      case Next(st') => StackOp(minimal, op, st')
  }

  lemma {:induction false} TurnedKeepsSize(k: nat, n: nat, s: Stack)
    requires k < |s|
    ensures Turned(k, n, s).Some? && |Turned(k, n, s).value| == |s|
  {
    if n > 0 { TurnedKeepsSize(k, n - 1, s); }
  }

  lemma OneTurn(minimal: bool, op: byte, st: State, n: nat, s: Stack)
    requires IsTurn(op) && Reach(op) < |s| && Turned(Reach(op), n, s) == Some(st.stack)
    ensures StackOp(minimal, op, st) == Told(st, Turned(Reach(op), n + PerTurn(op), s))
  {
    hide StackOp, DoAll, Do;
    var k := Reach(op);
    OpcodeIsDefined(minimal, op, st);
    TurnedKeepsSize(k, n, s);
    OneWord(Bring(k), st.stack);
    TwoWords(Bring(k), Bring(k), st.stack);
    assert Turned(k, n + 1, s) == Do(Bring(k), st.stack);
    TurnedKeepsSize(k, n + 1, s);
    if PerTurn(op) == 2 { assert Turned(k, n + 2, s) == Do(Bring(k), Do(Bring(k), st.stack).value); }
  }

  lemma {:induction false} TimesTurns(minimal: bool, op: byte, n: nat, st: State)
    requires IsTurn(op) && Reach(op) < |st.stack|
    ensures Times(minimal, op, n, st) == Told(st, Turned(Reach(op), n * PerTurn(op), st.stack))
  {
    hide StackOp, IsTurn, Reach, PerTurn;
    if n == 0 { assert Turned(Reach(op), 0, st.stack) == Some(st.stack); }
    if n > 0 {
      var m := (n - 1) * PerTurn(op);
      assert n * PerTurn(op) == m + PerTurn(op);
      TimesTurns(minimal, op, n - 1, st);
      TurnedKeepsSize(Reach(op), m, st.stack);
      OneTurn(minimal, op, Times(minimal, op, n - 1, st).st, m, st.stack);
    }
  }

  /** Two swaps, three rotations, two pair swaps and three pair rotations leave everything as it was. */
  lemma TurnsReturn(minimal: bool, op: byte, st: State)
    requires IsTurn(op) && Reach(op) < |st.stack|
    ensures Times(minimal, op, if op == 0x7c || op == 0x72 then 2 else 3, st) == Next(st)
  {
    hide Times, Turned, StackOp;
    TimesTurns(minimal, op, if op == OP_SWAP || op == OP_2SWAP then 2 else 3, st);
    TurnsRound(Reach(op), st.stack);
  }

  // ----- The other stack opcodes -----

  /** What goes to the alternate stack comes back. */
  lemma AltRoundTrip(minimal: bool, st: State)
    requires st.stack != []
    ensures StackOp(minimal, 0x6b, st).Next?
    ensures StackOp(minimal, 0x6c, StackOp(minimal, 0x6b, st).st) == Next(st)
  {
    var s, a := st.stack, st.alt;
    assert Below(s, 1) + [Top(s, 1)] == s;
    assert Below(a + [Top(s, 1)], 1) == a;
  }

  /** DEPTH, 1SUB, ROLL brings up the bottom element: the depth pushed is the one ROLL counts by. */
  lemma DepthReachesBottom(minimal: bool, st: State)
    requires 1 <= |st.stack| <= MAX_STACK_SIZE
    ensures var r := StackOp(minimal, 0x74, st);
            r.Next? && var r1 := UnaryOp(minimal, 0x8c, r.st);
            r1.Next? && StackOp(minimal, 0x7a, r1.st) == Next(st.(stack := st.stack[1..] + [st.stack[0]]))
  {
    hide ScriptNum.Encode, ScriptNum.Parse, PickOrRoll;
    var s, n := st.stack, |st.stack|;
    OperandFits(n, minimal);
    assert Below(s + [ScriptNum.Encode(n)], 1) == s;
    DepthFromStack(minimal, st, n - 1);
    assert s[..0] + s[1..] == s[1..];
  }

  /** SIZE of a pushed element is its length, and IFDUP keeps the truth of the top either way. */
  lemma SizeAndIfDup(minimal: bool, st: State, x: Bytes)
    requires |x| <= MAX_SCRIPT_ELEMENT_SIZE
    ensures var st' := Push(st, x);
            var size, dup := StackOp(minimal, 0x82, st'), StackOp(minimal, 0x73, st');
            size.Next? && Below(size.st.stack, 1) == st'.stack
                && ScriptNum.Parse(Top(size.st.stack, 1), minimal, 4) == Some(|x|)
            && dup.Next? && dup.st.stack == st'.stack + (if CastToBool(x) then [x] else [])
  {
    hide ScriptNum.Encode, ScriptNum.Parse, CastToBool;
    OperandFits(|x|, minimal);
  }
}
