/** The script interpreter: EvalScript, VerifyWitnessProgram and VerifyScript. The hash functions, the
    curve's low-S test and the signature, lock-time and sequence checks are oracles. */
module Interpreter {
  import opened Bytes
  import opened Script
  import ScriptNum

  datatype SigVersion = BASE | WITNESS_V0

  datatype Flag =
    | P2SH | STRICTENC | DERSIG | LOW_S | NULLDUMMY | SIGPUSHONLY | MINIMALDATA
    | DISCOURAGE_UPGRADABLE_NOPS | CLEANSTACK | CHECKLOCKTIMEVERIFY | CHECKSEQUENCEVERIFY | WITNESS
    | DISCOURAGE_UPGRADABLE_WITNESS_PROGRAM | MINIMALIF | NULLFAIL | WITNESS_PUBKEYTYPE | CONST_SCRIPTCODE

  type Flags = set<Flag>

  datatype ScriptError =
    | UNKNOWN_ERROR | EVAL_FALSE | OP_RETURN_SEEN | SCRIPT_SIZE | PUSH_SIZE | OP_COUNT | STACK_SIZE
    | SIG_COUNT | PUBKEY_COUNT | VERIFY_FAILED | EQUALVERIFY_FAILED | CHECKMULTISIGVERIFY_FAILED
    | CHECKSIGVERIFY_FAILED | NUMEQUALVERIFY_FAILED | BAD_OPCODE | DISABLED_OPCODE
    | INVALID_STACK_OPERATION | INVALID_ALTSTACK_OPERATION | UNBALANCED_CONDITIONAL
    | NEGATIVE_LOCKTIME | UNSATISFIED_LOCKTIME | SIG_HASHTYPE | SIG_DER | MINIMALDATA_VIOLATED
    | SIG_PUSHONLY | SIG_HIGH_S | SIG_NULLDUMMY | PUBKEYTYPE | CLEANSTACK_VIOLATED
    | MINIMALIF_VIOLATED | SIG_NULLFAIL | NOP_DISCOURAGED | WITNESS_PROGRAM_DISCOURAGED
    | WITNESS_PROGRAM_WRONG_LENGTH | WITNESS_PROGRAM_WITNESS_EMPTY | WITNESS_PROGRAM_MISMATCH
    | WITNESS_MALLEATED | WITNESS_MALLEATED_P2SH | WITNESS_UNEXPECTED | WITNESS_PUBKEYTYPE_BAD
    | CODESEPARATOR_SEEN | SIG_FINDANDDELETE

  datatype Checker = Checker(
    checkSig: (Bytes, Bytes, Bytes, SigVersion) -> bool,
    checkLockTime: int -> bool,
    checkSequence: int -> bool,
    ripemd160: Bytes -> Hash20,
    sha1: Bytes -> Hash20,
    sha256: Bytes -> Hash32,
    lowS: Bytes -> bool)

  const MAX_SCRIPT_ELEMENT_SIZE := 520
  const MAX_OPS_PER_SCRIPT := 201
  const MAX_SCRIPT_SIZE := 10000
  const MAX_STACK_SIZE := 1000
  const SEQUENCE_LOCKTIME_DISABLE_FLAG := 0x8000_0000

  type Stack = seq<Bytes>

  /** The interpreter's variables between instructions, other than the vfExec stack of conditionals.
      `sigChecks` counts the CheckSig calls made so far; nothing reads it. */
  datatype State = State(stack: Stack, alt: Stack, opCount: nat, codeStart: nat, sigChecks: nat)

  datatype Outcome = Next(st: State) | Fail(error: ScriptError, sigChecks: nat)

  /** What one evaluation is given: everything the loop reads and never writes. */
  datatype Env = Env(script: Bytes, flags: Flags, checker: Checker, sigversion: SigVersion)

  function Bad(error: ScriptError, st: State): Outcome { Fail(error, st.sigChecks) }

  function Push(st: State, x: Bytes): State { st.(stack := st.stack + [x]) }

  /** The stack without its top k elements. */
  function Below(s: Stack, k: nat): Stack
    requires k <= |s|
  { s[..|s| - k] }

  /** stacktop(-k): the k-th element from the top, counting from one. */
  function Top(s: Stack, k: nat): Bytes
    requires 1 <= k <= |s|
  { s[|s| - k] }

  function Truth(b: bool): Bytes { if b then [1] else [] }

  /** The outcome, if it is not an error, differs from st in the two stacks only. */
  predicate OnlyStacks(st: State, r: Outcome) {
    r.Next? ==> r.st == st.(stack := r.st.stack, alt := r.st.alt)
  }

  function Flagged(b: bool): int { if b then 1 else 0 }

  // ----- Encoding tests -----

  predicate IsFalsy(vch: Bytes, i: nat)
    requires i < |vch|
  {
    vch[i] == 0 || (i == |vch| - 1 && vch[i] == 0x80)
  }

  /** CastToBool: false only for zero and negative zero of any length. */
  predicate CastToBool(vch: Bytes) {
    exists i :: 0 <= i < |vch| && !IsFalsy(vch, i)
  }

  predicate IsCompressedOrUncompressedPubKey(key: Bytes) {
    |key| >= 33 &&
    if key[0] == 4 then |key| == 65
    else if key[0] == 2 || key[0] == 3 then |key| == 33
    else false
  }

  predicate IsCompressedPubKey(key: Bytes) {
    |key| == 33 && (key[0] == 2 || key[0] == 3)
  }

  predicate IsValidSignatureEncoding(sig: Bytes) {
    9 <= |sig| <= 73 &&
    sig[0] == 0x30 &&
    sig[1] as int == |sig| - 3 &&
    var lenR: int := sig[3];
    5 + lenR < |sig| &&
    var lenS: int := sig[5 + lenR];
    lenR + lenS + 7 == |sig| &&
    sig[2] == 2 &&
    lenR != 0 &&
    sig[4] < 0x80 &&
    !(lenR > 1 && sig[4] == 0 && sig[5] < 0x80) &&
    sig[lenR + 4] == 2 &&
    lenS != 0 &&
    sig[lenR + 6] < 0x80 &&
    !(lenS > 1 && sig[lenR + 6] == 0 && sig[lenR + 7] < 0x80)
  }

  predicate IsDefinedHashtypeSignature(sig: Bytes) {
    |sig| > 0 && 1 <= sig[|sig| - 1] % 128 <= 3
  }

  /** CheckSignatureEncoding followed by CheckPubKeyEncoding: the first complaint, if any. */
  function EncodingError(env: Env, sig: Bytes, key: Bytes): Option<ScriptError> {
    var f := env.flags;
    if |sig| != 0 && (DERSIG in f || LOW_S in f || STRICTENC in f) && !IsValidSignatureEncoding(sig) then Some(SIG_DER)
    else if |sig| != 0 && LOW_S in f && !env.checker.lowS(sig[..|sig| - 1]) then Some(SIG_HIGH_S)
    else if |sig| != 0 && STRICTENC in f && !IsDefinedHashtypeSignature(sig) then Some(SIG_HASHTYPE)
    else if STRICTENC in f && !IsCompressedOrUncompressedPubKey(key) then Some(PUBKEYTYPE)
    else if WITNESS_PUBKEYTYPE in f && env.sigversion == WITNESS_V0 && !IsCompressedPubKey(key)
         then Some(WITNESS_PUBKEYTYPE_BAD)
    else None
  }

  // ----- Opcode families -----

  function StackOp(minimal: bool, op: byte, st: State): (r: Outcome)
    ensures OnlyStacks(st, r)
  {
    var s := st.stack;
    var n := |s|;
    if op == OP_TOALTSTACK then
      if n < 1 then Bad(INVALID_STACK_OPERATION, st)
      else Next(st.(stack := Below(s, 1), alt := st.alt + [Top(s, 1)]))
    else if op == OP_FROMALTSTACK then
      if |st.alt| < 1 then Bad(INVALID_ALTSTACK_OPERATION, st)
      else Next(st.(stack := s + [Top(st.alt, 1)], alt := Below(st.alt, 1)))
    else if op == OP_2DROP then
      if n < 2 then Bad(INVALID_STACK_OPERATION, st) else Next(st.(stack := Below(s, 2)))
    else if op == OP_2DUP then
      if n < 2 then Bad(INVALID_STACK_OPERATION, st) else Next(st.(stack := s + [Top(s, 2), Top(s, 1)]))
    else if op == OP_3DUP then
      if n < 3 then Bad(INVALID_STACK_OPERATION, st) else Next(st.(stack := s + [Top(s, 3), Top(s, 2), Top(s, 1)]))
    else if op == OP_2OVER then
      if n < 4 then Bad(INVALID_STACK_OPERATION, st) else Next(st.(stack := s + [Top(s, 4), Top(s, 3)]))
    else if op == OP_2ROT then
      if n < 6 then Bad(INVALID_STACK_OPERATION, st)
      else Next(st.(stack := Below(s, 6) + s[n - 4..] + [Top(s, 6), Top(s, 5)]))
    else if op == OP_2SWAP then
      if n < 4 then Bad(INVALID_STACK_OPERATION, st)
      else Next(st.(stack := Below(s, 4) + [Top(s, 2), Top(s, 1), Top(s, 4), Top(s, 3)]))
    else if op == OP_IFDUP then
      if n < 1 then Bad(INVALID_STACK_OPERATION, st)
      else Next(if CastToBool(Top(s, 1)) then Push(st, Top(s, 1)) else st)
    else if op == OP_DEPTH then
      Next(Push(st, ScriptNum.Encode(n)))
    else if op == OP_DROP then
      if n < 1 then Bad(INVALID_STACK_OPERATION, st) else Next(st.(stack := Below(s, 1)))
    else if op == OP_DUP then
      if n < 1 then Bad(INVALID_STACK_OPERATION, st) else Next(Push(st, Top(s, 1)))
    else if op == OP_NIP then
      if n < 2 then Bad(INVALID_STACK_OPERATION, st) else Next(st.(stack := Below(s, 2) + [Top(s, 1)]))
    else if op == OP_OVER then
      if n < 2 then Bad(INVALID_STACK_OPERATION, st) else Next(Push(st, Top(s, 2)))
    else if op == OP_PICK || op == OP_ROLL then
      PickOrRoll(minimal, op, st)
    else if op == OP_ROT then
      if n < 3 then Bad(INVALID_STACK_OPERATION, st)
      else Next(st.(stack := Below(s, 3) + [Top(s, 2), Top(s, 1), Top(s, 3)]))
    else if op == OP_SWAP then
      if n < 2 then Bad(INVALID_STACK_OPERATION, st) else Next(st.(stack := Below(s, 2) + [Top(s, 1), Top(s, 2)]))
    else if op == OP_TUCK then
      if n < 2 then Bad(INVALID_STACK_OPERATION, st)
      else Next(st.(stack := Below(s, 2) + [Top(s, 1), Top(s, 2), Top(s, 1)]))
    else // OP_SIZE
      if n < 1 then Bad(INVALID_STACK_OPERATION, st) else Next(Push(st, ScriptNum.Encode(|Top(s, 1)|)))
  }

  function PickOrRoll(minimal: bool, op: byte, st: State): (r: Outcome)
    ensures OnlyStacks(st, r)
  {
    var s := st.stack;
    if |s| < 2 then Bad(INVALID_STACK_OPERATION, st) else
      match ScriptNum.Parse(Top(s, 1), minimal, ScriptNum.DEFAULT_MAX_NUM_SIZE)
      case None => Bad(UNKNOWN_ERROR, st)
      case Some(n) =>
        var rest := Below(s, 1);
        if n < 0 || n >= |rest| then Bad(INVALID_STACK_OPERATION, st) else
          var x := Top(rest, n + 1);
          if op == OP_ROLL then Next(st.(stack := Below(rest, n + 1) + rest[|rest| - n..] + [x]))
          else Next(st.(stack := rest + [x]))
  }

  function EqualOp(op: byte, st: State): (r: Outcome)
    ensures OnlyStacks(st, r)
  {
    if |st.stack| < 2 then Bad(INVALID_STACK_OPERATION, st) else
      var equal := Top(st.stack, 2) == Top(st.stack, 1);
      Verdict(op == OP_EQUALVERIFY, equal, EQUALVERIFY_FAILED, st.(stack := Below(st.stack, 2)))
  }

  /** Push a boolean; a VERIFY variant consumes a true one and fails on a false one. */
  function Verdict(verify: bool, value: bool, error: ScriptError, st: State): (r: Outcome)
    ensures OnlyStacks(st, r)
  {
    if !verify then Next(Push(st, Truth(value)))
    else if value then Next(st)
    else Bad(error, st)
  }

  function UnaryOp(minimal: bool, op: byte, st: State): (r: Outcome)
    ensures OnlyStacks(st, r)
  {
    if |st.stack| < 1 then Bad(INVALID_STACK_OPERATION, st) else
      match ScriptNum.Parse(Top(st.stack, 1), minimal, ScriptNum.DEFAULT_MAX_NUM_SIZE)
      case None => Bad(UNKNOWN_ERROR, st)
      case Some(a) => Next(st.(stack := Below(st.stack, 1) + [ScriptNum.Encode(UnaryValue(op, a))]))
  }

  function UnaryValue(op: byte, a: int): int {
    if op == OP_1ADD then a + 1
    else if op == OP_1SUB then a - 1
    else if op == OP_NEGATE then -a
    else if op == OP_ABS then if a < 0 then -a else a
    else if op == OP_NOT then Flagged(a == 0)
    else Flagged(a != 0)
  }

  function BinaryOp(minimal: bool, op: byte, st: State): (r: Outcome)
    ensures OnlyStacks(st, r)
  {
    if |st.stack| < 2 then Bad(INVALID_STACK_OPERATION, st) else
      match ScriptNum.Parse(Top(st.stack, 2), minimal, ScriptNum.DEFAULT_MAX_NUM_SIZE)
      case None => Bad(UNKNOWN_ERROR, st)
      case Some(a) =>
        match ScriptNum.Parse(Top(st.stack, 1), minimal, ScriptNum.DEFAULT_MAX_NUM_SIZE)
        case None => Bad(UNKNOWN_ERROR, st)
        case Some(b) =>
          var r := ScriptNum.Encode(BinaryValue(op, a, b));
          if op != OP_NUMEQUALVERIFY then Next(st.(stack := Below(st.stack, 2) + [r]))
          else if CastToBool(r) then Next(st.(stack := Below(st.stack, 2)))
          else Bad(NUMEQUALVERIFY_FAILED, st)
  }

  function BinaryValue(op: byte, a: int, b: int): int {
    if op == OP_ADD then a + b
    else if op == OP_SUB then a - b
    else if op == OP_BOOLAND then Flagged(a != 0 && b != 0)
    else if op == OP_BOOLOR then Flagged(a != 0 || b != 0)
    else if op == OP_NUMEQUAL || op == OP_NUMEQUALVERIFY then Flagged(a == b)
    else if op == OP_NUMNOTEQUAL then Flagged(a != b)
    else if op == OP_LESSTHAN then Flagged(a < b)
    else if op == OP_GREATERTHAN then Flagged(a > b)
    else if op == OP_LESSTHANOREQUAL then Flagged(a <= b)
    else if op == OP_GREATERTHANOREQUAL then Flagged(a >= b)
    else if op == OP_MIN then if a < b then a else b
    else if a > b then a else b
  }

  function WithinOp(minimal: bool, st: State): (r: Outcome)
    ensures OnlyStacks(st, r)
  {
    if |st.stack| < 3 then Bad(INVALID_STACK_OPERATION, st) else
      var x := ScriptNum.Parse(Top(st.stack, 3), minimal, ScriptNum.DEFAULT_MAX_NUM_SIZE);
      var lo := ScriptNum.Parse(Top(st.stack, 2), minimal, ScriptNum.DEFAULT_MAX_NUM_SIZE);
      var hi := ScriptNum.Parse(Top(st.stack, 1), minimal, ScriptNum.DEFAULT_MAX_NUM_SIZE);
      if x.None? || lo.None? || hi.None? then Bad(UNKNOWN_ERROR, st)
      else Next(st.(stack := Below(st.stack, 3) + [Truth(lo.value <= x.value < hi.value)]))
  }

  function HashOp(checker: Checker, op: byte, st: State): (r: Outcome)
    ensures OnlyStacks(st, r)
  {
    if |st.stack| < 1 then Bad(INVALID_STACK_OPERATION, st) else
      var x := Top(st.stack, 1);
      var h: Bytes := if op == OP_RIPEMD160 then checker.ripemd160(x)
                      else if op == OP_SHA1 then checker.sha1(x)
                      else if op == OP_SHA256 then checker.sha256(x)
                      else if op == OP_HASH160 then checker.ripemd160(checker.sha256(x))
                      else checker.sha256(checker.sha256(x));
      Next(st.(stack := Below(st.stack, 1) + [h]))
  }

  /** CHECKLOCKTIMEVERIFY and CHECKSEQUENCEVERIFY: leave the stack alone and pass or fail. */
  function LockOp(env: Env, op: byte, st: State): (r: Outcome)
    ensures OnlyStacks(st, r)
  {
    if (if op == OP_CHECKLOCKTIMEVERIFY then CHECKLOCKTIMEVERIFY else CHECKSEQUENCEVERIFY) !in env.flags then Next(st)
    else if |st.stack| < 1 then Bad(INVALID_STACK_OPERATION, st)
    else
      match ScriptNum.Parse(Top(st.stack, 1), MINIMALDATA in env.flags, 5)
      case None => Bad(UNKNOWN_ERROR, st)
      case Some(n) =>
        if n < 0 then Bad(NEGATIVE_LOCKTIME, st)
        else if op == OP_CHECKLOCKTIMEVERIFY then
          if env.checker.checkLockTime(n) then Next(st) else Bad(UNSATISFIED_LOCKTIME, st)
        else if (n / SEQUENCE_LOCKTIME_DISABLE_FLAG) % 2 == 1 then Next(st)
        else if env.checker.checkSequence(n) then Next(st) else Bad(UNSATISFIED_LOCKTIME, st)
  }

  /** The outcome of a conditional: the new vfExec stack and state, or an error. */
  datatype Turn = Turn(exec: seq<bool>, st: State) | Halt(error: ScriptError, sigChecks: nat)

  /** OP_IF, OP_NOTIF, OP_ELSE and OP_ENDIF. A conditional in code that is not executed consumes no
      condition and opens a branch that is not taken. */
  function ConditionalOp(env: Env, op: byte, exec: seq<bool>, st: State): Turn {
    if op == OP_IF || op == OP_NOTIF then
      if !AllTrue(exec) then Turn(exec + [false], st)
      else if |st.stack| < 1 then Halt(UNBALANCED_CONDITIONAL, st.sigChecks)
      else
        var v := Top(st.stack, 1);
        if env.sigversion == WITNESS_V0 && MINIMALIF in env.flags && (|v| > 1 || (|v| == 1 && v[0] != 1))
        then Halt(MINIMALIF_VIOLATED, st.sigChecks)
        else Turn(exec + [CastToBool(v) != (op == OP_NOTIF)], st.(stack := Below(st.stack, 1)))
    else if exec == [] then Halt(UNBALANCED_CONDITIONAL, st.sigChecks)
    else
      var k := |exec| - 1;
      Turn(if op == OP_ELSE then exec[..k] + [!exec[k]] else exec[..k], st)
  }

  /** OP_CHECKSIG and OP_CHECKSIGVERIFY. */
  function SigOp(env: Env, op: byte, st: State): (r: Outcome)
    requires st.codeStart <= |env.script|
    ensures r.Next? ==> r.st.codeStart == st.codeStart
  {
    if |st.stack| < 2 then Bad(INVALID_STACK_OPERATION, st) else
      var sig, key := Top(st.stack, 2), Top(st.stack, 1);
      match StripSignatures(env, env.script[st.codeStart..], [sig])
      case None => Bad(SIG_FINDANDDELETE, st)
      case Some(code) =>
        match EncodingError(env, sig, key)
        case Some(e) => Bad(e, st)
        case None =>
          var success := env.checker.checkSig(sig, key, code, env.sigversion);
          var st' := st.(stack := Below(st.stack, 2), sigChecks := st.sigChecks + 1);
          if !success && NULLFAIL in env.flags && |sig| > 0 then Bad(SIG_NULLFAIL, st')
          else Verdict(op == OP_CHECKSIGVERIFY, success, CHECKSIGVERIFY_FAILED, st')
  }

  /** Before segwit, the signatures' own pushes are deleted from the signed code; under
      CONST_SCRIPTCODE finding one is an error. */
  function StripSignatures(env: Env, code: Bytes, sigs: seq<Bytes>): Option<Bytes>
    decreases |sigs|
  {
    if sigs == [] || env.sigversion != BASE then Some(code) else
      var d := Delete(code, PushData(sigs[0]));
      if d.found > 0 && CONST_SCRIPTCODE in env.flags then None
      else StripSignatures(env, d.rest, sigs[1..])
  }

  datatype Matching = Refused(error: ScriptError, checks: nat) | Matched(success: bool, checks: nat)

  /** The CHECKMULTISIG loop: one greedy pass over keys and signatures, nearest the top first. */
  function MatchSignatures(env: Env, code: Bytes, sigs: seq<Bytes>, keys: seq<Bytes>, checks: nat): Matching
    requires |sigs| <= |keys|
    decreases |keys|
  {
    if sigs == [] then Matched(true, checks) else
      match EncodingError(env, sigs[0], keys[0])
      case Some(e) => Refused(e, checks)
      case None =>
        var rest := if env.checker.checkSig(sigs[0], keys[0], code, env.sigversion) then sigs[1..] else sigs;
        if |rest| > |keys| - 1 then Matched(false, checks + 1)
        else MatchSignatures(env, code, rest, keys[1..], checks + 1)
  }

  /** n consecutive elements of the stack, downwards from the k-th from the top. */
  function Slice(s: Stack, k: nat, n: nat): (r: seq<Bytes>)
    requires 1 <= k && k + n <= |s| + 1
    ensures |r| == n
    ensures forall i :: 0 <= i < n ==> r[i] == Top(s, k + i)
    decreases n
  {
    if n == 0 then [] else [Top(s, k)] + Slice(s, k + 1, n - 1)
  }

  predicate AllEmpty(sigs: seq<Bytes>) {
    forall i :: 0 <= i < |sigs| ==> |sigs[i]| == 0
  }

  /** OP_CHECKMULTISIG and OP_CHECKMULTISIGVERIFY. */
  function MultisigOp(env: Env, op: byte, st: State): (r: Outcome)
    requires st.codeStart <= |env.script|
    ensures r.Next? ==> r.st.codeStart == st.codeStart
  {
    var s := st.stack;
    var minimal := MINIMALDATA in env.flags;
    if |s| < 1 then Bad(INVALID_STACK_OPERATION, st) else
      match ScriptNum.Parse(Top(s, 1), minimal, ScriptNum.DEFAULT_MAX_NUM_SIZE)
      case None => Bad(UNKNOWN_ERROR, st)
      case Some(nKeys) =>
        if nKeys < 0 || nKeys > MAX_PUBKEYS_PER_MULTISIG then Bad(PUBKEY_COUNT, st)
        else if st.opCount + nKeys > MAX_OPS_PER_SCRIPT then Bad(OP_COUNT, st)
        else if |s| < nKeys + 2 then Bad(INVALID_STACK_OPERATION, st)
        else
          match ScriptNum.Parse(Top(s, nKeys + 2), minimal, ScriptNum.DEFAULT_MAX_NUM_SIZE)
          case None => Bad(UNKNOWN_ERROR, st)
          case Some(nSigs) =>
            if nSigs < 0 || nSigs > nKeys then Bad(SIG_COUNT, st)
            else if |s| < nKeys + nSigs + 3 then Bad(INVALID_STACK_OPERATION, st)
            else CheckMultisig(env, op, st.(opCount := st.opCount + nKeys), nKeys, nSigs)
  }

  function CheckMultisig(env: Env, op: byte, st: State, nKeys: nat, nSigs: nat): (r: Outcome)
    requires st.codeStart <= |env.script|
    ensures r.Next? ==> r.st.codeStart == st.codeStart
    requires nSigs <= nKeys && nKeys + nSigs + 3 <= |st.stack|
  {
    var s := st.stack;
    var keys := Slice(s, 2, nKeys);
    var sigs := Slice(s, nKeys + 3, nSigs);
    match StripSignatures(env, env.script[st.codeStart..], sigs)
    case None => Bad(SIG_FINDANDDELETE, st)
    case Some(code) =>
      match MatchSignatures(env, code, sigs, keys, st.sigChecks)
      case Refused(e, checks) => Fail(e, checks)
      case Matched(success, checks) =>
        var st' := st.(stack := Below(s, nKeys + nSigs + 3), sigChecks := checks);
        if !success && NULLFAIL in env.flags && !AllEmpty(sigs) then Bad(SIG_NULLFAIL, st')
        else if NULLDUMMY in env.flags && |Top(s, nKeys + nSigs + 3)| > 0 then Bad(SIG_NULLDUMMY, st')
        else Verdict(op == OP_CHECKMULTISIGVERIFY, success, CHECKMULTISIGVERIFY_FAILED, st')
  }

  // ----- One instruction -----

  predicate IsDisabled(op: byte) {
    OP_CAT <= op <= OP_RIGHT || OP_INVERT <= op <= OP_XOR || op == OP_2MUL || op == OP_2DIV || OP_MUL <= op <= OP_RSHIFT
  }

  predicate IsConditional(op: byte) {
    op == OP_IF || op == OP_NOTIF || op == OP_ELSE || op == OP_ENDIF
  }

  predicate IsUnary(op: byte) {
    op == OP_1ADD || op == OP_1SUB || OP_NEGATE <= op <= OP_0NOTEQUAL
  }

  predicate IsBinary(op: byte) {
    op == OP_ADD || op == OP_SUB || OP_BOOLAND <= op <= OP_MAX
  }

  /** The switch over opcodes, without the conditionals; `next` is the position after the instruction. */
  function Exec(env: Env, op: byte, next: nat, st: State): (r: Outcome)
    requires st.codeStart <= |env.script| && next <= |env.script|
    ensures r.Next? ==> r.st.codeStart <= |env.script|
  {
    var minimal := MINIMALDATA in env.flags;
    if op == OP_1NEGATE || OP_1 <= op <= OP_16 then Next(Push(st, ScriptNum.Encode(op as int - 0x50)))
    else if op == OP_NOP then Next(st)
    else if op == OP_CHECKLOCKTIMEVERIFY || op == OP_CHECKSEQUENCEVERIFY then LockOp(env, op, st)
    else if op == OP_NOP1 || OP_NOP4 <= op <= OP_NOP10 then
      if DISCOURAGE_UPGRADABLE_NOPS in env.flags then Bad(NOP_DISCOURAGED, st) else Next(st)
    else if op == OP_VERIFY then
      if |st.stack| < 1 then Bad(INVALID_STACK_OPERATION, st)
      else if CastToBool(Top(st.stack, 1)) then Next(st.(stack := Below(st.stack, 1)))
      else Bad(VERIFY_FAILED, st)
    else if op == OP_RETURN then Bad(OP_RETURN_SEEN, st)
    else if OP_TOALTSTACK <= op <= OP_TUCK || op == OP_SIZE then StackOp(minimal, op, st)
    else if op == OP_EQUAL || op == OP_EQUALVERIFY then EqualOp(op, st)
    else if IsUnary(op) then UnaryOp(minimal, op, st)
    else if IsBinary(op) then BinaryOp(minimal, op, st)
    else if op == OP_WITHIN then WithinOp(minimal, st)
    else if OP_RIPEMD160 <= op <= OP_HASH256 then HashOp(env.checker, op, st)
    else if op == OP_CODESEPARATOR then Next(st.(codeStart := next))
    else if op == OP_CHECKSIG || op == OP_CHECKSIGVERIFY then SigOp(env, op, st)
    else if op == OP_CHECKMULTISIG || op == OP_CHECKMULTISIGVERIFY then MultisigOp(env, op, st)
    else Bad(BAD_OPCODE, st)
  }

  predicate AllTrue(exec: seq<bool>) {
    forall i :: 0 <= i < |exec| ==> exec[i]
  }

  /** The checks every instruction undergoes, executed or not. */
  function Admit(env: Env, op: byte, data: Bytes, st: State): Outcome {
    if |data| > MAX_SCRIPT_ELEMENT_SIZE then Bad(PUSH_SIZE, st)
    else if op > OP_16 && st.opCount + 1 > MAX_OPS_PER_SCRIPT then Bad(OP_COUNT, st)
    else if IsDisabled(op) then Bad(DISABLED_OPCODE, st)
    else if op == OP_CODESEPARATOR && env.sigversion == BASE && CONST_SCRIPTCODE in env.flags
         then Bad(CODESEPARATOR_SEEN, st)
    else Next(st.(opCount := st.opCount + if op > OP_16 then 1 else 0))
  }

  /** Run one admitted instruction, or skip it in a branch not taken. Anything from OP_IF to OP_ENDIF
      reaches the switch even there, so OP_VERIF and OP_VERNOTIF are errors wherever they stand. */
  function Perform(env: Env, op: byte, data: Bytes, next: nat, live: bool, st: State): (r: Outcome)
    requires st.codeStart <= |env.script| && next <= |env.script|
    ensures r.Next? ==> r.st.codeStart <= |env.script|
  {
    if live && op <= OP_PUSHDATA4 then
      if MINIMALDATA in env.flags && !CheckMinimalPush(data, op) then Bad(MINIMALDATA_VIOLATED, st)
      else Next(Push(st, data))
    else if live || OP_IF <= op <= OP_ENDIF then Exec(env, op, next, st)
    else Next(st)
  }

  /** The size limit checked after every instruction. */
  function Limit(r: Outcome): Outcome {
    if r.Next? && |r.st.stack| + |r.st.alt| > MAX_STACK_SIZE then Bad(STACK_SIZE, r.st) else r
  }

  /** One round of the main loop on an instruction other than a conditional. */
  function Step(env: Env, op: byte, data: Bytes, next: nat, live: bool, st: State): (r: Outcome)
    requires st.codeStart <= |env.script| && next <= |env.script|
    ensures r.Next? ==> r.st.codeStart <= |env.script|
  {
    match Admit(env, op, data, st)
    case Fail(e, n) => Fail(e, n)
    case Next(st1) => Limit(Perform(env, op, data, next, live, st1))
  }

  /** One round of the main loop on a conditional. */
  function Branch(env: Env, op: byte, exec: seq<bool>, st: State): (t: Turn)
    ensures t.Turn? ==> t.st.codeStart == st.codeStart
  {
    match Admit(env, op, [], st)
    case Fail(e, n) => Halt(e, n)
    case Next(st1) =>
      match ConditionalOp(env, op, exec, st1)
      case Halt(e, n) => Halt(e, n)
      case Turn(exec', st2) =>
        match Limit(Next(st2))
        case Fail(e, n) => Halt(e, n)
        case Next(st3) => Turn(exec', st3)
  }

  /** The main loop from position pc on, and the balance check after it. */
  function RunFrom(env: Env, pc: nat, exec: seq<bool>, st: State): Outcome
    requires st.codeStart <= |env.script|
    decreases |env.script| - pc
  {
    if pc >= |env.script| then
      if exec != [] then Bad(UNBALANCED_CONDITIONAL, st) else Next(st)
    else
      match GetOp(env.script, pc)
      case NoOp => Bad(BAD_OPCODE, st)
      case Op(op, data, next) =>
        if IsConditional(op) then
          match Branch(env, op, exec, st)
          case Halt(e, n) => Fail(e, n)
          case Turn(exec', st') => RunFrom(env, next, exec', st')
        else
          match Step(env, op, data, next, AllTrue(exec), st)
          case Fail(e, n) => Fail(e, n)
          case Next(st') => RunFrom(env, next, exec, st')
  }

  function Start(stack: Stack): State {
    State(stack, [], 0, 0, 0)
  }

  /** EvalScript. */
  function Eval(env: Env, stack: Stack): Outcome {
    if |env.script| > MAX_SCRIPT_SIZE then Fail(SCRIPT_SIZE, 0) else RunFrom(env, 0, [], Start(stack))
  }
}
