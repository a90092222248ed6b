/** The script code under a signature: SerializeScriptCode, which leaves out the code separators. */
module ScriptCode {
  import opened Bytes
  import opened Script

  /** Where a read that fails leaves the iterator: past the opcode, and past the length bytes if they are there. */
  function FailedAt(script: Bytes, pc: nat): (r: nat)
    requires GetOp(script, pc).NoOp? && pc <= |script|
    ensures pc <= r <= |script| && (pc == |script| ==> r == pc)
  {
    if pc == |script| then pc else
      var opcode := script[pc];
      var width := if opcode < OP_PUSHDATA1 then 0 else if opcode == OP_PUSHDATA1 then 1
          else if opcode == OP_PUSHDATA2 then 2 else 4;
      if |script| - pc - 1 < width then pc + 1 else pc + 1 + width
  }

  /** Where reading from pc ends. */
  function StopFrom(script: Bytes, pc: nat): (r: nat)
    requires pc <= |script|
    ensures pc <= r <= |script|
    decreases |script| - pc
  {
    match GetOp(script, pc)
    case NoOp => FailedAt(script, pc)
    case Op(_, _, next) => StopFrom(script, next)
  }

  /** Where the first instruction that cannot be read starts; the end, if there is none. */
  function UnreadFrom(script: Bytes, pc: nat): (r: nat)
    requires pc <= |script|
    ensures pc <= r <= |script|
    decreases |script| - pc
  {
    match GetOp(script, pc)
    case NoOp => pc
    case Op(_, _, next) => UnreadFrom(script, next)
  }

  /** Nothing, an opcode alone, or a push opcode with all its length bytes and no byte of data. */
  predicate BareHeader(tail: Bytes) {
    |tail| <= 1 || (tail[0] == OP_PUSHDATA1 && |tail| == 2) || (tail[0] == OP_PUSHDATA2 && |tail| == 3)
    || (tail[0] == OP_PUSHDATA4 && |tail| == 5)
  }

  lemma FailsAtEnd(script: Bytes, pc: nat)
    requires GetOp(script, pc).NoOp? && pc <= |script|
    ensures FailedAt(script, pc) == |script| <==> BareHeader(script[pc..])
  {
    if pc < |script| { assert script[pc..][0] == script[pc]; }
  }

  lemma {:induction false} StopsAtEnd(script: Bytes, pc: nat)
    requires pc <= |script|
    ensures StopFrom(script, pc) == |script| <==> BareHeader(script[UnreadFrom(script, pc)..])
    decreases |script| - pc
  {
    hide GetOp, FailedAt, BareHeader;
    var f := GetOp(script, pc);
    if f.Op? { StopsAtEnd(script, f.next); } else { FailsAtEnd(script, pc); }
  }

  function SeparatorsFrom(script: Bytes, pc: nat): nat
    requires pc <= |script|
    decreases |script| - pc
  {
    match GetOp(script, pc)
    case NoOp => 0
    case Op(op, _, next) => (if op == OP_CODESEPARATOR then 1 else 0) + SeparatorsFrom(script, next)
  }

  /** The instructions other than separators, and what a failed read passed over. */
  function KeptFrom(script: Bytes, pc: nat): Bytes
    requires pc <= |script|
    decreases |script| - pc
  {
    match GetOp(script, pc)
    case NoOp => script[pc..FailedAt(script, pc)]
    case Op(op, _, next) => (if op == OP_CODESEPARATOR then [] else script[pc..next]) + KeptFrom(script, next)
  }

  lemma SeparatorIsOneByte(script: Bytes, pc: nat)
    requires GetOp(script, pc).Op? && GetOp(script, pc).opcode == OP_CODESEPARATOR
    ensures GetOp(script, pc).next == pc + 1
  {}

  lemma {:induction false} KeptLength(script: Bytes, pc: nat)
    requires pc <= |script|
    ensures |KeptFrom(script, pc)| + SeparatorsFrom(script, pc) == StopFrom(script, pc) - pc
    decreases |script| - pc
  {
    hide GetOp;
    var f := GetOp(script, pc);
    if f.Op? {
      if f.opcode == OP_CODESEPARATOR { SeparatorIsOneByte(script, pc); }
      KeptLength(script, f.next);
    }
  }

  /** The whole script can be read. */
  predicate Readable(script: Bytes, pc: nat)
    requires pc <= |script|
    decreases |script| - pc
  {
    pc == |script| || match GetOp(script, pc) case NoOp => false case Op(_, _, next) => Readable(script, next)
  }

  lemma {:induction false} ReadableStops(script: Bytes, pc: nat)
    requires pc <= |script| && Readable(script, pc)
    ensures StopFrom(script, pc) == |script|
    decreases |script| - pc
  {
    hide GetOp;
    AtEnd(script);
    if pc < |script| { ReadableStops(script, GetOp(script, pc).next); }
  }

  lemma AtEnd(script: Bytes)
    ensures GetOp(script, |script|).NoOp?
  {}

  /** One step of the copying loop: nothing of what is to be kept gets lost. */
  lemma CopyStep(script: Bytes, begin: nat, pc: nat, written: Bytes)
    requires begin <= pc <= |script| && GetOp(script, pc).Op?
    ensures var f := GetOp(script, pc);
            var all := written + script[begin..pc] + KeptFrom(script, pc);
            if f.opcode == OP_CODESEPARATOR
            then f.next == pc + 1
                 && all == (written + script[begin..pc]) + script[f.next..f.next] + KeptFrom(script, f.next)
            else all == written + script[begin..f.next] + KeptFrom(script, f.next)
  {
    var f := GetOp(script, pc);
    if f.opcode == OP_CODESEPARATOR { SeparatorIsOneByte(script, pc); }
    hide GetOp;
    assert script[begin..f.next] == script[begin..pc] + script[pc..f.next];
  }

  /** The first loop. */
  method CountSeparators(script: Bytes) returns (separators: nat)
    ensures separators == SeparatorsFrom(script, 0)
  {
    hide GetOp;
    var pc, more := 0, true;
    separators := 0;
    while more
      invariant 0 <= pc <= |script|
      invariant separators + (if more then SeparatorsFrom(script, pc) else 0) == SeparatorsFrom(script, 0)
      decreases more, |script| - pc
    {
      match GetOp(script, pc)
      case NoOp => more := false;
      case Op(op, _, next) =>
        if op == OP_CODESEPARATOR { separators := separators + 1; }
        pc := next;
    }
  }

  /** Written chunks, the chunk being passed over, and what is still to be kept. */
  ghost predicate Copying(script: Bytes, begin: nat, pc: nat, written: Bytes) {
    begin <= pc <= |script| && written + script[begin..pc] + KeptFrom(script, pc) == KeptFrom(script, 0)
  }

  lemma CopyStart(script: Bytes)
    ensures Copying(script, 0, 0, [])
  {
    hide KeptFrom;
  }

  lemma CopyNext(script: Bytes, begin: nat, pc: nat, written: Bytes)
    requires Copying(script, begin, pc, written) && GetOp(script, pc).Op?
    ensures var f := GetOp(script, pc);
            if f.opcode == OP_CODESEPARATOR
            then f.next == pc + 1 && Copying(script, f.next, f.next, written + script[begin..pc])
            else Copying(script, begin, f.next, written)
  {
    hide GetOp, KeptFrom;
    CopyStep(script, begin, pc, written);
  }

  lemma CopyEnd(script: Bytes, begin: nat, pc: nat, written: Bytes)
    requires Copying(script, begin, pc, written) && GetOp(script, pc).NoOp?
    ensures written + script[begin..FailedAt(script, pc)] == KeptFrom(script, 0)
  {
    hide GetOp, FailedAt;
    var end := FailedAt(script, pc);
    assert script[begin..end] == script[begin..pc] + script[pc..end];
  }

  /** The second loop: a chunk is written at each separator and at the end. */
  method CopyKept(script: Bytes) returns (written: Bytes)
    ensures written == KeptFrom(script, 0)
  {
    hide GetOp, FailedAt, KeptFrom, Copying;
    var begin: nat, pc: nat, more := 0, 0, true;
    written := [];
    CopyStart(script);
    while more
      invariant begin <= pc <= |script|
      invariant if more then Copying(script, begin, pc, written) else written + script[begin..pc] == KeptFrom(script, 0)
      decreases more, |script| - pc
    {
      match GetOp(script, pc)
      case NoOp =>
        CopyEnd(script, begin, pc, written);
        pc, more := FailedAt(script, pc), false;
      case Op(op, _, next) =>
        CopyNext(script, begin, pc, written);
        if op == OP_CODESEPARATOR {
          written := written + script[begin..next - 1];
          begin := next;
        }
        pc := next;
    }
    if begin != |script| {
      written := written + script[begin..pc];
    }
  }

  /** What is announced is the size without the separators; what is written is everything kept. The two agree exactly
      when the script can be read, or ends in a push with nothing behind its complete header or bare opcode. */
  method SerializeScriptCode(script: Bytes) returns (announced: nat, written: Bytes)
    ensures announced == |script| - SeparatorsFrom(script, 0) && written == KeptFrom(script, 0)
    ensures announced == |written| <==> BareHeader(script[UnreadFrom(script, 0)..])
    ensures Readable(script, 0) ==> announced == |written|
  {
    hide GetOp, FailedAt, KeptFrom, SeparatorsFrom, StopFrom, UnreadFrom, BareHeader;
    KeptLength(script, 0);
    StopsAtEnd(script, 0);
    if Readable(script, 0) { ReadableStops(script, 0); }
    var separators := CountSeparators(script);
    announced := |script| - separators;
    written := CopyKept(script);
  }

  /** A push of two bytes with one of them missing: two bytes announced, one written. */
  lemma TruncatedExample()
    ensures StopFrom([2, 7], 0) == 1 && KeptFrom([2, 7], 0) == [2] && SeparatorsFrom([2, 7], 0) == 0
  {
    assert GetOp([2, 7], 0).NoOp? && FailedAt([2, 7], 0) == 1;
  }
}
