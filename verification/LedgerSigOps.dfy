/** The signature-operation limit of a block: when the 32-bit count is the true one. */
module LedgerSigOps {
  import opened Bytes
  import opened Script
  import opened Tx
  import opened Ledger

  const LIMIT := 20000

  lemma {:induction false} CountGrows(txs: seq<Transaction>, n: nat)
    requires n <= |txs|
    ensures BlockSigOps(txs[..n]) <= BlockSigOps(txs)
  {
    hide TxSigOps;
    if n == |txs| { assert txs[..n] == txs; } else {
      CountGrows(txs[..|txs| - 1], n);
      assert txs[..|txs| - 1][..n] == txs[..n];
    }
  }

  /** The first transaction that takes the count over the limit takes it to less than 2^30. */
  lemma {:induction false} SteppedOver(txs: seq<Transaction>) returns (n: nat)
    requires BlockSigOps(txs) > LIMIT && forall i :: 0 <= i < |txs| ==> TxSigOps(txs[i]) < U32 / 4 - LIMIT
    ensures 1 <= n <= |txs| && LIMIT < BlockSigOps(txs[..n]) < U32 / 4
  {
    hide TxSigOps;
    var before := txs[..|txs| - 1];
    if BlockSigOps(before) > LIMIT {
      n := SteppedOver(before);
      assert before[..n] == txs[..n];
    } else {
      n := |txs|;
      assert txs[..n] == txs;
    }
  }

  /** Unless one transaction alone has nearly 2^30 signature operations, the loop's test limits their number. */
  lemma LimitIsExact(txs: seq<Transaction>)
    requires forall i :: 0 <= i < |txs| ==> TxSigOps(txs[i]) < U32 / 4 - LIMIT
    ensures SigOpsOk(txs) <==> BlockSigOps(txs) <= LIMIT
  {
    hide TxSigOps, BlockSigOps;
    if BlockSigOps(txs) <= LIMIT {
      forall n | 1 <= n <= |txs| ensures FewSigOps(txs[..n]) { CountGrows(txs, n); }
    } else {
      var n := SteppedOver(txs);
      assert !FewSigOps(txs[..n]);
    }
  }

  // ----- How many a transaction can have -----

  lemma {:induction false} ScriptSigOps(script: Bytes, pc: nat, last: byte, accurate: bool)
    ensures SigOpsFrom(script, pc, last, accurate) <= if pc < |script| then 20 * (|script| - pc) else 0
    decreases |script| - pc
  {
    var f := GetOp(script, pc);
    if f.Op? { ScriptSigOps(script, f.next, f.opcode, accurate); }
  }

  function InputBytes(vin: seq<TxIn>): nat {
    if vin == [] then 0 else InputBytes(vin[..|vin| - 1]) + |vin[|vin| - 1].scriptSig|
  }

  function OutputBytes(vout: seq<TxOut>): nat {
    if vout == [] then 0 else OutputBytes(vout[..|vout| - 1]) + |vout[|vout| - 1].scriptPubKey|
  }

  lemma {:induction false} InputsBounded(vin: seq<TxIn>)
    ensures InputSigOps(vin) <= 20 * InputBytes(vin)
  {
    hide SigOpsFrom;
    if vin != [] {
      InputsBounded(vin[..|vin| - 1]);
      ScriptSigOps(vin[|vin| - 1].scriptSig, 0, OP_INVALIDOPCODE, false);
    }
  }

  lemma {:induction false} OutputsBounded(vout: seq<TxOut>)
    ensures OutputSigOps(vout) <= 20 * OutputBytes(vout)
  {
    hide SigOpsFrom;
    if vout != [] {
      OutputsBounded(vout[..|vout| - 1]);
      ScriptSigOps(vout[|vout| - 1].scriptPubKey, 0, OP_INVALIDOPCODE, false);
    }
  }

  /** Within the million bytes a block may have without witnesses, the count cannot wrap. */
  lemma BlocksDoNotWrap(txs: seq<Transaction>)
    requires forall i :: 0 <= i < |txs| ==> InputBytes(txs[i].vin) + OutputBytes(txs[i].vout) <= 1_000_000
    ensures SigOpsOk(txs) <==> BlockSigOps(txs) <= LIMIT
  {
    hide SigOpsOk, BlockSigOps;
    forall i | 0 <= i < |txs| ensures TxSigOps(txs[i]) < U32 / 4 - LIMIT {
      InputsBounded(txs[i].vin);
      OutputsBounded(txs[i].vout);
    }
    LimitIsExact(txs);
  }
}
