/** The chain object: its databases are updated in place by the methods below, each proved against the
    functions of the databases it stands for. */
module LedgerStore {
  import opened Bytes
  import opened Tx
  import opened Ledger
  import opened LedgerAccepts
  import opened Bits
  import Script

  lemma {:induction false} TotalOutGrows(vout: seq<TxOut>, k: nat)
    requires k <= |vout| && forall i :: 0 <= i < |vout| ==> vout[i].value >= 0
    ensures TotalOut(vout[..k]) <= TotalOut(vout)
  {
    if k == |vout| {
      assert vout[..k] == vout;
    } else {
      var n := |vout| - 1;
      TotalOutGrows(vout[..n], k);
      assert vout[..n][..k] == vout[..k];
    }
  }

  /** An outpoint referenced by one of the first n transactions. */
  ghost predicate Seen(txs: seq<Transaction>, n: nat, p: OutPoint)
    requires n <= |txs|
  { exists i, k :: 0 <= i < n && 0 <= k < |txs[i].vin| && txs[i].vin[k].prevout == p }

  ghost predicate SeenBefore(txs: seq<Transaction>, n: nat, k: nat, p: OutPoint)
    requires n < |txs| && k <= |txs[n].vin|
  { Seen(txs, n, p) || exists l :: 0 <= l < k && txs[n].vin[l].prevout == p }

  lemma AddWraps(a: nat, b: nat)
    ensures (a % U32 + b) % U32 == (a + b) % U32 && (a + b % U32) % U32 == (a + b) % U32
  {}

  lemma SumWraps(a: nat, b: nat)
    ensures (a % U32 + b % U32) % U32 == (a + b) % U32
    ensures (a % U32 + b % U32) % U32 * WITNESS_SCALE_FACTOR % U32 == (a + b) * WITNESS_SCALE_FACTOR % U32
  {
    AddWraps(a, b);
    AddWraps(a % U32, b);
    ScaleWraps(a + b);
  }

  lemma ScaleWraps(a: nat)
    ensures a % U32 * WITNESS_SCALE_FACTOR % U32 == a * WITNESS_SCALE_FACTOR % U32
  {
    var q, r := a / U32, a % U32 * WITNESS_SCALE_FACTOR;
    ModIs(r % U32, WITNESS_SCALE_FACTOR * q + r / U32, U32, a * WITNESS_SCALE_FACTOR);
  }

  /** GetLegacySigOpCount, in 32-bit arithmetic. */
  method CountSigOps(tx: Transaction) returns (n: nat)
    ensures n == TxSigOps(tx) % U32
  {
    hide Script.SigOpCount;
    n := 0;
    for i := 0 to |tx.vin|
      invariant n == InputSigOps(tx.vin[..i]) % U32
    {
      var c := Script.GetSigOpCount(tx.vin[i].scriptSig, false);
      OneMoreInput(tx.vin, i);
      AddWraps(InputSigOps(tx.vin[..i]), c);
      n := (n + c) % U32;
    }
    assert tx.vin[..|tx.vin|] == tx.vin;
    for i := 0 to |tx.vout|
      invariant n == (InputSigOps(tx.vin) + OutputSigOps(tx.vout[..i])) % U32
    {
      var c := Script.GetSigOpCount(tx.vout[i].scriptPubKey, false);
      OneMoreOutput(tx.vout, i);
      AddWraps(InputSigOps(tx.vin) + OutputSigOps(tx.vout[..i]), c);
      n := (n + c) % U32;
    }
    assert tx.vout[..|tx.vout|] == tx.vout;
  }

  lemma OneMoreInput(vin: seq<TxIn>, i: nat)
    requires i < |vin|
    ensures InputSigOps(vin[..i + 1]) == InputSigOps(vin[..i]) + Script.SigOpCount(vin[i].scriptSig, false)
  {
    hide Script.SigOpCount;
    assert vin[..i + 1][..i] == vin[..i];
  }

  lemma OneMoreOutput(vout: seq<TxOut>, i: nat)
    requires i < |vout|
    ensures OutputSigOps(vout[..i + 1]) == OutputSigOps(vout[..i]) + Script.SigOpCount(vout[i].scriptPubKey, false)
  {
    hide Script.SigOpCount;
    assert vout[..i + 1][..i] == vout[..i];
  }

  /** The count over the first n transactions, which passed the test. */
  ghost predicate Counted(txs: seq<Transaction>, n: nat, sigOps: nat)
    requires n <= |txs|
  {
    sigOps == BlockSigOps(txs[..n]) % U32 && SigOpsOk(txs[..n])
  }

  lemma NothingCounted(txs: seq<Transaction>)
    ensures Counted(txs, 0, 0)
  {}

  lemma FewForOneMore(txs: seq<Transaction>, n: nat)
    requires n < |txs|
    ensures SigOpsOk(txs[..n + 1]) <==> SigOpsOk(txs[..n]) && FewSigOps(txs[..n + 1])
    ensures SigOpsOk(txs) ==> FewSigOps(txs[..n + 1])
  {
    hide FewSigOps;
    var t := txs[..n + 1];
    assert t[..n + 1] == t;
    if SigOpsOk(t) {
      forall m | 1 <= m <= n ensures FewSigOps(txs[..n][..m]) { assert t[..m] == txs[..n][..m]; }
    }
    if SigOpsOk(txs[..n]) && FewSigOps(t) {
      forall m | 1 <= m <= n + 1 ensures FewSigOps(t[..m]) { if m <= n { assert t[..m] == txs[..n][..m]; } }
    }
  }

  lemma CountOneMore(txs: seq<Transaction>, n: nat, sigOps: nat, c: nat)
    requires n < |txs| && sigOps == BlockSigOps(txs[..n]) % U32 && c == TxSigOps(txs[n]) % U32
    ensures (sigOps + c) % U32 == BlockSigOps(txs[..n + 1]) % U32
    ensures (sigOps + c) % U32 * WITNESS_SCALE_FACTOR % U32 == BlockSigOps(txs[..n + 1]) * WITNESS_SCALE_FACTOR % U32
  {
    var a, b := BlockSigOps(txs[..n]), TxSigOps(txs[n]);
    assert txs[..n + 1][..n] == txs[..n];
    assert BlockSigOps(txs[..n + 1]) == a + b;
    hide BlockSigOps, TxSigOps;
    SumWraps(a, b);
  }

  lemma OneMoreCounted(txs: seq<Transaction>, n: nat, sigOps: nat, c: nat)
    requires n < |txs| && Counted(txs, n, sigOps) && c == TxSigOps(txs[n]) % U32
    ensures var s := (sigOps + c) % U32;
            if s * WITNESS_SCALE_FACTOR % U32 <= MAX_BLOCK_SIGOPS_COST then Counted(txs, n + 1, s) else !SigOpsOk(txs)
  {
    hide BlockSigOps, TxSigOps, SigOpsOk;
    CountOneMore(txs, n, sigOps, c);
    FewForOneMore(txs, n);
  }

  /** The transaction loop of CheckBlock, with its two sets and its count. */
  method CheckShape(rules: Rules, txs: seq<Transaction>) returns (ok: bool)
    ensures ok <==> Shape(rules, txs)
  {
    hide Counted, SigOpsOk, TxSigOps;
    NothingCounted(txs);
    var txids: set<Hash32>, utxos: set<OutPoint> := {}, {};
    var n := 0;
    var sigOps: nat := 0;
    while n < |txs|
      invariant 0 <= n <= |txs| && Counted(txs, n, sigOps)
      invariant forall h :: h in txids <==> exists i :: 0 <= i < n && rules.id(txs[i]) == h
      invariant forall p :: p in utxos <==> Seen(txs, n, p)
      invariant forall i, j :: 0 <= i < j < n ==> rules.id(txs[i]) != rules.id(txs[j])
      invariant forall i :: 0 <= i < n ==> (txs[i].IsCoinBase() <==> i == 0)
      invariant forall i, k :: 0 <= i < n && 0 <= k < |txs[i].vin| ==> !SeenBefore(txs, i, k, txs[i].vin[k].prevout)
    {
      var id := rules.id(txs[n]);
      if id in txids { return false; }
      txids := txids + {id};
      if n == 0 && !txs[n].IsCoinBase() { return false; }
      if n != 0 && txs[n].IsCoinBase() { return false; }
      var k := 0;
      while k < |txs[n].vin|
        invariant 0 <= k <= |txs[n].vin|
        invariant forall p :: p in utxos <==> SeenBefore(txs, n, k, p)
        invariant forall l :: 0 <= l < k ==> !SeenBefore(txs, n, l, txs[n].vin[l].prevout)
      {
        var p := txs[n].vin[k].prevout;
        if p in utxos {
          RepeatedInput(txs, n, k);
          return false;
        }
        assert forall q :: SeenBefore(txs, n, k + 1, q) <==> SeenBefore(txs, n, k, q) || q == p;
        utxos := utxos + {p};
        k := k + 1;
      }
      assert forall q :: Seen(txs, n + 1, q) <==> SeenBefore(txs, n, k, q);
      var c := CountSigOps(txs[n]);
      OneMoreCounted(txs, n, sigOps, c);
      sigOps := (sigOps + c) % U32;
      if sigOps * WITNESS_SCALE_FACTOR % U32 > MAX_BLOCK_SIGOPS_COST { return false; }
      n := n + 1;
    }
    NothingRepeated(txs);
    AllCounted(txs, sigOps);
    return true;
  }

  lemma AllCounted(txs: seq<Transaction>, sigOps: nat)
    requires Counted(txs, |txs|, sigOps)
    ensures SigOpsOk(txs)
  {
    assert txs[..|txs|] == txs;
  }

  lemma RepeatedInput(txs: seq<Transaction>, n: nat, k: nat)
    requires n < |txs| && k < |txs[n].vin| && SeenBefore(txs, n, k, txs[n].vin[k].prevout)
    ensures !DistinctInputs(txs)
  {}

  lemma NothingRepeated(txs: seq<Transaction>)
    requires forall i, k :: 0 <= i < |txs| && 0 <= k < |txs[i].vin| ==> !SeenBefore(txs, i, k, txs[i].vin[k].prevout)
    ensures DistinctInputs(txs)
  {
    forall i, j, k, l | 0 <= i < j < |txs| && 0 <= k < |txs[i].vin| && 0 <= l < |txs[j].vin|
      ensures txs[i].vin[k].prevout != txs[j].vin[l].prevout
    {
      assert !SeenBefore(txs, j, l, txs[j].vin[l].prevout);
    }
    forall i, k, l | 0 <= i < |txs|
        && 0 <= k < l < |txs[i].vin| ensures txs[i].vin[k].prevout != txs[i].vin[l].prevout {
      assert !SeenBefore(txs, i, l, txs[i].vin[l].prevout);
    }
  }

  class BlockChain {
    var utxo: Utxo
    var index: map<Hash32, Indexed>

    function Value(): State
      reads this
    { State(utxo, index) }

    /** Every indexed output passed the money checks, so sums of them fit the amount type. */
    ghost predicate Valid()
      reads this
    { forall h :: h in index ==> OutputsOk(index[h].tx.vout) }

    constructor ()
      ensures Value() == State(map[], map[]) && Valid()
    {
      utxo, index := map[], map[];
    }

    /** UTXOManager::Put refuses the null outpoint. */
    method Put(pt: OutPoint, e: Entry) returns (ok: bool)
      modifies this`utxo
      ensures utxo == Ledger.Put(old(utxo), pt, e) && ok == !pt.IsNull()
    {
      if pt.IsNull() { return false; }
      utxo := utxo[pt := e];
      return true;
    }

    method SetUsed(pt: OutPoint, used: bool) returns (ok: bool)
      modifies this`utxo
      ensures utxo == Ledger.SetUsed(old(utxo), pt, used)
      ensures ok <==> pt in old(utxo) && !pt.IsNull()
    {
      if pt !in utxo { return false; }
      var v := utxo[pt];
      ok := Put(pt, v.(used := used));
    }

    method CacheUTXO(id: Hash32, tx: Transaction, blockHash: Hash32, height: int)
      modifies this`utxo
      ensures utxo == Cache(old(utxo), id, tx, blockHash, height)
    {
      if !tx.IsCoinBase() {
        for i := 0 to |tx.vin|
          invariant utxo == SetInputs(old(utxo), tx.vin[..i], true)
        {
          assert tx.vin[..i + 1][..i] == tx.vin[..i];
          var _ := SetUsed(tx.vin[i].prevout, true);
        }
        assert tx.vin[..|tx.vin|] == tx.vin;
      }
      ghost var spent := utxo;
      for i := 0 to |tx.vout|
        invariant utxo == PutOutputs(spent, id, i, blockHash, height)
      {
        var _ := Put(OutPoint(id, i), Entry(blockHash, height, false));
      }
    }

    method UnCacheUTXO(id: Hash32, tx: Transaction)
      modifies this`utxo
      ensures utxo == Uncache(old(utxo), id, tx)
    {
      if !tx.IsCoinBase() {
        for i := 0 to |tx.vin|
          invariant utxo == SetInputs(old(utxo), tx.vin[..i], false)
        {
          assert tx.vin[..i + 1][..i] == tx.vin[..i];
          var _ := SetUsed(tx.vin[i].prevout, false);
        }
        assert tx.vin[..|tx.vin|] == tx.vin;
      }
      ghost var given := utxo;
      for i := 0 to |tx.vout|
        invariant utxo == RemoveOutputs(given, id, i)
      {
        utxo := utxo - {OutPoint(id, i)};
      }
    }

    /** The output loop of CheckTransaction; the running total never leaves the 64-bit range. */
    method SumOutputs(vout: Outputs) returns (ok: bool, valueOut: int)
      ensures ok <==> OutputsOk(vout)
      ensures ok ==> valueOut == TotalOut(vout)
    {
      valueOut := 0;
      for i := 0 to |vout|
        invariant valueOut == TotalOut(vout[..i]) && MoneyRange(valueOut)
        invariant forall j :: 0 <= j < i ==> MoneyRange(vout[j].value)
      {
        var v := vout[i].value;
        if v < 0 { return false, valueOut; }
        if v > MAX_MONEY { return false, valueOut; }
        assert vout[..i + 1][..i] == vout[..i];
        assert -INT64_LIMIT <= valueOut + v < INT64_LIMIT;
        valueOut := valueOut + v;
        if !MoneyRange(valueOut) {
          if OutputsOk(vout) { TotalOutGrows(vout, i + 1); }
          return false, valueOut;
        }
      }
      assert vout[..|vout|] == vout;
      ok := true;
    }

    /** The input loop of CheckTransaction; the running total never leaves the 64-bit range because
        every indexed output passed the output loop. */
    method SumInputs(rules: Rules, tx: Transaction, height: int) returns (ok: bool, valueIn: int)
      requires Valid()
      ensures ok <==> forall i :: 0 <= i < |tx.vin| ==> InputOk(rules, Value(), tx, i, height)
      ensures ok ==> valueIn == TotalIn(Value(), tx.vin) && MoneyRange(valueIn)
    {
      valueIn := 0;
      var seen: set<OutPoint> := {};
      for i := 0 to |tx.vin|
        invariant valueIn == TotalIn(Value(), tx.vin[..i]) && MoneyRange(valueIn)
        invariant forall p :: p in seen <==> Spends(tx.vin[..i], p)
        invariant forall j :: 0 <= j < i ==> InputOk(rules, Value(), tx, j, height)
      {
        var p := tx.vin[i].prevout;
        if p.IsNull() || p in seen { assert !InputOk(rules, Value(), tx, i, height); return false, valueIn; }
        assert forall q :: Spends(tx.vin[..i + 1], q) <==> Spends(tx.vin[..i], q) || q == p by {
          SpendsOneMore(tx.vin, i);
        }
        seen := seen + {p};
        if !CanUse(utxo, p) { assert !InputOk(rules, Value(), tx, i, height); return false, valueIn; }
        if p.txid !in index || p.index >= |index[p.txid].tx.vout| {
          assert !InputOk(rules, Value(), tx, i, height);
          return false, valueIn;
        }
        var previous := index[p.txid];
        if previous.tx.IsCoinBase() && height - previous.height < COINBASE_MATURITY {
          assert !InputOk(rules, Value(), tx, i, height);
          return false, valueIn;
        }
        var out := previous.tx.vout[p.index];
        assert -INT64_LIMIT <= valueIn + out.value < INT64_LIMIT;
        assert tx.vin[..i + 1][..i] == tx.vin[..i];
        valueIn := valueIn + out.value;
        if !MoneyRange(out.value) || !MoneyRange(valueIn) || !rules.scriptOk(tx, i, out) {
          assert !InputOk(rules, Value(), tx, i, height);
          return false, valueIn;
        }
      }
      assert tx.vin[..|tx.vin|] == tx.vin;
      ok := true;
    }

    method CheckTransaction(rules: Rules, tx: Transaction, height: int) returns (ok: bool, fees: int)
      requires Valid()
      ensures ok <==> TxOk(rules, Value(), tx, height)
      ensures ok && !tx.IsCoinBase() ==> fees == Fee(Value(), tx) && MoneyRange(fees)
      ensures ok <==> RewardStands(rules, tx) || PaymentStands(rules, Value(), tx, height)
      ensures PaymentStands(rules, Value(), tx, height)
              ==> ok && fees == Sum(Claimed(Value(), tx.vin)) - Sum(Paid(tx.vout))
    {
      TxOkIff(rules, Value(), tx, height);
      hide RewardStands, PaymentStands;
      fees := 0;
      if tx.vin == [] || tx.vout == [] || !rules.sizeOk(tx) { return false, fees; }
      var outputsOk, valueOut := SumOutputs(tx.vout);
      if !outputsOk { return false, fees; }
      if tx.IsCoinBase() { return 2 <= |tx.vin[0].scriptSig| <= 100, fees; }
      var inputsOk, valueIn := SumInputs(rules, tx, height);
      if !inputsOk { return false, fees; }
      if valueIn < valueOut { return false, fees; }
      fees := valueIn - valueOut;
      ok := MoneyRange(fees);
    }

    method CheckTransactions(rules: Rules, txs: seq<Transaction>, height: int) returns (ok: bool)
      requires Valid()
      ensures ok <==> forall i :: 0 <= i < |txs| ==> TxOk(rules, Value(), txs[i], height)
    {
      for i := 0 to |txs|
        invariant forall j :: 0 <= j < i ==> TxOk(rules, Value(), txs[j], height)
      {
        var passed, _ := CheckTransaction(rules, txs[i], height);
        if !passed { return false; }
      }
      ok := true;
    }

    method ProcessTransactions(rules: Rules, txs: seq<Transaction>, blockHash: Hash32, height: int)
      requires Valid() && forall i :: 0 <= i < |txs| ==> OutputsOk(txs[i].vout)
      modifies this
      ensures Value() == Process(rules, old(Value()), txs, blockHash, height) && Valid()
    {
      for i := 0 to |txs|
        invariant Value() == Process(rules, old(Value()), txs[..i], blockHash, height) && Valid()
      {
        assert txs[..i + 1][..i] == txs[..i];
        var id := rules.id(txs[i]);
        index := index[id := Indexed(txs[i], blockHash, height)];
        CacheUTXO(id, txs[i], blockHash, height);
      }
      assert txs[..|txs|] == txs;
    }

    /** A block on the active tip: checked whole, then connected whole, or left alone. */
    method AcceptBlock(rules: Rules, block: Block, height: int) returns (accepted: bool)
      requires Valid()
      modifies this
      ensures accepted <==> BlockOk(rules, old(Value()), block, height)
      ensures accepted <==> BlockStands(rules, old(Value()), block, height)
      ensures Value() == (if accepted then Process(rules, old(Value()), block.txs, block.hash, height)
              else old(Value())) && Valid()
    {
      BlockOkIff(rules, Value(), block, height);
      hide BlockStands;
      if block.txs == [] { return false; }
      var shaped := CheckShape(rules, block.txs);
      if !shaped || !rules.headerOk(block) { return false; }
      var checked := CheckTransactions(rules, block.txs, height);
      if !checked { return false; }
      ProcessTransactions(rules, block.txs, block.hash, height);
      return true;
    }
  }

  lemma SpendsOneMore(vin: seq<TxIn>, i: nat)
    requires i < |vin|
    ensures forall q :: Spends(vin[..i + 1], q) <==> Spends(vin[..i], q) || q == vin[i].prevout
  {
    forall q ensures Spends(vin[..i + 1], q) <==> Spends(vin[..i], q) || q == vin[i].prevout {
      if Spends(vin[..i], q) {
        var j :| 0 <= j < i && vin[..i][j].prevout == q;
        assert vin[..i + 1][j].prevout == q;
      }
      if q == vin[i].prevout { assert vin[..i + 1][i].prevout == q; }
      if Spends(vin[..i + 1], q) && q != vin[i].prevout {
        var j :| 0 <= j <= i && vin[..i + 1][j].prevout == q;
        assert vin[..i][j].prevout == q;
      }
    }
  }
}
