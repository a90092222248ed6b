/** Double spends in any run of checked blocks, with no assumption on ids: every one is of a repeated transaction. */
module LedgerDoubleSpend {
  import opened Bytes
  import opened Tx
  import opened Ledger
  import opened LedgerSafety

  /** Two connected transactions have this id. */
  ghost predicate Twice(rules: Rules, hist: seq<Transaction>, h: Hash32) {
    exists a, b :: 0 <= a < b < |hist| && rules.id(hist[a]) == h && rules.id(hist[b]) == h
  }

  ghost predicate Indexed(rules: Rules, hist: seq<Transaction>, h: Hash32) {
    exists a :: 0 <= a < |hist| && rules.id(hist[a]) == h
  }

  /** What holds of the databases however often an id is connected: an output that was spent and can be used again
      belongs to an id that was connected twice. */
  ghost predicate Weak(rules: Rules, s: State, hist: seq<Transaction>) {
    NoNull(s.utxo) &&
    (forall h :: h in s.index <==> Indexed(rules, hist, h)) &&
    (forall p :: p in s.utxo ==> p.txid in s.index) &&
    (forall p :: SpentIn(hist, p) ==> p.txid in s.index) &&
    (forall p :: SpentIn(hist, p) && CanUse(s.utxo, p) ==> Twice(rules, hist, p.txid))
  }

  lemma InvIsWeak(rules: Rules, s: State, hist: seq<Transaction>)
    requires Inv(rules, s, hist)
    ensures Weak(rules, s, hist)
  {
    NoNullEntries(rules, s, hist);
    forall h ensures h in s.index <==> Indexed(rules, hist, h) {
      if h in s.index {
        var a :| 0 <= a < |hist| && hist[a] == s.index[h].tx;
        assert rules.id(hist[a]) == h;
      }
    }
  }

  lemma TwiceStays(rules: Rules, hist: seq<Transaction>, more: seq<Transaction>, h: Hash32)
    requires Twice(rules, hist, h)
    ensures Twice(rules, hist + more, h)
  {
    var a, b :| 0 <= a < b < |hist| && rules.id(hist[a]) == h && rules.id(hist[b]) == h;
    assert (hist + more)[a] == hist[a] && (hist + more)[b] == hist[b];
  }

  lemma IndexedTwice(rules: Rules, hist: seq<Transaction>, tx: Transaction)
    requires Indexed(rules, hist, rules.id(tx))
    ensures Twice(rules, hist + [tx], rules.id(tx))
  {
    var a :| 0 <= a < |hist| && rules.id(hist[a]) == rules.id(tx);
    assert (hist + [tx])[a] == hist[a] && (hist + [tx])[|hist|] == tx;
  }

  lemma IndexedOneMore(rules: Rules, hist: seq<Transaction>, tx: Transaction, h: Hash32)
    ensures Indexed(rules, hist + [tx], h) <==> Indexed(rules, hist, h) || h == rules.id(tx)
  {
    assert (hist + [tx])[|hist|] == tx;
    if Indexed(rules, hist, h) {
      var a :| 0 <= a < |hist| && rules.id(hist[a]) == h;
      assert (hist + [tx])[a] == hist[a];
    }
  }

  /** The transaction spends only keys of the database. */
  ghost predicate InputsKnown(s: State, tx: Transaction) {
    tx.IsCoinBase() || forall i :: 0 <= i < |tx.vin| ==> tx.vin[i].prevout in s.utxo
  }

  lemma ConnectKeepsWeak(rules: Rules, s: State, hist: seq<Transaction>, tx: Transaction, blockHash: Hash32,
                         height: int)
    requires Weak(rules, s, hist) && InputsKnown(s, tx)
    ensures Weak(rules, ConnectTx(rules, s, tx, blockHash, height), hist + [tx])
    ensures forall p :: p in s.utxo ==> p in ConnectTx(rules, s, tx, blockHash, height).utxo
  {
    hide Cache, SpentIn, Twice, Indexed, Spends;
    var s', all, id := ConnectTx(rules, s, tx, blockHash, height), hist + [tx], rules.id(tx);
    CacheAt(s.utxo, id, tx, blockHash, height);
    forall h ensures h in s'.index <==> Indexed(rules, all, h) { IndexedOneMore(rules, hist, tx, h); }
    forall p | SpentIn(all, p) ensures p.txid in s.index && (CanUse(s'.utxo, p) ==> Twice(rules, all, p.txid)) {
      SpentInAppend(hist, tx, p);
      if !tx.IsCoinBase() && Spends(tx.vin, p) { SpendsIsInput(tx, p); }
      if CanUse(s'.utxo, p) {
        if p.txid == id && p.index < |tx.vout| { IndexedTwice(rules, hist, tx); }
        else { TwiceStays(rules, hist, [tx], p.txid); }
      }
    }
  }

  lemma SpendsIsInput(tx: Transaction, p: OutPoint)
    requires Spends(tx.vin, p)
    ensures exists i :: 0 <= i < |tx.vin| && tx.vin[i].prevout == p
  {}

  lemma {:induction false} BlockKeepsWeak(rules: Rules, s: State, hist: seq<Transaction>, block: Block, height: int,
                                          k: nat)
    requires Weak(rules, s, hist) && BlockOk(rules, s, block, height) && k <= |block.txs|
    ensures var s' := Process(rules, s, block.txs[..k], block.hash, height);
            Weak(rules, s', hist + block.txs[..k]) && forall p :: p in s.utxo ==> p in s'.utxo
  {
    hide Weak, ConnectTx;
    var txs := block.txs;
    if k == 0 {
      assert hist + txs[..0] == hist;
    } else {
      BlockKeepsWeak(rules, s, hist, block, height, k - 1);
      var before, tx := Process(rules, s, txs[..k - 1], block.hash, height), txs[k - 1];
      assert txs[..k][..k - 1] == txs[..k - 1] && hist + txs[..k - 1] + [tx] == hist + txs[..k];
      CheckedInputs(rules, s, tx, height);
      ConnectKeepsWeak(rules, before, hist + txs[..k - 1], tx, block.hash, height);
    }
  }

  lemma CheckedInputs(rules: Rules, s: State, tx: Transaction, height: int)
    requires TxOk(rules, s, tx, height)
    ensures InputsKnown(s, tx) && (!tx.IsCoinBase() ==> forall p :: Spends(tx.vin, p) ==> CanUse(s.utxo, p))
  {
    if !tx.IsCoinBase() {
      forall i | 0 <= i < |tx.vin| ensures CanUse(s.utxo, tx.vin[i].prevout) {
        assert InputOk(rules, s, tx, i, height);
      }
    }
  }

  // ----- The theorem -----

  ghost predicate BothSpend(hist: seq<Transaction>, a: int, b: int, p: OutPoint) {
    0 <= a < b < |hist| && !hist[a].IsCoinBase() && !hist[b].IsCoinBase() && Spends(hist[a].vin, p)
        && Spends(hist[b].vin, p)
  }

  /** Whatever is spent twice has an id that was connected twice, and no transaction spends an output twice itself. */
  ghost predicate OnlyRepeats(rules: Rules, hist: seq<Transaction>) {
    (forall a, b, p :: BothSpend(hist, a, b, p) ==> Twice(rules, hist, p.txid)) &&
    (forall a :: 0 <= a < |hist| && !hist[a].IsCoinBase() ==> Distinct(hist[a].vin))
  }

  lemma SpentAgain(rules: Rules, s: State, hist: seq<Transaction>, block: Block, height: int, a: int, b: int,
                   p: OutPoint)
    requires Weak(rules, s, hist) && OnlyRepeats(rules, hist) && BlockOk(rules, s, block, height)
    requires BothSpend(hist + block.txs, a, b, p)
    ensures Twice(rules, hist + block.txs, p.txid)
  {
    hide Twice, SigOpsOk, TxOk, DistinctInputs;
    var txs, n := block.txs, |hist|;
    if b < n {
      assert BothSpend(hist, a, b, p);
      TwiceStays(rules, hist, txs, p.txid);
    } else {
      CheckedInputs(rules, s, txs[b - n], height);
      if a >= n { TwoOfOneBlock(txs, a - n, b - n, p); } else {
        assert (hist + txs)[a] == hist[a] && SpentIn(hist, p);
        TwiceStays(rules, hist, txs, p.txid);
      }
    }
  }

  lemma BlockOnlyRepeats(rules: Rules, s: State, hist: seq<Transaction>, block: Block, height: int)
    requires Weak(rules, s, hist) && OnlyRepeats(rules, hist) && BlockOk(rules, s, block, height)
    ensures OnlyRepeats(rules, hist + block.txs)
  {
    var txs := block.txs;
    var all, n := hist + txs, |hist|;
    forall a | 0 <= a < |all| && !all[a].IsCoinBase() ensures Distinct(all[a].vin) {
      if a >= n { assert all[a] == txs[a - n]; } else { assert all[a] == hist[a]; }
    }
    hide BothSpend, Twice, BlockOk, Weak;
    forall a, b, p | BothSpend(all, a, b, p) ensures Twice(rules, all, p.txid) {
      SpentAgain(rules, s, hist, block, height, a, b, p);
    }
  }

  lemma TwoOfOneBlock(txs: seq<Transaction>, a: nat, b: nat, p: OutPoint)
    requires a < b < |txs| && DistinctInputs(txs)
    ensures !(Spends(txs[a].vin, p) && Spends(txs[b].vin, p))
  {}

  /** In any run of checked blocks, with any ids, every double spend is of an output of a transaction whose id was
      connected twice. */
  lemma {:induction false} DoubleSpendsAreRepeats(rules: Rules, s: State, hist: seq<Transaction>, blocks: seq<Block>,
                                                  first: int)
    requires Weak(rules, s, hist) && OnlyRepeats(rules, hist) && ChainOk(rules, s, blocks, first)
    ensures Weak(rules, Chain(rules, s, blocks, first), History(hist, blocks))
    ensures OnlyRepeats(rules, History(hist, blocks))
  {
    hide BlockOk, Process, Weak, OnlyRepeats;
    if blocks != [] {
      var k := |blocks| - 1;
      DoubleSpendsAreRepeats(rules, s, hist, blocks[..k], first);
      var before, soFar, b := Chain(rules, s, blocks[..k], first), History(hist, blocks[..k]), blocks[k];
      BlockKeepsWeak(rules, before, soFar, b, first + k, |b.txs|);
      assert b.txs[..|b.txs|] == b.txs;
      BlockOnlyRepeats(rules, before, soFar, b, first + k);
    }
  }

  lemma RepeatsAreNeeded(rules: Rules, hist: seq<Transaction>)
    requires OnlyRepeats(rules, hist) && NoRepeats(rules, hist)
    ensures NoDoubleSpend(hist)
  {
    hide Spends, Distinct;
    forall a, b, p | 0 <= a < b < |hist| && !hist[a].IsCoinBase() && !hist[b].IsCoinBase()
      ensures !(Spends(hist[a].vin, p) && Spends(hist[b].vin, p))
    {
      assert BothSpend(hist, a, b, p) <==> Spends(hist[a].vin, p) && Spends(hist[b].vin, p);
    }
  }

  /** So a run that repeats no id spends nothing twice. */
  lemma NoRepeatNoDoubleSpend(rules: Rules, s: State, hist: seq<Transaction>, blocks: seq<Block>, first: int)
    requires Inv(rules, s, hist) && ChainOk(rules, s, blocks, first) && NoRepeats(rules, History(hist, blocks))
    ensures NoDoubleSpend(History(hist, blocks))
  {
    hide ChainOk, History, Weak, OnlyRepeats, NoDoubleSpend;
    InvIsWeak(rules, s, hist);
    StartsClean(rules, s, hist);
    DoubleSpendsAreRepeats(rules, s, hist, blocks, first);
    RepeatsAreNeeded(rules, History(hist, blocks));
  }

  lemma StartsClean(rules: Rules, s: State, hist: seq<Transaction>)
    requires Inv(rules, s, hist)
    ensures OnlyRepeats(rules, hist)
  {
    hide Spends, Distinct;
  }
}
