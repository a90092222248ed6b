/** Conservation of value: what each connected transaction does to the total unspent value. */
module LedgerValue {
  import opened Bytes
  import opened Tx
  import opened Ledger
  import opened LedgerSafety

  function Unspent(s: State): set<OutPoint> {
    set p | p in s.utxo && !s.utxo[p].used
  }

  ghost function Sum(s: State, ps: set<OutPoint>): int {
    if ps == {} then 0 else
      var p :| p in ps;
      ValueAt(s, p) + Sum(s, ps - {p})
  }

  ghost function Total(s: State): int { Sum(s, Unspent(s)) }

  lemma {:induction false} SumRemove(s: State, ps: set<OutPoint>, x: OutPoint)
    requires x in ps
    ensures Sum(s, ps) == ValueAt(s, x) + Sum(s, ps - {x})
    decreases |ps|
  {
    hide ValueAt;
    var p :| p in ps && Sum(s, ps) == ValueAt(s, p) + Sum(s, ps - {p});
    if p != x {
      SumRemove(s, ps - {p}, x);
      SumRemove(s, ps - {x}, p);
      assert ps - {p} - {x} == ps - {x} - {p};
    }
  }

  lemma {:induction false} SumUnion(s: State, a: set<OutPoint>, b: set<OutPoint>)
    requires a !! b
    ensures Sum(s, a + b) == Sum(s, a) + Sum(s, b)
    decreases |a|
  {
    hide ValueAt;
    if a == {} {
      assert a + b == b;
    } else {
      var x :| x in a;
      SumRemove(s, a, x);
      SumRemove(s, a + b, x);
      assert a + b - {x} == (a - {x}) + b;
      SumUnion(s, a - {x}, b);
    }
  }

  lemma {:induction false} SumSame(s: State, s': State, ps: set<OutPoint>)
    requires forall p :: p in ps ==> ValueAt(s', p) == ValueAt(s, p)
    ensures Sum(s', ps) == Sum(s, ps)
    decreases |ps|
  {
    hide ValueAt;
    if ps != {} {
      var x :| x in ps;
      SumRemove(s, ps, x);
      SumRemove(s', ps, x);
      SumSame(s, s', ps - {x});
    }
  }

  function InputSet(vin: seq<TxIn>): set<OutPoint> {
    set i | 0 <= i < |vin| :: vin[i].prevout
  }

  function OutputSet(id: Hash32, n: nat): set<OutPoint> {
    set i | 0 <= i < n :: OutPoint(id, i)
  }

  lemma LastInput(vin: seq<TxIn>)
    requires Distinct(vin) && vin != []
    ensures var k := |vin| - 1;
            vin[k].prevout in InputSet(vin) && InputSet(vin) - {vin[k].prevout} == InputSet(vin[..k])
  {
    var k := |vin| - 1;
    var a, b := InputSet(vin) - {vin[k].prevout}, InputSet(vin[..k]);
    forall p | p in a ensures p in b {
      var i :| 0 <= i < |vin| && vin[i].prevout == p;
      assert vin[..k][i].prevout == p;
    }
    forall p | p in b ensures p in a {
      var i :| 0 <= i < k && vin[..k][i].prevout == p;
      assert vin[i].prevout == p;
    }
  }

  lemma {:induction false} SumOfInputs(s: State, vin: seq<TxIn>)
    requires Distinct(vin)
    ensures Sum(s, InputSet(vin)) == TotalIn(s, vin)
  {
    hide ValueAt;
    if vin != [] {
      var k := |vin| - 1;
      var p := vin[k].prevout;
      LastInput(vin);
      hide InputSet;
      SumOfInputs(s, vin[..k]);
      SumRemove(s, InputSet(vin), p);
    } else {
      assert InputSet(vin) == {};
    }
  }

  lemma {:induction false} SumOfOutputs(s: State, id: Hash32, vout: Outputs, n: nat)
    requires id in s.index && s.index[id].tx.vout == vout && n <= |vout|
    ensures Sum(s, OutputSet(id, n)) == TotalOut(vout[..n])
  {
    if n > 0 {
      var p := OutPoint(id, n - 1);
      SumOfOutputs(s, id, vout, n - 1);
      SumRemove(s, OutputSet(id, n), p);
      assert OutputSet(id, n) - {p} == OutputSet(id, n - 1);
      assert vout[..n][..n - 1] == vout[..n - 1];
    } else {
      assert OutputSet(id, n) == {};
    }
  }

  /** Every key of the database is an outpoint of an indexed transaction. */
  ghost predicate Known(s: State) { forall p :: p in s.utxo ==> !p.IsNull() && p.txid in s.index }

  lemma InvIsKnown(rules: Rules, s: State, hist: seq<Transaction>)
    requires Inv(rules, s, hist)
    ensures Known(s)
  {
    forall p | p in s.utxo ensures !p.IsNull() && p.txid in s.index { EntryResolves(rules, s, hist, p); }
  }

  lemma ConnectKeepsKnown(rules: Rules, s: State, tx: Transaction, blockHash: Hash32, height: int)
    requires Known(s)
    ensures Known(ConnectTx(rules, s, tx, blockHash, height))
  {
    hide Cache;
    CacheAt(s.utxo, rules.id(tx), tx, blockHash, height);
  }

  /** What connecting one transaction does to the set of unspent outputs. */
  lemma UnspentAfter(rules: Rules, s: State, tx: Transaction, blockHash: Hash32, height: int)
    requires Known(s) && Applicable(rules, s, tx)
    ensures var ins := if tx.IsCoinBase() then {} else InputSet(tx.vin);
            ins <= Unspent(s) && Unspent(s) !! OutputSet(rules.id(tx), |tx.vout|)
            && Unspent(ConnectTx(rules, s, tx, blockHash, height))
               == (Unspent(s) - ins) + OutputSet(rules.id(tx), |tx.vout|)
  {
    hide Cache;
    var ins, outs := if tx.IsCoinBase() then {} else InputSet(tx.vin), OutputSet(rules.id(tx), |tx.vout|);
    CacheAt(s.utxo, rules.id(tx), tx, blockHash, height);
    forall p: OutPoint ensures p in outs <==> p.txid == rules.id(tx) && p.index < |tx.vout| {
      if p.txid == rules.id(tx) && p.index < |tx.vout| { assert p == OutPoint(rules.id(tx), p.index); }
    }
    forall p: OutPoint ensures p in ins <==> !tx.IsCoinBase() && Spends(tx.vin, p) {}
    hide Spends, InputSet, OutputSet;
  }

  lemma ConnectValue(rules: Rules, s: State, tx: Transaction, blockHash: Hash32, height: int)
    requires Known(s) && Applicable(rules, s, tx)
    ensures Total(ConnectTx(rules, s, tx, blockHash, height))
            == Total(s) + TotalOut(tx.vout) - (if tx.IsCoinBase() then 0 else TotalIn(s, tx.vin))
  {
    var s', id := ConnectTx(rules, s, tx, blockHash, height), rules.id(tx);
    var ins, outs := if tx.IsCoinBase() then {} else InputSet(tx.vin), OutputSet(id, |tx.vout|);
    UnspentAfter(rules, s, tx, blockHash, height);
    var kept := Unspent(s) - ins;
    forall p | p in Unspent(s) ensures ValueAt(s', p) == ValueAt(s, p) { assert p.txid in s.index && p.txid != id; }
    assert s'.index[id].tx == tx;
    hide ConnectTx, Known, Applicable, InputSet, OutputSet, ValueAt, Unspent;
    SumSame(s, s', kept);
    SumUnion(s', kept, outs);
    SumUnion(s, kept, ins);
    assert kept + ins == Unspent(s);
    if !tx.IsCoinBase() { InputsAreDistinct(rules, s, tx); SumOfInputs(s, tx.vin); }
    SumOfOutputs(s', id, tx.vout, |tx.vout|);
    assert tx.vout[..|tx.vout|] == tx.vout;
  }

  lemma InputsAreDistinct(rules: Rules, s: State, tx: Transaction)
    requires Applicable(rules, s, tx) && !tx.IsCoinBase()
    ensures Distinct(tx.vin)
  {}

  lemma {:induction false} TotalInStable(s: State, s': State, vin: seq<TxIn>)
    requires forall i :: 0 <= i < |vin| ==> ValueAt(s', vin[i].prevout) == ValueAt(s, vin[i].prevout)
    ensures TotalIn(s', vin) == TotalIn(s, vin)
  {
    hide ValueAt;
    if vin != [] {
      TotalInStable(s, s', vin[..|vin| - 1]);
    }
  }

  // ----- A coinbase, whether or not its id is known -----

  /** Unspent outputs under an id. */
  function Under(s: State, id: Hash32): set<OutPoint> {
    set p | p in Unspent(s) && p.txid == id
  }

  lemma {:induction false} SumOfNothing(s: State, ps: set<OutPoint>)
    requires forall p :: p in ps ==> ValueAt(s, p) == 0
    ensures Sum(s, ps) == 0
    decreases |ps|
  {
    hide ValueAt;
    if ps != {} {
      var x :| x in ps;
      SumRemove(s, ps, x);
      SumOfNothing(s, ps - {x});
    }
  }

  lemma UnderIsUnspent(s: State, id: Hash32)
    ensures Under(s, id) <= Unspent(s)
  {}

  lemma CoinbaseUnspent(rules: Rules, s: State, tx: Transaction, blockHash: Hash32, height: int)
    requires Known(s) && tx.IsCoinBase()
    ensures var s', id := ConnectTx(rules, s, tx, blockHash, height), rules.id(tx);
            var kept := Unspent(s) - Under(s, id);
            OutputSet(id, |tx.vout|) <= Under(s', id) && kept !! Under(s', id) && Unspent(s') == kept + Under(s', id)
  {
    hide Cache;
    CacheAt(s.utxo, rules.id(tx), tx, blockHash, height);
  }

  lemma CoinbaseValues(rules: Rules, s: State, tx: Transaction, blockHash: Hash32, height: int)
    requires Known(s) && tx.IsCoinBase()
    ensures var s', id := ConnectTx(rules, s, tx, blockHash, height), rules.id(tx);
            id in s'.index && s'.index[id].tx == tx
            && (forall p :: p in Unspent(s) - Under(s, id) ==> ValueAt(s', p) == ValueAt(s, p))
            && forall p :: p in Under(s', id) - OutputSet(id, |tx.vout|) ==> ValueAt(s', p) == 0
  {
    hide Cache;
    var s', id := ConnectTx(rules, s, tx, blockHash, height), rules.id(tx);
    forall p | p in Under(s', id) - OutputSet(id, |tx.vout|) ensures ValueAt(s', p) == 0 {
      assert p == OutPoint(id, p.index);
    }
  }

  /** Connecting a coinbase raises the total by what it creates less what was still unspent under its id. */
  lemma CoinbaseValue(rules: Rules, s: State, tx: Transaction, blockHash: Hash32, height: int)
    requires Known(s) && tx.IsCoinBase()
    ensures Total(ConnectTx(rules, s, tx, blockHash, height))
            == Total(s) + TotalOut(tx.vout) - Sum(s, Under(s, rules.id(tx)))
  {
    hide ConnectTx, Known, OutputSet, ValueAt, Unspent, Under;
    var s', id := ConnectTx(rules, s, tx, blockHash, height), rules.id(tx);
    var kept, outs, under := Unspent(s) - Under(s, id), OutputSet(id, |tx.vout|), Under(s', id);
    CoinbaseUnspent(rules, s, tx, blockHash, height);
    CoinbaseValues(rules, s, tx, blockHash, height);
    SumSame(s, s', kept);
    SumOfNothing(s', under - outs);
    SumUnion(s', under - outs, outs);
    assert (under - outs) + outs == under;
    SumUnion(s', kept, under);
    SumUnion(s, kept, Under(s, id));
    UnderIsUnspent(s, id);
    assert kept + Under(s, id) == Unspent(s);
    SumOfOutputs(s', id, tx.vout, |tx.vout|);
    assert tx.vout[..|tx.vout|] == tx.vout;
  }

  // ----- A whole block -----

  /** While a checked block is connected, its later transactions stay applicable and the other index entries stay,
      whatever its coinbase overwrites. */
  ghost predicate Underway(rules: Rules, s: State, txs: seq<Transaction>, k: nat, s': State)
    requires 0 < k <= |txs|
  {
    Known(s') &&
    (forall h :: h in s.index && h != rules.id(txs[0]) ==> h in s'.index && s'.index[h] == s.index[h]) &&
    (forall p :: CanUse(s.utxo, p) && !SpentIn(txs[..k], p) ==> CanUse(s'.utxo, p))
  }

  lemma UnusedStays(rules: Rules, s: State, tx: Transaction, blockHash: Hash32, height: int, p: OutPoint)
    requires Known(s) && CanUse(s.utxo, p) && (tx.IsCoinBase() || !Spends(tx.vin, p))
    ensures CanUse(ConnectTx(rules, s, tx, blockHash, height).utxo, p)
  {
    hide Cache;
    CacheAt(s.utxo, rules.id(tx), tx, blockHash, height);
  }

  lemma {:induction false} BlockUnderway(rules: Rules, s: State, hist: seq<Transaction>, block: Block, height: int,
                                         k: nat)
    requires Inv(rules, s, hist) && CollisionFree(rules, hist + block.txs) && BlockOk(rules, s, block, height)
    requires 0 < k <= |block.txs|
    ensures Underway(rules, s, block.txs, k, Process(rules, s, block.txs[..k], block.hash, height))
  {
    hide Inv, TxOk, Shape, SpentIn, Spends, Cache, CollisionFree;
    var txs := block.txs;
    var tx := txs[k - 1];
    var before, after := Process(rules, s, txs[..k - 1], block.hash, height),
        Process(rules, s, txs[..k], block.hash, height);
    assert txs[..k][..k - 1] == txs[..k - 1] && txs[..k][k - 1] == tx;
    assert after == ConnectTx(rules, before, tx, block.hash, height);
    if k == 1 {
      ProcessNothing(rules, s, txs[..0], block.hash, height);
      InvIsKnown(rules, s, hist);
    } else {
      BlockUnderway(rules, s, hist, block, height, k - 1);
      assert rules.id(tx) !in s.index by { NotIndexed(rules, s, hist, block, height, k - 1); }
    }
    ConnectKeepsKnown(rules, before, tx, block.hash, height);
    forall p | CanUse(s.utxo, p) && !SpentIn(txs[..k], p) ensures CanUse(after.utxo, p) {
      SpentInAppend(txs[..k - 1], tx, p);
      assert txs[..k - 1] + [tx] == txs[..k];
      UnusedStays(rules, before, tx, block.hash, height, p);
    }
  }

  lemma NotIndexed(rules: Rules, s: State, hist: seq<Transaction>, block: Block, height: int, k: nat)
    requires Inv(rules, s, hist) && CollisionFree(rules, hist + block.txs) && BlockOk(rules, s, block, height)
    requires 0 < k < |block.txs|
    ensures rules.id(block.txs[k]) !in s.index && !block.txs[k].IsCoinBase()
  {
    FewerCollisions(rules, hist + [block.txs[k]], hist + block.txs);
    CheckedIsFresh(rules, s, hist, block.txs[k], height);
  }

  lemma LaterIsApplicable(rules: Rules, s: State, hist: seq<Transaction>, block: Block, height: int, k: nat)
    requires Inv(rules, s, hist) && CollisionFree(rules, hist + block.txs) && BlockOk(rules, s, block, height)
    requires 0 < k < |block.txs|
    ensures Applicable(rules, Process(rules, s, block.txs[..k], block.hash, height), block.txs[k])
  {
    hide Process, Inv, CollisionFree, Fee;
    var txs, tx := block.txs, block.txs[k];
    var s' := Process(rules, s, txs[..k], block.hash, height);
    NotIndexed(rules, s, hist, block, height, k);
    ProcessIndex(rules, s, txs[..k], block.hash, height);
    BlockUnderway(rules, s, hist, block, height, k);
    assert TxOk(rules, s, tx, height);
    forall i | 0 <= i < |tx.vin| ensures CanUse(s'.utxo, tx.vin[i].prevout) {
      assert InputOk(rules, s, tx, i, height);
      assert !SpentIn(txs[..k], tx.vin[i].prevout);
    }
  }

  /** Nothing the block spends comes from a transaction with its coinbase's id. */
  ghost predicate CoinbaseAside(rules: Rules, txs: seq<Transaction>) {
    txs != [] &&
    forall k, i :: 0 < k < |txs| && 0 <= i < |txs[k].vin| ==> txs[k].vin[i].prevout.txid != rules.id(txs[0])
  }

  /** A new coinbase cannot be spent from. */
  lemma NewIsAside(rules: Rules, s: State, block: Block, height: int)
    requires BlockOk(rules, s, block, height) && rules.id(block.txs[0]) !in s.index
    ensures CoinbaseAside(rules, block.txs)
  {
    var txs := block.txs;
    forall k, i | 0 < k < |txs| && 0 <= i < |txs[k].vin| ensures txs[k].vin[i].prevout.txid != rules.id(txs[0]) {
      assert TxOk(rules, s, txs[k], height) && !txs[k].IsCoinBase();
      assert InputOk(rules, s, txs[k], i, height);
    }
  }

  lemma InputsKeepValue(rules: Rules, s: State, hist: seq<Transaction>, block: Block, height: int, k: nat)
    requires Inv(rules, s, hist) && CollisionFree(rules, hist + block.txs) && BlockOk(rules, s, block, height)
    requires 0 < k < |block.txs|
    requires CoinbaseAside(rules, block.txs)
    ensures var before := Process(rules, s, block.txs[..k], block.hash, height);
            TotalIn(before, block.txs[k].vin) == TotalIn(s, block.txs[k].vin)
  {
    hide Process, Inv, CollisionFree;
    var tx, before := block.txs[k], Process(rules, s, block.txs[..k], block.hash, height);
    NotIndexed(rules, s, hist, block, height, k);
    BlockUnderway(rules, s, hist, block, height, k);
    assert TxOk(rules, s, tx, height);
    forall i | 0 <= i < |tx.vin| ensures ValueAt(before, tx.vin[i].prevout) == ValueAt(s, tx.vin[i].prevout) {
      assert InputOk(rules, s, tx, i, height);
    }
    hide ValueAt;
    TotalInStable(s, before, tx.vin);
  }

  /** In a checked block, on any state a run can reach: connecting the k-th transaction lowers the total unspent value
      by exactly its fee; the fee is the one computed before the block, in the money range, unless outputs under the
      coinbase's own id are spent. The coinbase raises the total by what it creates less what it overwrites. */
  lemma FeesAreExact(rules: Rules, s: State, hist: seq<Transaction>, block: Block, height: int, k: nat)
    requires Inv(rules, s, hist) && CollisionFree(rules, hist + block.txs) && BlockOk(rules, s, block, height)
    requires k < |block.txs|
    ensures var before := Process(rules, s, block.txs[..k], block.hash, height);
            var after := Process(rules, s, block.txs[..k + 1], block.hash, height);
            if k == 0
            then Total(after) == Total(s) + TotalOut(block.txs[0].vout) - Sum(s, Under(s, rules.id(block.txs[0])))
            else Total(after) == Total(before) - Fee(before, block.txs[k]) && MoneyRange(Fee(s, block.txs[k]))
                 && (CoinbaseAside(rules, block.txs) ==> Fee(before, block.txs[k]) == Fee(s, block.txs[k]))
  {
    var txs := block.txs;
    var before := Process(rules, s, txs[..k], block.hash, height);
    assert txs[..k + 1][..k] == txs[..k] && txs[..k + 1][k] == txs[k];
    assert Process(rules, s, txs[..k + 1], block.hash, height) == ConnectTx(rules, before, txs[k], block.hash, height);
    assert TxOk(rules, s, txs[k], height);
    hide Process, ConnectTx, Inv, Applicable, ValueAt, CoinbaseAside, InputOk, Known, Under;
    if k == 0 {
      ProcessNothing(rules, s, txs[..0], block.hash, height);
      InvIsKnown(rules, s, hist);
      CoinbaseValue(rules, s, txs[0], block.hash, height);
    } else {
      BlockUnderway(rules, s, hist, block, height, k);
      LaterIsApplicable(rules, s, hist, block, height, k);
      ConnectValue(rules, before, txs[k], block.hash, height);
      if CoinbaseAside(rules, txs) { InputsKeepValue(rules, s, hist, block, height, k); }
    }
  }

  /** With a new coinbase there is nothing to overwrite. */
  lemma NothingUnder(rules: Rules, s: State, hist: seq<Transaction>, id: Hash32)
    requires Inv(rules, s, hist) && id !in s.index
    ensures Sum(s, Under(s, id)) == 0
  {
    hide Inv;
    InvIsKnown(rules, s, hist);
    assert Under(s, id) == {};
  }

  function Fees(s: State, txs: seq<Transaction>): int {
    if |txs| <= 1 then 0 else Fees(s, txs[..|txs| - 1]) + Fee(s, txs[|txs| - 1])
  }

  lemma {:induction false} PrefixConservesValue(rules: Rules, s: State, hist: seq<Transaction>, block: Block,
                                                height: int, k: nat)
    requires Inv(rules, s, hist) && CollisionFree(rules, hist + block.txs) && BlockOk(rules, s, block, height)
    requires CoinbaseAside(rules, block.txs) && 0 < k <= |block.txs|
    ensures Total(Process(rules, s, block.txs[..k], block.hash, height))
            == Total(s) + TotalOut(block.txs[0].vout) - Sum(s, Under(s, rules.id(block.txs[0])))
               - Fees(s, block.txs[..k])
  {
    hide Process, Inv, BlockOk, Total, Fee, CoinbaseAside, Under;
    FeesAreExact(rules, s, hist, block, height, k - 1);
    if k > 1 {
      PrefixConservesValue(rules, s, hist, block, height, k - 1);
      assert block.txs[..k][..k - 1] == block.txs[..k - 1];
    }
  }

  /** A whole block changes the total by what its coinbase creates less the fees of the others, and less what was
      unspent under the coinbase's id: nothing, if the coinbase is new. */
  lemma BlockConservesValue(rules: Rules, s: State, hist: seq<Transaction>, block: Block, height: int)
    requires Inv(rules, s, hist) && CollisionFree(rules, hist + block.txs) && BlockOk(rules, s, block, height)
    ensures rules.id(block.txs[0]) !in s.index
            ==> CoinbaseAside(rules, block.txs) && Sum(s, Under(s, rules.id(block.txs[0]))) == 0
    ensures CoinbaseAside(rules, block.txs)
            ==> Total(Process(rules, s, block.txs, block.hash, height)) ==
                Total(s) + TotalOut(block.txs[0].vout) - Sum(s, Under(s, rules.id(block.txs[0]))) - Fees(s, block.txs)
  {
    hide Process, Inv, Total, CoinbaseAside, Under;
    if rules.id(block.txs[0]) !in s.index {
      NewIsAside(rules, s, block, height);
      NothingUnder(rules, s, hist, rules.id(block.txs[0]));
    }
    if CoinbaseAside(rules, block.txs) { PrefixConservesValue(rules, s, hist, block, height, |block.txs|); }
    assert block.txs[..|block.txs|] == block.txs;
  }

  lemma ProcessNothing(rules: Rules, s: State, txs: seq<Transaction>, blockHash: Hash32, height: int)
    requires txs == []
    ensures Process(rules, s, txs, blockHash, height) == s
  {}
}
