/** Safety of the ledger over every run of blocks that extend the active chain. */
module LedgerSafety {
  import opened Bytes
  import opened Tx
  import opened Ledger

  // ----- What the database operations do, entry by entry -----

  ghost predicate NoNull(u: Utxo) { forall p :: p in u ==> !p.IsNull() }

  lemma {:induction false} SetInputsAt(u: Utxo, vin: seq<TxIn>, used: bool)
    requires NoNull(u)
    ensures var r := SetInputs(u, vin, used);
            r.Keys == u.Keys && forall p :: p in u ==> r[p] == if Spends(vin, p) then u[p].(used := used) else u[p]
  {
    if vin != [] {
      var k := |vin| - 1;
      SetInputsAt(u, vin[..k], used);
      assert forall p :: Spends(vin, p) <==> Spends(vin[..k], p) || vin[k].prevout == p by {
        forall p ensures Spends(vin, p) <==> Spends(vin[..k], p) || vin[k].prevout == p {
          if Spends(vin, p) {
            var i :| 0 <= i < |vin| && vin[i].prevout == p;
            if i < k { assert vin[..k][i].prevout == p; }
          }
          if Spends(vin[..k], p) {
            var i :| 0 <= i < k && vin[..k][i].prevout == p;
            assert vin[i].prevout == p;
          }
        }
      }
    }
  }

  lemma {:induction false} PutOutputsAt(u: Utxo, id: Hash32, n: nat, blockHash: Hash32, height: int)
    requires n < NULL_INDEX
    ensures var r := PutOutputs(u, id, n, blockHash, height);
            forall p :: (p in r <==> p in u || (p.txid == id && p.index < n))
                        && (p in r ==> r[p] == if p.txid == id && p.index < n then Entry(blockHash, height, false)
                           else u[p])
  {
    if n > 0 { PutOutputsAt(u, id, n - 1, blockHash, height); }
  }

  // ----- The invariant -----

  function Prevouts(vin: seq<TxIn>): (ps: seq<OutPoint>)
    ensures |ps| == |vin| && forall i :: 0 <= i < |vin| ==> ps[i] == vin[i].prevout
  {
    seq(|vin|, i requires 0 <= i < |vin| => vin[i].prevout)
  }

  /** Among these transactions, equal ids mean equal spends. */
  ghost predicate CollisionFree(rules: Rules, txs: seq<Transaction>) {
    forall a, b :: a in txs && b in txs && rules.id(a) == rules.id(b) ==> Prevouts(a.vin) == Prevouts(b.vin)
  }

  lemma FewerCollisions(rules: Rules, txs: seq<Transaction>, all: seq<Transaction>)
    requires CollisionFree(rules, all) && forall a :: a in txs ==> a in all
    ensures CollisionFree(rules, txs)
  {}

  ghost predicate SpentIn(hist: seq<Transaction>, p: OutPoint) {
    exists a :: 0 <= a < |hist| && !hist[a].IsCoinBase() && Spends(hist[a].vin, p)
  }

  /** No transaction occurs twice. */
  ghost predicate NoRepeats(rules: Rules, hist: seq<Transaction>) {
    forall a, b :: 0 <= a < b < |hist| ==> rules.id(hist[a]) != rules.id(hist[b])
  }

  /** No output is spent twice, by two transactions or by one. */
  ghost predicate NoDoubleSpend(hist: seq<Transaction>) {
    (forall a, b, p :: 0 <= a < b < |hist| && !hist[a].IsCoinBase() && !hist[b].IsCoinBase()
       ==> !(Spends(hist[a].vin, p) && Spends(hist[b].vin, p))) &&
    (forall a :: 0 <= a < |hist| && !hist[a].IsCoinBase() ==> Distinct(hist[a].vin))
  }

  ghost predicate Distinct(vin: seq<TxIn>) {
    forall i, j :: 0 <= i < j < |vin| ==> vin[i].prevout != vin[j].prevout
  }

  /** Every spent outpoint refers to a connected output. */
  ghost predicate InputsResolve(s: State, hist: seq<Transaction>) {
    forall a, i :: 0 <= a < |hist| && !hist[a].IsCoinBase() && 0 <= i < |hist[a].vin|
        ==> Resolves(s, hist[a].vin[i].prevout)
  }

  /** The databases are exactly those of the transactions connected so far, `hist`. */
  ghost predicate Inv(rules: Rules, s: State, hist: seq<Transaction>) {
    (forall a :: 0 <= a < |hist| ==> rules.id(hist[a]) in s.index && s.index[rules.id(hist[a])].tx == hist[a]) &&
    (forall h :: h in s.index ==> rules.id(s.index[h].tx) == h && s.index[h].tx in hist) &&
    (forall p :: p in s.utxo <==> Resolves(s, p)) &&
    (forall p :: p in s.utxo ==> (s.utxo[p].used <==> SpentIn(hist, p))) &&
    (forall h :: h in s.index ==> OutputsOk(s.index[h].tx.vout)) &&
    InputsResolve(s, hist) && NoRepeats(rules, hist) && NoDoubleSpend(hist)
  }

  /** A transaction the databases are ready for. */
  ghost predicate Applicable(rules: Rules, s: State, tx: Transaction) {
    rules.id(tx) !in s.index && OutputsOk(tx.vout) &&
    (!tx.IsCoinBase() ==> Distinct(tx.vin) && forall i :: 0 <= i < |tx.vin| ==> CanUse(s.utxo, tx.vin[i].prevout))
  }

  lemma NoNullEntries(rules: Rules, s: State, hist: seq<Transaction>)
    requires Inv(rules, s, hist)
    ensures NoNull(s.utxo)
  {
    forall p | p in s.utxo ensures !p.IsNull() { assert Resolves(s, p); }
  }

  /** One cached transaction, entry by entry. */
  lemma CacheAt(u: Utxo, id: Hash32, tx: Transaction, blockHash: Hash32, height: int)
    requires NoNull(u)
    ensures var r := Cache(u, id, tx, blockHash, height);
            forall p :: (p in r <==> p in u || (p.txid == id && p.index < |tx.vout|))
                        && (p in r ==> r[p] == if p.txid == id && p.index < |tx.vout|
                           then Entry(blockHash, height, false)
                                               else if !tx.IsCoinBase() && Spends(tx.vin, p) then u[p].(used := true)
                                               else u[p])
  {
    hide SetInputs, PutOutputs, Spends;
    SetInputsAt(u, tx.vin, true);
    PutOutputsAt(if tx.IsCoinBase() then u else SetInputs(u, tx.vin, true), id, |tx.vout|, blockHash, height);
  }

  lemma SpentInAppend(hist: seq<Transaction>, tx: Transaction, p: OutPoint)
    ensures SpentIn(hist + [tx], p) <==> SpentIn(hist, p) || (!tx.IsCoinBase() && Spends(tx.vin, p))
  {
    hide Spends;
    var all := hist + [tx];
    if SpentIn(hist, p) {
      var a :| 0 <= a < |hist| && !hist[a].IsCoinBase() && Spends(hist[a].vin, p);
      assert all[a] == hist[a];
    }
    assert all[|hist|] == tx;
  }

  lemma IndexStepKeepsInv(rules: Rules, s: State, hist: seq<Transaction>, tx: Transaction, blockHash: Hash32,
                          height: int)
    requires Inv(rules, s, hist) && Applicable(rules, s, tx)
    ensures var s', hist' := ConnectTx(rules, s, tx, blockHash, height), hist + [tx];
            (forall a :: 0 <= a < |hist'| ==>
               rules.id(hist'[a]) in s'.index && s'.index[rules.id(hist'[a])].tx == hist'[a])
            && (forall h :: h in s'.index ==> rules.id(s'.index[h].tx) == h && s'.index[h].tx in hist')
            && (forall h :: h in s'.index ==> OutputsOk(s'.index[h].tx.vout))
            && NoRepeats(rules, hist')
  {
    hide Cache, OutputsOk, CanUse, SpentIn, NoDoubleSpend, Resolves, Distinct;
    var s', hist' := ConnectTx(rules, s, tx, blockHash, height), hist + [tx];
    forall h | h in s'.index ensures s'.index[h].tx in hist' {
      if h != rules.id(tx) { assert s.index[h].tx in hist; }
    }
  }

  lemma SpendStepKeepsInv(rules: Rules, s: State, hist: seq<Transaction>, tx: Transaction)
    requires Inv(rules, s, hist) && Applicable(rules, s, tx)
    ensures NoDoubleSpend(hist + [tx])
  {
    hide Resolves, OutputsOk, NoRepeats;
    var hist' := hist + [tx];
    forall a, p | 0 <= a < |hist| && !hist[a].IsCoinBase() && !tx.IsCoinBase()
      ensures !(Spends(hist[a].vin, p) && Spends(tx.vin, p))
    {
      if Spends(tx.vin, p) { assert CanUse(s.utxo, p); }
      if Spends(hist[a].vin, p) { assert SpentIn(hist, p); }
    }
    forall a, b, p | 0 <= a < b < |hist'| && !hist'[a].IsCoinBase() && !hist'[b].IsCoinBase()
      ensures !(Spends(hist'[a].vin, p) && Spends(hist'[b].vin, p))
    {
      assert hist'[a] == hist[a];
      if b < |hist| { assert hist'[b] == hist[b]; }
    }
  }

  lemma ResolvesAfter(rules: Rules, s: State, tx: Transaction, blockHash: Hash32, height: int, p: OutPoint)
    requires rules.id(tx) !in s.index
    ensures var s' := ConnectTx(rules, s, tx, blockHash, height);
            Resolves(s', p) <==> Resolves(s, p) || (p.txid == rules.id(tx) && p.index < |tx.vout|)
    ensures var s' := ConnectTx(rules, s, tx, blockHash, height);
            Resolves(s, p) ==> ValueAt(s', p) == ValueAt(s, p)
  {
    hide Cache;
  }

  /** An outpoint of a transaction never connected is spent by none of those that were. */
  lemma FreshIsUnspent(rules: Rules, s: State, hist: seq<Transaction>, p: OutPoint)
    requires Inv(rules, s, hist) && p.txid !in s.index
    ensures !SpentIn(hist, p)
  {}

  lemma ConnectKeepsInv(rules: Rules, s: State, hist: seq<Transaction>, tx: Transaction, blockHash: Hash32, height: int)
    requires Inv(rules, s, hist) && Applicable(rules, s, tx)
    ensures Inv(rules, ConnectTx(rules, s, tx, blockHash, height), hist + [tx])
  {
    var s', hist' := ConnectTx(rules, s, tx, blockHash, height), hist + [tx];
    IndexStepKeepsInv(rules, s, hist, tx, blockHash, height);
    SpendStepKeepsInv(rules, s, hist, tx);
    NoNullEntries(rules, s, hist);
    CacheAt(s.utxo, rules.id(tx), tx, blockHash, height);
    forall p ensures p in s'.utxo <==> Resolves(s', p) { ResolvesAfter(rules, s, tx, blockHash, height, p); }
    forall p | p in s'.utxo ensures s'.utxo[p].used <==> SpentIn(hist', p) {
      SpentInAppend(hist, tx, p);
      if p.txid == rules.id(tx) {
        FreshIsUnspent(rules, s, hist, p);
        assert !tx.IsCoinBase() && Spends(tx.vin, p) ==> CanUse(s.utxo, p);
        assert !Resolves(s, p);
      }
    }
    forall a, i | 0 <= a < |hist'| && !hist'[a].IsCoinBase() && 0 <= i < |hist'[a].vin|
      ensures Resolves(s', hist'[a].vin[i].prevout)
    {
      var p := hist'[a].vin[i].prevout;
      ResolvesAfter(rules, s, tx, blockHash, height, p);
      if a == |hist| { assert CanUse(s.utxo, p); } else { assert hist'[a] == hist[a]; }
    }
  }

  // ----- A whole block -----

  lemma {:induction false} ProcessIndex(rules: Rules, s: State, txs: seq<Transaction>, blockHash: Hash32, height: int)
    ensures forall h :: h in Process(rules, s, txs, blockHash, height).index
                        <==> h in s.index || exists k :: 0 <= k < |txs| && rules.id(txs[k]) == h
  {
    hide Cache;
    if txs != [] {
      var k := |txs| - 1;
      ProcessIndex(rules, s, txs[..k], blockHash, height);
      assert txs[k] == txs[|txs| - 1];
      assert forall i :: 0 <= i < k ==> txs[..k][i] == txs[i];
    }
  }

  lemma ConnectedHasSpent(rules: Rules, s: State, hist: seq<Transaction>, tx: Transaction, p: OutPoint)
    requires Inv(rules, s, hist) && tx in hist && !tx.IsCoinBase() && Spends(tx.vin, p)
    ensures p in s.utxo && s.utxo[p].used
  {
    var a :| 0 <= a < |hist| && hist[a] == tx;
    assert SpentIn(hist, p);
    assert Resolves(s, p);
  }

  /** A checked non-coinbase transaction is new: had it been connected, its inputs would be spent. */
  lemma CheckedIsFresh(rules: Rules, s: State, hist: seq<Transaction>, tx: Transaction, height: int)
    requires Inv(rules, s, hist) && CollisionFree(rules, hist + [tx])
    requires TxOk(rules, s, tx, height) && !tx.IsCoinBase()
    ensures rules.id(tx) !in s.index
  {
    hide Distinct, OutputsOk, NoRepeats, NoDoubleSpend;
    if rules.id(tx) in s.index {
      var old_ := s.index[rules.id(tx)].tx;
      assert old_ in hist && old_ in hist + [tx] && tx in hist + [tx];
      assert Prevouts(old_.vin) == Prevouts(tx.vin);
      var p := tx.vin[0].prevout;
      assert InputOk(rules, s, tx, 0, height);
      assert old_.vin[0].prevout == Prevouts(old_.vin)[0] == p;
      ConnectedHasSpent(rules, s, hist, old_, p);
    }
  }

  /** The block's checks ran before any of its transactions was connected; they still hold when each
      one is. */
  lemma {:induction false} BlockPrefix(rules: Rules, s: State, hist: seq<Transaction>, block: Block, height: int,
                                       k: nat)
    requires Inv(rules, s, hist) && CollisionFree(rules, hist + block.txs)
    requires BlockOk(rules, s, block, height) && rules.id(block.txs[0]) !in s.index
    requires k <= |block.txs|
    ensures var s' := Process(rules, s, block.txs[..k], block.hash, height);
            Inv(rules, s', hist + block.txs[..k])
            && (k < |block.txs| ==> Applicable(rules, s', block.txs[k]))
            && (forall p :: p in s.utxo && !SpentIn(block.txs[..k], p) ==> p in s'.utxo && s'.utxo[p] == s.utxo[p])
  {
    hide Inv, Applicable, TxOk, Shape, SpentIn, Spends;
    var txs := block.txs;
    var s' := Process(rules, s, txs[..k], block.hash, height);
    if k == 0 {
      assert txs[..0] == [] && hist + [] == hist;
    } else {
      BlockPrefix(rules, s, hist, block, height, k - 1);
      var before := Process(rules, s, txs[..k - 1], block.hash, height);
      assert txs[..k][..k - 1] == txs[..k - 1] && txs[..k][k - 1] == txs[k - 1];
      assert s' == ConnectTx(rules, before, txs[k - 1], block.hash, height);
      ConnectKeepsInv(rules, before, hist + txs[..k - 1], txs[k - 1], block.hash, height);
      assert hist + txs[..k - 1] + [txs[k - 1]] == hist + txs[..k];
      EarlierEntriesStay(rules, s, hist, block, height, k, before);
    }
    if k < |txs| { NextIsApplicable(rules, s, hist, block, height, k); }
  }

  lemma BlockIsFresh(rules: Rules, s: State, hist: seq<Transaction>, block: Block, height: int, i: nat)
    requires Inv(rules, s, hist) && CollisionFree(rules, hist + block.txs)
    requires BlockOk(rules, s, block, height) && rules.id(block.txs[0]) !in s.index && i < |block.txs|
    ensures rules.id(block.txs[i]) !in s.index
  {
    if i > 0 {
      FewerCollisions(rules, hist + [block.txs[i]], hist + block.txs);
      CheckedIsFresh(rules, s, hist, block.txs[i], height);
    }
  }

  lemma EntryResolves(rules: Rules, s: State, hist: seq<Transaction>, p: OutPoint)
    requires Inv(rules, s, hist) && p in s.utxo
    ensures Resolves(s, p)
  {}

  lemma EarlierEntriesStay(rules: Rules, s: State, hist: seq<Transaction>, block: Block, height: int, k: nat,
                           before: State)
    requires Inv(rules, s, hist) && CollisionFree(rules, hist + block.txs)
    requires BlockOk(rules, s, block, height) && rules.id(block.txs[0]) !in s.index
    requires 0 < k <= |block.txs| && Inv(rules, before, hist + block.txs[..k - 1])
    requires forall p :: p in s.utxo && !SpentIn(block.txs[..k - 1], p) ==>
               p in before.utxo && before.utxo[p] == s.utxo[p]
    ensures var s' := ConnectTx(rules, before, block.txs[k - 1], block.hash, height);
            forall p :: p in s.utxo && !SpentIn(block.txs[..k], p) ==> p in s'.utxo && s'.utxo[p] == s.utxo[p]
  {
    hide Inv, BlockOk, Spends, SpentIn, Cache;
    var txs := block.txs;
    NoNullEntries(rules, before, hist + txs[..k - 1]);
    CacheAt(before.utxo, rules.id(txs[k - 1]), txs[k - 1], block.hash, height);
    BlockIsFresh(rules, s, hist, block, height, k - 1);
    forall p | p in s.utxo && !SpentIn(txs[..k], p)
      ensures !SpentIn(txs[..k - 1], p) && p.txid != rules.id(txs[k - 1])
      ensures (txs[k - 1].IsCoinBase() || !Spends(txs[k - 1].vin, p))
    {
      SpentInAppend(txs[..k - 1], txs[k - 1], p);
      assert txs[..k - 1] + [txs[k - 1]] == txs[..k];
      EntryResolves(rules, s, hist, p);
    }
  }

  lemma NextIsApplicable(rules: Rules, s: State, hist: seq<Transaction>, block: Block, height: int, k: nat)
    requires Inv(rules, s, hist) && CollisionFree(rules, hist + block.txs)
    requires BlockOk(rules, s, block, height) && rules.id(block.txs[0]) !in s.index
    requires k < |block.txs|
    requires var s' := Process(rules, s, block.txs[..k], block.hash, height);
             forall p :: p in s.utxo && !SpentIn(block.txs[..k], p) ==> p in s'.utxo && s'.utxo[p] == s.utxo[p]
    ensures Applicable(rules, Process(rules, s, block.txs[..k], block.hash, height), block.txs[k])
  {
    hide Process, Inv, CollisionFree, Fee;
    var txs, tx := block.txs, block.txs[k];
    var s' := Process(rules, s, txs[..k], block.hash, height);
    BlockIsFresh(rules, s, hist, block, height, k);
    ProcessIndex(rules, s, txs[..k], block.hash, height);
    assert TxOk(rules, s, tx, height);
    if !tx.IsCoinBase() {
      forall i | 0 <= i < |tx.vin| ensures CanUse(s'.utxo, tx.vin[i].prevout) {
        var p := tx.vin[i].prevout;
        assert InputOk(rules, s, tx, i, height);
        assert !SpentIn(txs[..k], p);
      }
    }
  }

  lemma RepeatStays(rules: Rules, hist: seq<Transaction>, more: seq<Transaction>)
    requires NoRepeats(rules, hist + more)
    ensures NoRepeats(rules, hist)
  {
    assert forall a :: 0 <= a < |hist| ==> (hist + more)[a] == hist[a];
  }

  lemma IndexedRepeats(rules: Rules, s: State, hist: seq<Transaction>, txs: seq<Transaction>)
    requires Inv(rules, s, hist) && txs != [] && rules.id(txs[0]) in s.index
    ensures !NoRepeats(rules, hist + txs)
  {
    var old_ := s.index[rules.id(txs[0])].tx;
    var a :| 0 <= a < |hist| && hist[a] == old_;
    assert (hist + txs)[a] == old_ && (hist + txs)[|hist|] == txs[0];
  }

  /** A block that passes its checks keeps the invariant, and repeats nothing, exactly when its coinbase is new:
      nothing in the checks says so. */
  lemma BlockKeepsInv(rules: Rules, s: State, hist: seq<Transaction>, block: Block, height: int)
    requires Inv(rules, s, hist) && CollisionFree(rules, hist + block.txs) && BlockOk(rules, s, block, height)
    ensures Inv(rules, Process(rules, s, block.txs, block.hash, height), hist + block.txs)
            <==> rules.id(block.txs[0]) !in s.index
    ensures NoRepeats(rules, hist + block.txs) <==> rules.id(block.txs[0]) !in s.index
  {
    if rules.id(block.txs[0]) in s.index {
      IndexedRepeats(rules, s, hist, block.txs);
    } else {
      BlockPrefix(rules, s, hist, block, height, |block.txs|);
      assert block.txs[..|block.txs|] == block.txs;
    }
  }

  /** Connecting a coinbase makes its outputs usable: of the outputs spent so far exactly those under its id can be
      spent again, so there are some if and only if an earlier coinbase of the same id had one spent. */
  lemma CoinbaseRevives(rules: Rules, s: State, hist: seq<Transaction>, tx: Transaction, blockHash: Hash32,
                        height: int, p: OutPoint)
    requires Inv(rules, s, hist) && tx.IsCoinBase()
    ensures var u := ConnectTx(rules, s, tx, blockHash, height).utxo;
            (p.txid == rules.id(tx) && p.index < |tx.vout| ==> CanUse(u, p))
            && (SpentIn(hist, p) ==> (CanUse(u, p) <==> p.txid == rules.id(tx) && p.index < |tx.vout|))
  {
    hide Cache;
    NoNullEntries(rules, s, hist);
    CacheAt(s.utxo, rules.id(tx), tx, blockHash, height);
    hide NoDoubleSpend, NoRepeats, InputsResolve, OutputsOk;
  }

  // ----- Whole runs -----

  /** The state after connecting blocks at heights first, first + 1, ... */
  function Chain(rules: Rules, s: State, blocks: seq<Block>, first: int): State {
    if blocks == [] then s else
      var k := |blocks| - 1;
      Process(rules, Chain(rules, s, blocks[..k], first), blocks[k].txs, blocks[k].hash, first + k)
  }

  /** Each block passed its checks in the state it found. */
  ghost predicate ChainOk(rules: Rules, s: State, blocks: seq<Block>, first: int) {
    blocks == [] ||
    (var k := |blocks| - 1;
     ChainOk(rules, s, blocks[..k], first) && BlockOk(rules, Chain(rules, s, blocks[..k], first), blocks[k], first + k))
  }

  /** Each block's first transaction has an id the index did not hold. */
  ghost predicate NewCoinbases(rules: Rules, s: State, blocks: seq<Block>, first: int) {
    blocks == [] ||
    (var k := |blocks| - 1;
     NewCoinbases(rules, s, blocks[..k], first)
     && (blocks[k].txs != [] ==> rules.id(blocks[k].txs[0]) !in Chain(rules, s, blocks[..k], first).index))
  }

  function History(hist: seq<Transaction>, blocks: seq<Block>): seq<Transaction> {
    if blocks == [] then hist else History(hist, blocks[..|blocks| - 1]) + blocks[|blocks| - 1].txs
  }

  /** Over every run of checked blocks: no output is spent twice, no transaction is connected twice, every UTXO key
      resolves to an output in range and is marked used exactly if some connected transaction spends it, if and only
      if every coinbase was new. */
  lemma {:induction false} LedgerIsSafe(rules: Rules, s: State, hist: seq<Transaction>, blocks: seq<Block>, first: int)
    requires Inv(rules, s, hist) && CollisionFree(rules, History(hist, blocks)) && ChainOk(rules, s, blocks, first)
    ensures Inv(rules, Chain(rules, s, blocks, first), History(hist, blocks)) <==> NewCoinbases(rules, s, blocks, first)
    ensures NoRepeats(rules, History(hist, blocks)) <==> NewCoinbases(rules, s, blocks, first)
    ensures NewCoinbases(rules, s, blocks, first) ==> NoDoubleSpend(History(hist, blocks))
  {
    hide BlockOk, Process, NoDoubleSpend;
    if blocks != [] {
      var k := |blocks| - 1;
      var before, soFar := Chain(rules, s, blocks[..k], first), History(hist, blocks[..k]);
      FewerCollisions(rules, soFar, History(hist, blocks));
      LedgerIsSafe(rules, s, hist, blocks[..k], first);
      if NewCoinbases(rules, s, blocks[..k], first) {
        HasCoinbase(rules, before, blocks[k], first + k);
        BlockKeepsInv(rules, before, soFar, blocks[k], first + k);
      } else if NoRepeats(rules, soFar + blocks[k].txs) {
        RepeatStays(rules, soFar, blocks[k].txs);
      }
    }
  }

  lemma HasCoinbase(rules: Rules, s: State, block: Block, height: int)
    requires BlockOk(rules, s, block, height)
    ensures block.txs != []
  {}

  /** The genesis block is connected unchecked into empty databases. */
  lemma GenesisIsSafe(rules: Rules, coinbase: Transaction, blockHash: Hash32)
    requires coinbase.IsCoinBase() && OutputsOk(coinbase.vout)
    ensures Inv(rules, Process(rules, State(map[], map[]), [coinbase], blockHash, 0), [coinbase])
  {
    var empty := State(map[], map[]);
    EmptyIsSafe(rules, coinbase);
    hide Inv, ConnectTx, Applicable;
    ConnectKeepsInv(rules, empty, [], coinbase, blockHash, 0);
    assert [coinbase][..0] == [] && [] + [coinbase] == [coinbase];
  }

  lemma EmptyIsSafe(rules: Rules, coinbase: Transaction)
    requires coinbase.IsCoinBase() && OutputsOk(coinbase.vout)
    ensures Inv(rules, State(map[], map[]), [])
  {}
}
