/** Every spend on the chain was authorised by the output it spends. */
module LedgerSpends {
  import opened Bytes
  import opened Tx
  import opened Ledger
  import opened LedgerSafety

  /** Input i of a transaction connected at a height: the output it spends exists, its script agreed, and a
      coinbase output was mature. */
  predicate InputAuthorised(rules: Rules, s: State, tx: Transaction, i: nat, height: int)
    requires i < |tx.vin|
  {
    var p := tx.vin[i].prevout;
    Resolves(s, p) && rules.scriptOk(tx, i, OutputAt(s, p)) &&
    (s.index[p.txid].tx.IsCoinBase() ==> height >= s.index[p.txid].height + 100)
  }

  predicate Authorised(rules: Rules, s: State, tx: Transaction, height: int) {
    tx.IsCoinBase() || forall i :: 0 <= i < |tx.vin| ==> InputAuthorised(rules, s, tx, i, height)
  }

  /** Index entries are never overwritten. */
  ghost predicate Extends(s: State, t: State) {
    forall h :: h in s.index ==> h in t.index && t.index[h] == s.index[h]
  }

  lemma {:induction false} ProcessExtends(rules: Rules, s: State, txs: seq<Transaction>, blockHash: Hash32, height: int)
    requires forall i :: 0 <= i < |txs| ==> rules.id(txs[i]) !in s.index
    ensures Extends(s, Process(rules, s, txs, blockHash, height))
    decreases |txs|
  {
    if txs != [] {
      var k := |txs| - 1;
      ProcessExtends(rules, s, txs[..k], blockHash, height);
    }
  }

  lemma BlockExtends(rules: Rules, s: State, hist: seq<Transaction>, block: Block, height: int)
    requires Inv(rules, s, hist) && CollisionFree(rules, hist + block.txs)
    requires BlockOk(rules, s, block, height) && rules.id(block.txs[0]) !in s.index
    ensures Extends(s, Process(rules, s, block.txs, block.hash, height))
  {
    hide Inv, CollisionFree, BlockOk, Extends, Process;
    forall i | 0 <= i < |block.txs| ensures rules.id(block.txs[i]) !in s.index {
      BlockIsFresh(rules, s, hist, block, height, i);
    }
    ProcessExtends(rules, s, block.txs, block.hash, height);
  }

  lemma StaysAuthorised(rules: Rules, s: State, t: State, tx: Transaction, height: int)
    requires Extends(s, t) && Authorised(rules, s, tx, height)
    ensures Authorised(rules, t, tx, height)
  {
    if !tx.IsCoinBase() {
      forall i | 0 <= i < |tx.vin| ensures InputAuthorised(rules, t, tx, i, height) {
        assert InputAuthorised(rules, s, tx, i, height);
      }
    }
  }

  lemma CheckedIsAuthorised(rules: Rules, s: State, tx: Transaction, height: int)
    requires TxOk(rules, s, tx, height)
    ensures Authorised(rules, s, tx, height)
  {
    if !tx.IsCoinBase() {
      forall i | 0 <= i < |tx.vin| ensures InputAuthorised(rules, s, tx, i, height) {
        assert InputOk(rules, s, tx, i, height);
      }
    }
  }

  lemma BeforeLast(blocks: seq<Block>, k: nat)
    requires k < |blocks| - 1
    ensures blocks[..|blocks| - 1][..k] == blocks[..k] && blocks[..|blocks| - 1][k] == blocks[k]
  {}

  /** In any run of checked blocks, every input of every connected transaction was authorised by an output from
      before its block. */
  lemma {:induction false} SpendsWereAuthorised(rules: Rules, s: State, blocks: seq<Block>, first: int, k: nat, j: nat)
    requires ChainOk(rules, s, blocks, first) && k < |blocks| && j < |blocks[k].txs|
    ensures Authorised(rules, Chain(rules, s, blocks[..k], first), blocks[k].txs[j], first + k)
    decreases |blocks|
  {
    hide BlockOk, Process, Authorised;
    var n := |blocks| - 1;
    if k == n {
      CheckedInBlock(rules, Chain(rules, s, blocks[..n], first), blocks[n], first + n, j);
    } else {
      BeforeLast(blocks, k);
      SpendsWereAuthorised(rules, s, blocks[..n], first, k, j);
    }
  }

  /** If every coinbase was new and ids did not collide, the final index still holds that output. */
  lemma {:induction false} SpendsAreAuthorised(rules: Rules, s: State, hist: seq<Transaction>, blocks: seq<Block>,
                                               first: int, k: nat, j: nat)
    requires Inv(rules, s, hist) && CollisionFree(rules, History(hist, blocks)) && ChainOk(rules, s, blocks, first)
    requires NewCoinbases(rules, s, blocks, first) && k < |blocks| && j < |blocks[k].txs|
    ensures Authorised(rules, Chain(rules, s, blocks, first), blocks[k].txs[j], first + k)
    decreases |blocks|
  {
    hide Inv, CollisionFree, BlockOk, Process, Authorised, Extends, NoRepeats, NoDoubleSpend;
    var n := |blocks| - 1;
    var before, soFar := Chain(rules, s, blocks[..n], first), History(hist, blocks[..n]);
    FewerCollisions(rules, soFar, History(hist, blocks));
    if k == n {
      CheckedInBlock(rules, before, blocks[n], first + n, j);
    } else {
      BeforeLast(blocks, k);
      SpendsAreAuthorised(rules, s, hist, blocks[..n], first, k, j);
    }
    LedgerIsSafe(rules, s, hist, blocks[..n], first);
    HasCoinbase(rules, before, blocks[n], first + n);
    BlockExtends(rules, before, soFar, blocks[n], first + n);
    StaysAuthorised(rules, before, Chain(rules, s, blocks, first), blocks[k].txs[j], first + k);
  }

  lemma CheckedInBlock(rules: Rules, s: State, block: Block, height: int, j: nat)
    requires BlockOk(rules, s, block, height) && j < |block.txs|
    ensures Authorised(rules, s, block.txs[j], height)
  {
    CheckedIsAuthorised(rules, s, block.txs[j], height);
  }
}
