/** Two runs of checked blocks: one that is safe, and one in which a repeated coinbase leads to a double spend. */
module LedgerExamples {
  import opened Bytes
  import opened Script
  import opened Tx
  import opened Ledger
  import opened LedgerSafety

  function Id(n: byte): Hash32 { NULL_HASH[0 := 1][1 := n] }

  /** The lock time tells transactions apart. */
  const RULES := Rules((tx: Transaction) => Id(tx.lockTime % 256), _ => true, (_, _, _) => true, _ => true)

  function Coin(n: nat): Transaction {
    Transaction(1, [TxIn(OutPoint(NULL_HASH, NULL_INDEX), [OP_NOP, OP_NOP], 0, [])], [TxOut(50, [])], n)
  }

  const PRIZE := OutPoint(Id(0), 0)

  /** Spends the output of the genesis coinbase. */
  function Spend(n: nat): Transaction { Transaction(1, [TxIn(PRIZE, [], 0, [])], [TxOut(50, [])], n) }

  function CoinBlock(n: byte): Block { Block(Id(n), [Coin(n)]) }

  function SpendBlock(n: byte, m: byte): Block { Block(Id(n), [Coin(n), Spend(m)]) }

  // ----- Blocks that pass -----

  lemma QuietScript(z: Bytes)
    requires z == [] || z == [OP_NOP, OP_NOP]
    ensures SigOpCount(z, false) == 0
  {
    if z == [] {
      assert GetOp(z, 0) == NoOp;
    } else {
      assert GetOp(z, 0) == Op(OP_NOP, [], 1) && GetOp(z, 1) == Op(OP_NOP, [], 2) && GetOp(z, 2) == NoOp;
      hide GetOp;
      assert SigOpsFrom(z, 2, OP_NOP, false) == 0;
      assert SigOpsFrom(z, 1, OP_NOP, false) == 0;
    }
  }

  lemma QuietTx(tx: Transaction)
    requires |tx.vin| == |tx.vout| == 1 && SigOpCount(tx.vin[0].scriptSig, false) == 0
    requires SigOpCount(tx.vout[0].scriptPubKey, false) == 0
    ensures TxSigOps(tx) == 0
  {
    hide SigOpCount;
    assert tx.vin[..0] == [] && tx.vout[..0] == [];
    assert InputSigOps(tx.vin[..0]) == 0 && OutputSigOps(tx.vout[..0]) == 0;
  }

  lemma NoSigOps(n: nat)
    ensures TxSigOps(Coin(n)) == 0 && TxSigOps(Spend(n)) == 0
  {
    hide SigOpCount, TxSigOps;
    QuietScript([]);
    QuietScript([OP_NOP, OP_NOP]);
    QuietTx(Coin(n));
    QuietTx(Spend(n));
  }

  lemma {:induction false} QuietBlock(txs: seq<Transaction>)
    requires forall i :: 0 <= i < |txs| ==> TxSigOps(txs[i]) == 0
    ensures BlockSigOps(txs) == 0 && SigOpsOk(txs)
    decreases |txs|
  {
    hide TxSigOps;
    if txs != [] { QuietBlock(txs[..|txs| - 1]); }
    forall n | 1 <= n <= |txs| ensures FewSigOps(txs[..n]) {
      if n < |txs| { QuietBlock(txs[..n]); } else { assert txs[..n] == txs; }
    }
  }

  lemma OneOutput(vout: Outputs)
    requires vout == [TxOut(50, [])]
    ensures OutputsOk(vout) && TotalOut(vout) == 50
  {
    assert vout[..0] == [];
  }

  lemma CoinIsOk(s: State, n: nat, height: int)
    ensures Coin(n).IsCoinBase() && TxOk(RULES, s, Coin(n), height)
  {
    OneOutput(Coin(n).vout);
  }

  lemma CoinBlockIsOk(s: State, n: byte, height: int)
    ensures BlockOk(RULES, s, CoinBlock(n), height)
  {
    CoinIsOk(s, n, height);
    NoSigOps(n);
    hide TxOk, TxSigOps, SigOpsOk;
    QuietBlock(CoinBlock(n).txs);
  }

  /** The prize is there, created at this height, and used or not. */
  ghost predicate Holds(s: State, height: int, used: bool) {
    PRIZE in s.utxo && s.utxo[PRIZE].used == used
    && Id(0) in s.index && s.index[Id(0)].tx == Coin(0) && s.index[Id(0)].height == height
  }

  lemma SpendIsOk(s: State, m: nat, height: int, h: int)
    requires Holds(s, h, false) && height - h >= 100
    ensures !Spend(m).IsCoinBase() && TxOk(RULES, s, Spend(m), height)
  {
    var tx := Spend(m);
    OneOutput(tx.vout);
    assert tx.vin[..0] == [] && tx.vin[..1] == tx.vin;
    assert TotalIn(s, tx.vin) == 50;
    assert InputOk(RULES, s, tx, 0, height);
  }

  lemma SpendBlockIsOk(s: State, n: byte, m: byte, height: int, h: int)
    requires Holds(s, h, false) && height - h >= 100 && n != m
    ensures BlockOk(RULES, s, SpendBlock(n, m), height)
  {
    CoinIsOk(s, n, height);
    SpendIsOk(s, m, height, h);
    hide TxOk, TxSigOps, Holds, Shape;
    SpendBlockShape(n, m);
  }

  lemma SpendBlockShape(n: byte, m: byte)
    requires n != m
    ensures Shape(RULES, SpendBlock(n, m).txs)
  {
    hide Shape, TxSigOps, SigOpsOk, DistinctInputs;
    NoSigOps(n);
    NoSigOps(m);
    QuietBlock([Coin(n), Spend(m)]);
    Apart(n, m);
    OneInputEach(Coin(n), Spend(m));
    ShapeOfTwo(Coin(n), Spend(m));
  }

  lemma Apart(n: byte, m: byte)
    requires n != m
    ensures RULES.id(Coin(n)) != RULES.id(Spend(m)) && Coin(n).IsCoinBase() && !Spend(m).IsCoinBase()
  {
    assert Id(n)[1] == n && Id(m)[1] == m;
  }

  lemma ShapeOfTwo(a: Transaction, b: Transaction)
    requires RULES.id(a) != RULES.id(b) && a.IsCoinBase() && !b.IsCoinBase() && DistinctInputs([a, b])
    requires SigOpsOk([a, b])
    ensures Shape(RULES, [a, b])
  {
    hide DistinctInputs, SigOpsOk;
  }

  lemma OneInputEach(a: Transaction, b: Transaction)
    requires |a.vin| == |b.vin| == 1 && a.vin[0].prevout != b.vin[0].prevout
    ensures DistinctInputs([a, b])
  {}

  // ----- What they do -----

  lemma OneTx(s: State, tx: Transaction, hash: Hash32, height: int)
    ensures Process(RULES, s, [tx], hash, height) == ConnectTx(RULES, s, tx, hash, height)
  {
    hide ConnectTx;
    assert [tx][..0] == [] && Process(RULES, s, [tx][..0], hash, height) == s;
  }

  lemma TwoTxs(s: State, tx: Transaction, tx': Transaction, hash: Hash32, height: int)
    ensures Process(RULES, s, [tx, tx'], hash, height)
            == ConnectTx(RULES, ConnectTx(RULES, s, tx, hash, height), tx', hash, height)
  {
    hide ConnectTx;
    OneTx(s, tx, hash, height);
    assert [tx, tx'][..1] == [tx];
  }

  lemma CoinConnected(s: State, n: byte, hash: Hash32, height: int, h: int, used: bool)
    ensures var s' := ConnectTx(RULES, s, Coin(n), hash, height);
            (n != 0 && Holds(s, h, used) ==> Holds(s', h, used)) && (n == 0 ==> Holds(s', height, false))
  {
    assert Id(n)[1] == n && Id(0)[1] == 0;
    assert PutOutputs(s.utxo, Id(n), 1, hash, height)
        == Put(PutOutputs(s.utxo, Id(n), 0, hash, height), OutPoint(Id(n), 0), Entry(hash, height, false));
  }

  lemma SpendConnected(s: State, m: byte, hash: Hash32, height: int, h: int, used: bool)
    requires Holds(s, h, used) && m != 0
    ensures Holds(ConnectTx(RULES, s, Spend(m), hash, height), h, true)
  {
    var tx := Spend(m);
    assert Id(m)[1] == m && Id(0)[1] == 0 && tx.vin[..0] == [];
    var u := SetInputs(s.utxo, tx.vin, true);
    assert u == SetUsed(SetInputs(s.utxo, tx.vin[..0], true), PRIZE, true) == SetUsed(s.utxo, PRIZE, true);
    assert PutOutputs(u, Id(m), 1, hash, height)
        == Put(PutOutputs(u, Id(m), 0, hash, height), OutPoint(Id(m), 0), Entry(hash, height, false));
  }

  // ----- Runs -----

  const GENESIS := Process(RULES, State(map[], map[]), [Coin(0)], Id(0), 0)

  lemma GenesisHolds()
    ensures Inv(RULES, GENESIS, [Coin(0)]) && Holds(GENESIS, 0, false)
  {
    hide Inv, Holds, Process;
    OneOutput(Coin(0).vout);
    GenesisIsSafe(RULES, Coin(0), Id(0));
    OneTx(State(map[], map[]), Coin(0), Id(0), 0);
    CoinConnected(State(map[], map[]), 0, Id(0), 0, 0, false);
  }

  /** Transactions of the two runs; the lock time says which. */
  predicate Ours(tx: Transaction) {
    (tx.lockTime < 250 && tx == Coin(tx.lockTime)) || (250 <= tx.lockTime < 256 && tx == Spend(tx.lockTime))
  }

  predicate AllOurs(hist: seq<Transaction>) { forall a :: 0 <= a < |hist| ==> Ours(hist[a]) }

  lemma OursDoNotCollide(hist: seq<Transaction>)
    requires AllOurs(hist)
    ensures CollisionFree(RULES, hist)
  {
    forall a, b | a in hist && b in hist && RULES.id(a) == RULES.id(b) ensures a == b {
      assert Ours(a) && Ours(b);
      assert Id(a.lockTime)[1] == a.lockTime && Id(b.lockTime)[1] == b.lockTime;
    }
  }

  /** A run from the genesis block on that passes its checks, and the prize after it. */
  ghost predicate Passes(blocks: seq<Block>, h: int, used: bool) {
    ChainOk(RULES, GENESIS, blocks, 1) && Holds(Chain(RULES, GENESIS, blocks, 1), h, used)
    && AllOurs(History([Coin(0)], blocks))
  }

  lemma OneMore(blocks: seq<Block>, b: Block)
    ensures var s := Chain(RULES, GENESIS, blocks, 1);
            Chain(RULES, GENESIS, blocks + [b], 1) == Process(RULES, s, b.txs, b.hash, 1 + |blocks|)
            && History([Coin(0)], blocks + [b]) == History([Coin(0)], blocks) + b.txs
            && (ChainOk(RULES, GENESIS, blocks + [b], 1)
                <==> ChainOk(RULES, GENESIS, blocks, 1) && BlockOk(RULES, s, b, 1 + |blocks|))
            && (b.txs != [] ==>
                (NewCoinbases(RULES, GENESIS, blocks + [b], 1)
                 <==> NewCoinbases(RULES, GENESIS, blocks, 1) && RULES.id(b.txs[0]) !in s.index))
  {
    hide Process, BlockOk;
    assert (blocks + [b])[..|blocks|] == blocks;
  }

  lemma CoinPasses(blocks: seq<Block>, n: byte, h: int, used: bool)
    requires Passes(blocks, h, used) && n < 250
    ensures n != 0 ==> Passes(blocks + [CoinBlock(n)], h, used)
    ensures n == 0 ==> Passes(blocks + [CoinBlock(n)], 1 + |blocks|, false)
  {
    hide ChainOk, History, Chain, Holds, BlockOk, Process, ConnectTx;
    var b, s, height := CoinBlock(n), Chain(RULES, GENESIS, blocks, 1), 1 + |blocks|;
    OneMore(blocks, b);
    CoinBlockIsOk(s, n, height);
    OneTx(s, Coin(n), b.hash, height);
    CoinConnected(s, n, b.hash, height, h, used);
  }

  lemma SpendPasses(blocks: seq<Block>, n: byte, m: byte, h: int)
    requires Passes(blocks, h, false) && 0 < n < 250 <= m && 1 + |blocks| - h >= 100
    ensures Passes(blocks + [SpendBlock(n, m)], h, true)
  {
    hide ChainOk, History, Chain, Holds, BlockOk, Process, ConnectTx;
    var b, s, height := SpendBlock(n, m), Chain(RULES, GENESIS, blocks, 1), 1 + |blocks|;
    OneMore(blocks, b);
    SpendBlockIsOk(s, n, m, height, h);
    TwoTxs(s, Coin(n), Spend(m), b.hash, height);
    CoinConnected(s, n, b.hash, height, h, false);
    SpendConnected(ConnectTx(RULES, s, Coin(n), b.hash, height), m, b.hash, height, h, false);
  }

  /** More blocks with nothing but a new coinbase. */
  function Padded(blocks: seq<Block>, count: nat): (r: seq<Block>)
    requires |blocks| + count < 250
    ensures |r| == |blocks| + count
  {
    if count == 0 then blocks else Padded(blocks, count - 1) + [CoinBlock(|blocks| + count)]
  }

  lemma {:induction false} PaddingPasses(blocks: seq<Block>, count: nat, h: int, used: bool)
    requires Passes(blocks, h, used) && |blocks| + count < 250
    ensures Passes(Padded(blocks, count), h, used)
  {
    hide Passes, CoinBlock;
    if count > 0 {
      PaddingPasses(blocks, count - 1, h, used);
      CoinPasses(Padded(blocks, count - 1), |blocks| + count, h, used);
    }
  }

  /** The prize is spent once it is mature. */
  function SafeRun(wait: nat): (r: seq<Block>)
    requires 100 <= wait <= 110
    ensures |r| == wait + 1
  {
    Padded([], wait) + [SpendBlock(wait + 1, 250)]
  }

  /** Then the genesis coinbase is connected again, and the prize spent again once it is mature again. */
  function BadRun(wait: nat): (r: seq<Block>)
    requires 100 <= wait <= 110
  {
    Padded(SafeRun(wait) + [CoinBlock(0)], wait) + [SpendBlock(2 * wait + 3, 251)]
  }

  lemma SafeRunPasses(wait: nat)
    requires 100 <= wait <= 110
    ensures Passes(SafeRun(wait), 0, true)
  {
    GenesisHolds();
    hide Padded, Holds;
    assert Passes([], 0, false);
    hide Passes;
    PaddingPasses([], wait, 0, false);
    SpendPasses(Padded([], wait), wait + 1, 250, 0);
  }

  lemma BadRunPasses(wait: nat)
    requires 100 <= wait <= 110
    ensures Passes(BadRun(wait), wait + 2, true)
  {
    hide Padded, Passes, CoinBlock;
    var safe := SafeRun(wait);
    SafeRunPasses(wait);
    CoinPasses(safe, 0, 0, true);
    PaddingPasses(safe + [CoinBlock(0)], wait, wait + 2, false);
    SpendPasses(Padded(safe + [CoinBlock(0)], wait), 2 * wait + 3, 251, wait + 2);
  }

  // ----- The safe run -----

  /** The index holds ids below n only. */
  ghost predicate IdsBelow(s: State, n: nat) { forall h :: h in s.index ==> h[1] < n }

  lemma NextIdIsNew(s: State, n: byte, hash: Hash32, height: int)
    requires IdsBelow(s, n)
    ensures RULES.id(Coin(n)) !in s.index && IdsBelow(ConnectTx(RULES, s, Coin(n), hash, height), n + 1)
  {
    hide Cache;
    assert Id(n)[1] == n;
  }

  lemma NoIdsYet()
    ensures IdsBelow(GENESIS, 1)
  {
    hide Process, ConnectTx;
    OneTx(State(map[], map[]), Coin(0), Id(0), 0);
    NextIdIsNew(State(map[], map[]), 0, Id(0), 0);
  }

  lemma Before()
    ensures NewCoinbases(RULES, GENESIS, [], 1) && Chain(RULES, GENESIS, [], 1) == GENESIS
  {}

  lemma {:induction false} PaddingIsNew(count: nat)
    requires count < 250
    ensures NewCoinbases(RULES, GENESIS, Padded([], count), 1)
    ensures IdsBelow(Chain(RULES, GENESIS, Padded([], count), 1), count + 1)
  {
    hide Chain, NewCoinbases, Process, IdsBelow, ConnectTx;
    if count == 0 {
      Before();
      NoIdsYet();
    } else {
      PaddingIsNew(count - 1);
      var blocks, b := Padded([], count - 1), CoinBlock(count);
      var s := Chain(RULES, GENESIS, blocks, 1);
      OneMore(blocks, b);
      OneTx(s, Coin(count), b.hash, 1 + |blocks|);
      NextIdIsNew(s, count, b.hash, 1 + |blocks|);
    }
  }

  lemma PassedRun(blocks: seq<Block>, h: int, used: bool)
    requires Passes(blocks, h, used)
    ensures ChainOk(RULES, GENESIS, blocks, 1) && CollisionFree(RULES, History([Coin(0)], blocks))
  {
    hide ChainOk, History, Chain, Holds, CollisionFree;
    OursDoNotCollide(History([Coin(0)], blocks));
  }

  /** A run with a spend that meets everything LedgerIsSafe asks for, with new coinbases only. */
  lemma SafeRunExample(wait: nat)
    requires 100 <= wait <= 110
    ensures Inv(RULES, GENESIS, [Coin(0)]) && CollisionFree(RULES, History([Coin(0)], SafeRun(wait)))
    ensures ChainOk(RULES, GENESIS, SafeRun(wait), 1) && NewCoinbases(RULES, GENESIS, SafeRun(wait), 1)
    ensures Spend(250) in History([Coin(0)], SafeRun(wait))
  {
    hide Inv, CollisionFree, ChainOk, NewCoinbases, History, Chain, Holds, Padded, Passes, Process, ConnectTx, IdsBelow;
    GenesisHolds();
    SafeRunPasses(wait);
    PassedRun(SafeRun(wait), 0, true);
    PaddingIsNew(wait);
    var blocks, b := Padded([], wait), SpendBlock(wait + 1, 250);
    OneMore(blocks, b);
    NextIdIsNew(Chain(RULES, GENESIS, blocks, 1), wait + 1, b.hash, 1 + wait);
    assert History([Coin(0)], SafeRun(wait)) == History([Coin(0)], blocks) + [Coin(wait + 1), Spend(250)];
  }

  // ----- The double spend -----

  lemma SpentStays(hist: seq<Transaction>, more: seq<Transaction>, p: OutPoint)
    requires SpentIn(hist, p)
    ensures SpentIn(hist + more, p)
  {
    var a :| 0 <= a < |hist| && !hist[a].IsCoinBase() && Spends(hist[a].vin, p);
    assert (hist + more)[a] == hist[a];
  }

  lemma {:induction false} SpentAfterPadding(blocks: seq<Block>, count: nat)
    requires |blocks| + count < 250 && SpentIn(History([Coin(0)], blocks), PRIZE)
    ensures SpentIn(History([Coin(0)], Padded(blocks, count)), PRIZE)
  {
    hide SpentIn, History;
    if count > 0 {
      SpentAfterPadding(blocks, count - 1);
      var b := CoinBlock(|blocks| + count);
      OneMore(Padded(blocks, count - 1), b);
      SpentStays(History([Coin(0)], Padded(blocks, count - 1)), b.txs, PRIZE);
    }
  }

  lemma SpendSpends(hist: seq<Transaction>, n: byte, m: byte)
    ensures SpentIn(hist + [Coin(n), Spend(m)], PRIZE)
    ensures SpentIn(hist, PRIZE) ==> !NoDoubleSpend(hist + [Coin(n), Spend(m)])
  {
    var all, b := hist + [Coin(n), Spend(m)], |hist| + 1;
    assert all[b] == Spend(m) && Spend(m).vin[0].prevout == PRIZE && Spends(all[b].vin, PRIZE) && !all[b].IsCoinBase();
    if SpentIn(hist, PRIZE) {
      var a :| 0 <= a < |hist| && !hist[a].IsCoinBase() && Spends(hist[a].vin, PRIZE);
      assert all[a] == hist[a];
    }
  }

  lemma SafeRunSpends(wait: nat)
    requires 100 <= wait <= 110
    ensures SpentIn(History([Coin(0)], SafeRun(wait)), PRIZE)
  {
    hide SpentIn, History, Padded;
    OneMore(Padded([], wait), SpendBlock(wait + 1, 250));
    SpendSpends(History([Coin(0)], Padded([], wait)), wait + 1, 250);
  }

  /** A run that passes every check, without a collision of ids, in which the prize is spent twice. */
  lemma DoubleSpendExample(wait: nat)
    requires 100 <= wait <= 110
    ensures Inv(RULES, GENESIS, [Coin(0)]) && CollisionFree(RULES, History([Coin(0)], BadRun(wait)))
    ensures ChainOk(RULES, GENESIS, BadRun(wait), 1) && !NoDoubleSpend(History([Coin(0)], BadRun(wait)))
  {
    hide Inv, CollisionFree, ChainOk, History, Chain, Holds, Padded, Passes, SpentIn, NoDoubleSpend;
    GenesisHolds();
    BadRunPasses(wait);
    PassedRun(BadRun(wait), wait + 2, true);
    var again := SafeRun(wait) + [CoinBlock(0)];
    SafeRunSpends(wait);
    OneMore(SafeRun(wait), CoinBlock(0));
    SpentStays(History([Coin(0)], SafeRun(wait)), CoinBlock(0).txs, PRIZE);
    SpentAfterPadding(again, wait);
    OneMore(Padded(again, wait), SpendBlock(2 * wait + 3, 251));
    SpendSpends(History([Coin(0)], Padded(again, wait)), 2 * wait + 3, 251);
  }
}
