/** The unspent-output database, the transaction index and the checks on blocks that extend the
    active chain. Databases are finite maps; the transaction hash, the size limits, the script check
    and the header checks are oracles. */
module Ledger {
  import opened Bytes
  import opened Tx
  import Script

  const MAX_MONEY := 2_100_000_000_000_000
  const COINBASE_MATURITY := 100
  const INT64_LIMIT := 0x8000_0000_0000_0000

  predicate MoneyRange(v: int) { 0 <= v <= MAX_MONEY }

  /** What the UTXO database stores under an outpoint. */
  datatype Entry = Entry(blockHash: Hash32, height: int, used: bool)

  type Utxo = map<OutPoint, Entry>

  datatype Indexed = Indexed(tx: Transaction, blockHash: Hash32, height: int)

  datatype State = State(utxo: Utxo, index: map<Hash32, Indexed>)

  datatype Rules = Rules(
    id: Transaction -> Hash32,
    sizeOk: Transaction -> bool,
    scriptOk: (Transaction, nat, TxOut) -> bool,
    headerOk: Block -> bool)

  datatype Block = Block(hash: Hash32, txs: seq<Transaction>)

  // ----- UTXOManager, as functions of the database -----

  function Put(u: Utxo, pt: OutPoint, e: Entry): Utxo {
    if pt.IsNull() then u else u[pt := e]
  }

  /** Use and UnUsed: rewrite the flag of a stored entry. */
  function SetUsed(u: Utxo, pt: OutPoint, used: bool): Utxo {
    if pt in u then Put(u, pt, u[pt].(used := used)) else u
  }

  predicate CanUse(u: Utxo, pt: OutPoint) { pt in u && !u[pt].used }

  function SetInputs(u: Utxo, vin: seq<TxIn>, used: bool): Utxo {
    if vin == [] then u else
      var k := |vin| - 1;
      SetUsed(SetInputs(u, vin[..k], used), vin[k].prevout, used)
  }

  function PutOutputs(u: Utxo, id: Hash32, n: nat, blockHash: Hash32, height: int): Utxo {
    if n == 0 then u else Put(PutOutputs(u, id, n - 1, blockHash, height), OutPoint(id, n - 1),
        Entry(blockHash, height, false))
  }

  function RemoveOutputs(u: Utxo, id: Hash32, n: nat): Utxo {
    if n == 0 then u else RemoveOutputs(u, id, n - 1) - {OutPoint(id, n - 1)}
  }

  /** CacheUTXO: spend the inputs, then add the outputs. */
  function Cache(u: Utxo, id: Hash32, tx: Transaction, blockHash: Hash32, height: int): Utxo {
    PutOutputs(if tx.IsCoinBase() then u else SetInputs(u, tx.vin, true), id, |tx.vout|, blockHash, height)
  }

  /** UnCacheUTXO: give the inputs back, then delete the outputs. */
  function Uncache(u: Utxo, id: Hash32, tx: Transaction): Utxo {
    RemoveOutputs(if tx.IsCoinBase() then u else SetInputs(u, tx.vin, false), id, |tx.vout|)
  }

  // ----- Connecting transactions -----

  function ConnectTx(rules: Rules, s: State, tx: Transaction, blockHash: Hash32, height: int): State {
    var id := rules.id(tx);
    State(Cache(s.utxo, id, tx, blockHash, height), s.index[id := Indexed(tx, blockHash, height)])
  }

  /** ProcessTransactions: index and cache every transaction in turn. */
  function Process(rules: Rules, s: State, txs: seq<Transaction>, blockHash: Hash32, height: int): State {
    if txs == [] then s else
      var k := |txs| - 1;
      ConnectTx(rules, Process(rules, s, txs[..k], blockHash, height), txs[k], blockHash, height)
  }

  // ----- CheckTransaction -----

  function TotalOut(vout: seq<TxOut>): int {
    if vout == [] then 0 else TotalOut(vout[..|vout| - 1]) + vout[|vout| - 1].value
  }

  predicate OutputsOk(vout: seq<TxOut>) {
    (forall i :: 0 <= i < |vout| ==> MoneyRange(vout[i].value)) && TotalOut(vout) <= MAX_MONEY
  }

  predicate Resolves(s: State, p: OutPoint) {
    p.txid in s.index && p.index < |s.index[p.txid].tx.vout|
  }

  function OutputAt(s: State, p: OutPoint): TxOut
    requires Resolves(s, p)
  { s.index[p.txid].tx.vout[p.index] }

  /** The value an outpoint refers to; zero if it refers to nothing. */
  function ValueAt(s: State, p: OutPoint): int {
    if Resolves(s, p) then OutputAt(s, p).value else 0
  }

  function TotalIn(s: State, vin: seq<TxIn>): int {
    if vin == [] then 0 else TotalIn(s, vin[..|vin| - 1]) + ValueAt(s, vin[|vin| - 1].prevout)
  }

  predicate Spends(vin: seq<TxIn>, p: OutPoint) {
    exists i :: 0 <= i < |vin| && vin[i].prevout == p
  }

  predicate InputOk(rules: Rules, s: State, tx: Transaction, i: nat, height: int)
    requires i < |tx.vin|
  {
    var p := tx.vin[i].prevout;
    !p.IsNull() && !Spends(tx.vin[..i], p) && CanUse(s.utxo, p) && Resolves(s, p) &&
    !(s.index[p.txid].tx.IsCoinBase() && height - s.index[p.txid].height < COINBASE_MATURITY) &&
    MoneyRange(OutputAt(s, p).value) && MoneyRange(TotalIn(s, tx.vin[..i + 1])) &&
    rules.scriptOk(tx, i, OutputAt(s, p))
  }

  function Fee(s: State, tx: Transaction): int { TotalIn(s, tx.vin) - TotalOut(tx.vout) }

  predicate TxOk(rules: Rules, s: State, tx: Transaction, height: int) {
    tx.vin != [] && tx.vout != [] && rules.sizeOk(tx) && OutputsOk(tx.vout) &&
    if tx.IsCoinBase() then 2 <= |tx.vin[0].scriptSig| <= 100
    else (forall i :: 0 <= i < |tx.vin| ==> InputOk(rules, s, tx, i, height)) && MoneyRange(Fee(s, tx))
  }

  // ----- CheckBlock's transaction loop -----

  const U32 := 0x1_0000_0000
  const WITNESS_SCALE_FACTOR := 4
  const MAX_BLOCK_SIGOPS_COST := 80000

  function InputSigOps(vin: seq<TxIn>): nat {
    if vin == [] then 0 else InputSigOps(vin[..|vin| - 1]) + Script.SigOpCount(vin[|vin| - 1].scriptSig, false)
  }

  function OutputSigOps(vout: seq<TxOut>): nat {
    if vout == [] then 0 else OutputSigOps(vout[..|vout| - 1]) + Script.SigOpCount(vout[|vout| - 1].scriptPubKey, false)
  }

  /** GetLegacySigOpCount. */
  function TxSigOps(tx: Transaction): nat { InputSigOps(tx.vin) + OutputSigOps(tx.vout) }

  function BlockSigOps(txs: seq<Transaction>): nat {
    if txs == [] then 0 else BlockSigOps(txs[..|txs| - 1]) + TxSigOps(txs[|txs| - 1])
  }

  /** The test made after each transaction, in 32-bit arithmetic. */
  predicate FewSigOps(txs: seq<Transaction>) { BlockSigOps(txs) * WITNESS_SCALE_FACTOR % U32 <= MAX_BLOCK_SIGOPS_COST }

  predicate SigOpsOk(txs: seq<Transaction>) { forall n :: 1 <= n <= |txs| ==> FewSigOps(txs[..n]) }

  /** Distinct ids, a coinbase exactly in front, no outpoint referenced twice, few signature operations. */
  predicate Shape(rules: Rules, txs: seq<Transaction>) {
    (forall i, j :: 0 <= i < j < |txs| ==> rules.id(txs[i]) != rules.id(txs[j])) &&
    (forall i :: 0 <= i < |txs| ==> (txs[i].IsCoinBase() <==> i == 0)) &&
    DistinctInputs(txs) && SigOpsOk(txs)
  }

  predicate DistinctInputs(txs: seq<Transaction>) {
    (forall i, j, k, l :: 0 <= i < j < |txs| && 0 <= k < |txs[i].vin| && 0 <= l < |txs[j].vin|
       ==> txs[i].vin[k].prevout != txs[j].vin[l].prevout) &&
    (forall i, k, l :: 0 <= i < |txs| && 0 <= k < l < |txs[i].vin| ==> txs[i].vin[k].prevout != txs[i].vin[l].prevout)
  }

  /** CheckBlock followed by CheckTransactions: every transaction is checked in the state before the
      block. */
  predicate BlockOk(rules: Rules, s: State, block: Block, height: int) {
    block.txs != [] && rules.headerOk(block) && Shape(rules, block.txs) &&
    forall i :: 0 <= i < |block.txs| ==> TxOk(rules, s, block.txs[i], height)
  }
}
