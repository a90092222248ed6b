/** Transactions as values: outpoints, inputs, outputs. */
module Tx {
  import opened Bytes

  const NULL_INDEX := 0xffff_ffff
  const NULL_HASH: Hash32 := [0, 0, 0, 0, 0, 0, 0, 0, 0, 0, 0, 0, 0, 0, 0, 0,
                              0, 0, 0, 0, 0, 0, 0, 0, 0, 0, 0, 0, 0, 0, 0, 0]

  /** A reference to an output of an earlier transaction. */
  datatype OutPoint = OutPoint(txid: Hash32, index: nat) {
    predicate IsNull() { txid == NULL_HASH && index == NULL_INDEX }
  }

  datatype TxIn = TxIn(prevout: OutPoint, scriptSig: Bytes, sequence: nat, scriptWitness: seq<Bytes>)

  datatype TxOut = TxOut(value: int, scriptPubKey: Bytes)

  /** Outputs are numbered by an int. */
  type Outputs = s: seq<TxOut> | |s| < 0x8000_0000

  datatype Transaction = Transaction(version: int, vin: seq<TxIn>, vout: Outputs, lockTime: nat) {
    predicate IsCoinBase() { |vin| == 1 && vin[0].prevout.IsNull() }

    predicate HasWitness() { exists i :: 0 <= i < |vin| && vin[i].scriptWitness != [] }
  }
}
