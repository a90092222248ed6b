/** Which transactions and blocks are accepted, said without the checks that decide it. */
module LedgerAccepts {
  import opened Bytes
  import opened Tx
  import opened Ledger
  import Script

  // ----- Amounts -----

  /** An amount of up to 21 million coins. */
  predicate Amount(v: int) { 0 <= v <= 2_100_000_000_000_000 }

  function Sum(v: seq<int>): int { if v == [] then 0 else v[0] + Sum(v[1..]) }

  predicate AllAmounts(v: seq<int>) { forall i :: 0 <= i < |v| ==> Amount(v[i]) }

  /** What the outputs pay. */
  function Paid(vout: seq<TxOut>): (v: seq<int>)
    ensures |v| == |vout|
  {
    seq(|vout|, i requires 0 <= i < |vout| => vout[i].value)
  }

  /** The value of the output an outpoint names, if there is one. */
  function Worth(s: State, p: OutPoint): int {
    if p.txid in s.index && p.index < |s.index[p.txid].tx.vout| then s.index[p.txid].tx.vout[p.index].value else 0
  }

  /** What the inputs claim. */
  function Claimed(s: State, vin: seq<TxIn>): (v: seq<int>)
    ensures |v| == |vin|
  {
    seq(|vin|, i requires 0 <= i < |vin| => Worth(s, vin[i].prevout))
  }

  lemma {:induction false} SumSnoc(v: seq<int>, x: int)
    ensures Sum(v + [x]) == Sum(v) + x
  {
    if v != [] {
      SumSnoc(v[1..], x);
      assert (v + [x])[1..] == v[1..] + [x];
    }
  }

  lemma {:induction false} SumOfPrefix(v: seq<int>, k: nat)
    requires AllAmounts(v) && k <= |v|
    ensures 0 <= Sum(v[..k]) <= Sum(v)
    decreases |v|
  {
    if v != [] {
      var n := |v| - 1;
      assert v == v[..n] + [v[n]];
      SumSnoc(v[..n], v[n]);
      SumOfPrefix(v[..n], if k <= n then k else n);
      if k <= n { assert v[..n][..k] == v[..k]; } else { assert v[..k] == v && v[..n][..n] == v[..n]; }
    }
  }

  lemma {:induction false} PaidIsTotal(vout: seq<TxOut>)
    ensures Sum(Paid(vout)) == TotalOut(vout)
  {
    if vout != [] {
      var n := |vout| - 1;
      PaidIsTotal(vout[..n]);
      SumSnoc(Paid(vout[..n]), vout[n].value);
      assert Paid(vout) == Paid(vout[..n]) + [vout[n].value];
    }
  }

  lemma {:induction false} ClaimedIsTotal(s: State, vin: seq<TxIn>)
    ensures Sum(Claimed(s, vin)) == TotalIn(s, vin)
  {
    if vin != [] {
      var n := |vin| - 1;
      ClaimedIsTotal(s, vin[..n]);
      SumSnoc(Claimed(s, vin[..n]), ValueAt(s, vin[n].prevout));
      assert Claimed(s, vin) == Claimed(s, vin[..n]) + [ValueAt(s, vin[n].prevout)];
    }
  }

  // ----- Transactions -----

  /** The outpoint of an input that spends nothing. */
  const NOTHING := OutPoint(NULL_HASH, 0xffff_ffff)

  /** A coinbase: one input, which spends nothing. */
  predicate IsReward(tx: Transaction) { |tx.vin| == 1 && tx.vin[0].prevout == NOTHING }

  /** One output at least, each an amount, and together still one. */
  predicate PaysAmounts(tx: Transaction) {
    |tx.vout| >= 1 && AllAmounts(Paid(tx.vout)) && Amount(Sum(Paid(tx.vout)))
  }

  /** An acceptable coinbase carries 2 to 100 bytes. */
  predicate RewardStands(rules: Rules, tx: Transaction) {
    IsReward(tx) && 2 <= |tx.vin[0].scriptSig| <= 100 && PaysAmounts(tx) && rules.sizeOk(tx)
  }

  /** The output an input names exists, is unused, is an amount, is 100 blocks old if a coinbase made it, and agrees. */
  predicate InputStands(rules: Rules, s: State, tx: Transaction, i: nat, height: int)
    requires i < |tx.vin|
  {
    var p := tx.vin[i].prevout;
    p != NOTHING && p in s.utxo && !s.utxo[p].used
    && p.txid in s.index && p.index < |s.index[p.txid].tx.vout| &&
    var origin := s.index[p.txid];
    var output := origin.tx.vout[p.index];
    (IsReward(origin.tx) ==> origin.height + 100 <= height) && Amount(output.value) && rules.scriptOk(tx, i, output)
  }

  predicate DifferentInputs(tx: Transaction) {
    forall i, j :: 0 <= i < j < |tx.vin| ==> tx.vin[i].prevout != tx.vin[j].prevout
  }

  /** An acceptable payment: different standing inputs that cover the outputs. */
  predicate PaymentStands(rules: Rules, s: State, tx: Transaction, height: int) {
    |tx.vin| >= 1 && DifferentInputs(tx) && PaysAmounts(tx) && rules.sizeOk(tx)
    && (forall i :: 0 <= i < |tx.vin| ==> InputStands(rules, s, tx, i, height))
    && Sum(Paid(tx.vout)) <= Sum(Claimed(s, tx.vin)) && Amount(Sum(Claimed(s, tx.vin)))
  }

  lemma RewardIsCoinBase(tx: Transaction)
    ensures IsReward(tx) <==> tx.IsCoinBase()
  {}

  lemma OutputsIff(tx: Transaction)
    ensures PaysAmounts(tx) <==> tx.vout != [] && OutputsOk(tx.vout)
  {
    var v := Paid(tx.vout);
    PaidIsTotal(tx.vout);
    assert forall i :: 0 <= i < |v| ==> v[i] == tx.vout[i].value;
    assert v[..|v|] == v && v[..0] == [];
    if AllAmounts(v) { SumOfPrefix(v, |v|); }
    assert AllAmounts(v) <==> forall i :: 0 <= i < |tx.vout| ==> MoneyRange(tx.vout[i].value) by {
      if forall i :: 0 <= i < |tx.vout| ==> MoneyRange(tx.vout[i].value) {
        forall i | 0 <= i < |v| ensures Amount(v[i]) { assert MoneyRange(tx.vout[i].value); }
      }
    }
  }

  /** The inputs up to i claim an amount. */
  predicate SumFits(s: State, vin: seq<TxIn>, i: nat)
    requires i < |vin|
  {
    MoneyRange(TotalIn(s, vin[..i + 1]))
  }

  /** What the checks of one input ask beyond that it stands: it is not an earlier one, and the sum so far is an
      amount. */
  lemma InputIff(rules: Rules, s: State, tx: Transaction, i: nat, height: int)
    requires i < |tx.vin|
    ensures InputOk(rules, s, tx, i, height)
            <==> InputStands(rules, s, tx, i, height) && !Spends(tx.vin[..i], tx.vin[i].prevout)
                 && SumFits(s, tx.vin, i)
  {
    hide TotalIn, Spends;
    if Resolves(s, tx.vin[i].prevout) { RewardIsCoinBase(s.index[tx.vin[i].prevout.txid].tx); }
  }

  lemma DifferentIff(tx: Transaction)
    ensures DifferentInputs(tx) <==> forall i :: 0 <= i < |tx.vin| ==> !Spends(tx.vin[..i], tx.vin[i].prevout)
  {
    if DifferentInputs(tx) {
      forall i | 0 <= i < |tx.vin| ensures !Spends(tx.vin[..i], tx.vin[i].prevout) {}
    } else {
      var i, j :| 0 <= i < j < |tx.vin| && tx.vin[i].prevout == tx.vin[j].prevout;
      assert tx.vin[..j][i].prevout == tx.vin[j].prevout;
    }
  }

  lemma StandingIsAmount(rules: Rules, s: State, tx: Transaction, height: int)
    requires forall i :: 0 <= i < |tx.vin| ==> InputStands(rules, s, tx, i, height)
    ensures AllAmounts(Claimed(s, tx.vin))
  {
    forall i | 0 <= i < |tx.vin| ensures Amount(Claimed(s, tx.vin)[i]) { assert InputStands(rules, s, tx, i, height); }
  }

  /** Partial sums are amounts exactly when the whole sum is. */
  lemma PartialSums(s: State, vin: seq<TxIn>)
    requires AllAmounts(Claimed(s, vin)) && vin != []
    ensures Amount(Sum(Claimed(s, vin))) <==> forall i :: 0 <= i < |vin| ==> SumFits(s, vin, i)
  {
    hide TotalIn;
    var v := Claimed(s, vin);
    forall i | 0 <= i < |vin| ensures Amount(Sum(v)) ==> SumFits(s, vin, i) {
      SumOfPrefix(v, i + 1);
      ClaimedIsTotal(s, vin[..i + 1]);
      assert Claimed(s, vin[..i + 1]) == v[..i + 1];
    }
    ClaimedIsTotal(s, vin);
    var n := |vin| - 1;
    assert vin[..n + 1] == vin && (SumFits(s, vin, n) ==> MoneyRange(Sum(v)));
  }

  lemma InputsIff(rules: Rules, s: State, tx: Transaction, height: int)
    requires tx.vin != []
    ensures (forall i :: 0 <= i < |tx.vin| ==> InputOk(rules, s, tx, i, height))
            <==> DifferentInputs(tx) && (forall i :: 0 <= i < |tx.vin| ==> InputStands(rules, s, tx, i, height))
                 && Amount(Sum(Claimed(s, tx.vin)))
  {
    hide InputOk, InputStands, SumFits, Claimed, Amount, Spends;
    forall i | 0 <= i < |tx.vin|
      ensures InputOk(rules, s, tx, i, height)
              <==> InputStands(rules, s, tx, i, height) && !Spends(tx.vin[..i], tx.vin[i].prevout)
                   && SumFits(s, tx.vin, i)
    { InputIff(rules, s, tx, i, height); }
    DifferentIff(tx);
    if forall i :: 0 <= i < |tx.vin| ==> InputStands(rules, s, tx, i, height) {
      StandingIsAmount(rules, s, tx, height);
      PartialSums(s, tx.vin);
    }
  }

  lemma FirstStands(rules: Rules, s: State, tx: Transaction, height: int)
    requires |tx.vin| >= 1 && forall i :: 0 <= i < |tx.vin| ==> InputStands(rules, s, tx, i, height)
    ensures !IsReward(tx)
  {
    assert InputStands(rules, s, tx, 0, height);
  }

  /** A transaction passes the checks exactly when it is an acceptable coinbase or an acceptable payment; a payment's
      fee is what it claims less what it pays. */
  lemma TxOkIff(rules: Rules, s: State, tx: Transaction, height: int)
    ensures TxOk(rules, s, tx, height) <==> RewardStands(rules, tx) || PaymentStands(rules, s, tx, height)
    ensures PaymentStands(rules, s, tx, height) ==> Fee(s, tx) == Sum(Claimed(s, tx.vin)) - Sum(Paid(tx.vout))
    ensures PaymentStands(rules, s, tx, height) ==> !tx.IsCoinBase()
  {
    hide InputOk, InputStands, TotalIn, TotalOut, Claimed, Paid, OutputsOk, PaysAmounts, DifferentInputs;
    RewardIsCoinBase(tx);
    OutputsIff(tx);
    ClaimedIsTotal(s, tx.vin);
    PaidIsTotal(tx.vout);
    if |tx.vin| >= 1 {
      InputsIff(rules, s, tx, height);
      if forall i :: 0 <= i < |tx.vin| ==> InputStands(rules, s, tx, i, height) { FirstStands(rules, s, tx, height); }
      if PaysAmounts(tx) { PaysNothingLess(tx); }
    }
  }

  lemma PaysNothingLess(tx: Transaction)
    requires PaysAmounts(tx)
    ensures 0 <= Sum(Paid(tx.vout))
  {}

  // ----- Blocks -----

  /** Everything the transactions spend, in order. */
  function Spent(txs: seq<Transaction>): seq<OutPoint> {
    if txs == [] then [] else Spent(txs[..|txs| - 1]) + Named(txs[|txs| - 1].vin)
  }

  function Named(vin: seq<TxIn>): (r: seq<OutPoint>)
    ensures |r| == |vin|
  {
    seq(|vin|, i requires 0 <= i < |vin| => vin[i].prevout)
  }

  predicate AllDifferent<T(==)>(v: seq<T>) { forall i, j :: 0 <= i < j < |v| ==> v[i] != v[j] }

  function Ids(rules: Rules, txs: seq<Transaction>): (r: seq<Bytes>)
    ensures |r| == |txs|
  {
    seq(|txs|, i requires 0 <= i < |txs| => rules.id(txs[i]))
  }

  function InputCounts(vin: seq<TxIn>): (v: seq<int>)
    ensures |v| == |vin|
  {
    seq(|vin|, i requires 0 <= i < |vin| => Script.SigOpCount(vin[i].scriptSig, false))
  }

  function OutputCounts(vout: seq<TxOut>): (v: seq<int>)
    ensures |v| == |vout|
  {
    seq(|vout|, i requires 0 <= i < |vout| => Script.SigOpCount(vout[i].scriptPubKey, false))
  }

  /** The signature operations of every script of a transaction, roughly counted. */
  function Operations(tx: Transaction): seq<int> { InputCounts(tx.vin) + OutputCounts(tx.vout) }

  function AllOperations(txs: seq<Transaction>): seq<int> {
    if txs == [] then [] else AllOperations(txs[..|txs| - 1]) + Operations(txs[|txs| - 1])
  }

  /** Four times the operations of the first n transactions, in 32 bits, are at most 80000 for every n. */
  predicate FewOperations(txs: seq<Transaction>) {
    forall n :: 1 <= n <= |txs| ==> 4 * Sum(AllOperations(txs[..n])) % 0x1_0000_0000 <= 80000
  }

  /** An acceptable block: an acceptable coinbase, then acceptable payments, with different ids, nothing spent twice
      and not too many signature operations. */
  predicate BlockStands(rules: Rules, s: State, block: Block, height: int) {
    var txs := block.txs;
    |txs| >= 1 && rules.headerOk(block) && RewardStands(rules, txs[0])
    && (forall i :: 1 <= i < |txs| ==> PaymentStands(rules, s, txs[i], height))
    && AllDifferent(Ids(rules, txs)) && AllDifferent(Spent(txs)) && FewOperations(txs)
  }

  lemma {:induction false} SumConcat(u: seq<int>, v: seq<int>)
    ensures Sum(u + v) == Sum(u) + Sum(v)
  {
    if u == [] { assert u + v == v; } else {
      SumConcat(u[1..], v);
      assert (u + v)[1..] == u[1..] + v;
    }
  }

  lemma {:induction false} InputOperations(vin: seq<TxIn>)
    ensures Sum(InputCounts(vin)) == InputSigOps(vin)
  {
    hide Script.SigOpCount;
    if vin != [] {
      var n := |vin| - 1;
      InputOperations(vin[..n]);
      SumSnoc(InputCounts(vin[..n]), Script.SigOpCount(vin[n].scriptSig, false));
      assert InputCounts(vin) == InputCounts(vin[..n]) + [Script.SigOpCount(vin[n].scriptSig, false)];
    }
  }

  lemma {:induction false} OutputOperations(vout: seq<TxOut>)
    ensures Sum(OutputCounts(vout)) == OutputSigOps(vout)
  {
    hide Script.SigOpCount;
    if vout != [] {
      var n := |vout| - 1;
      OutputOperations(vout[..n]);
      SumSnoc(OutputCounts(vout[..n]), Script.SigOpCount(vout[n].scriptPubKey, false));
      assert OutputCounts(vout) == OutputCounts(vout[..n]) + [Script.SigOpCount(vout[n].scriptPubKey, false)];
    }
  }

  lemma OperationsAre(tx: Transaction)
    ensures Sum(Operations(tx)) == TxSigOps(tx)
  {
    hide InputCounts, OutputCounts;
    InputOperations(tx.vin);
    OutputOperations(tx.vout);
    SumConcat(InputCounts(tx.vin), OutputCounts(tx.vout));
  }

  lemma {:induction false} AllOperationsAre(txs: seq<Transaction>)
    ensures Sum(AllOperations(txs)) == BlockSigOps(txs)
  {
    hide TxSigOps, Operations;
    if txs != [] {
      var n := |txs| - 1;
      AllOperationsAre(txs[..n]);
      OperationsAre(txs[n]);
      SumConcat(AllOperations(txs[..n]), Operations(txs[n]));
    }
  }

  lemma FewIff(txs: seq<Transaction>)
    ensures FewOperations(txs) <==> SigOpsOk(txs)
  {
    hide AllOperations, BlockSigOps;
    forall n | 1 <= n <= |txs|
      ensures FewSigOps(txs[..n]) <==> 4 * Sum(AllOperations(txs[..n])) % 0x1_0000_0000 <= 80000
    { AllOperationsAre(txs[..n]); }
  }

  lemma DifferentConcat<T>(u: seq<T>, v: seq<T>)
    ensures AllDifferent(u + v)
            <==> AllDifferent(u) && AllDifferent(v) && forall i, j :: 0 <= i < |u| && 0 <= j < |v| ==> u[i] != v[j]
  {
    var w := u + v;
    if AllDifferent(w) {
      forall i, j | 0 <= i < j < |u| ensures u[i] != u[j] { assert w[i] == u[i] && w[j] == u[j]; }
      forall i, j | 0 <= i < j < |v| ensures v[i] != v[j] { assert w[|u| + i] == v[i] && w[|u| + j] == v[j]; }
      forall i, j | 0 <= i < |u| && 0 <= j < |v| ensures u[i] != v[j] { assert w[i] == u[i] && w[|u| + j] == v[j]; }
    }
  }

  lemma {:induction false} SpentHas(txs: seq<Transaction>, p: OutPoint)
    ensures (exists a :: 0 <= a < |Spent(txs)| && Spent(txs)[a] == p)
            <==> exists i, k :: 0 <= i < |txs| && 0 <= k < |txs[i].vin| && txs[i].vin[k].prevout == p
  {
    if txs != [] {
      var n := |txs| - 1;
      var before, last := Spent(txs[..n]), Named(txs[n].vin);
      SpentHas(txs[..n], p);
      if a :| 0 <= a < |Spent(txs)| && Spent(txs)[a] == p {
        if a < |before| {
          assert before[a] == p;
          var i, k :| 0 <= i < n && 0 <= k < |txs[..n][i].vin| && txs[..n][i].vin[k].prevout == p;
          assert txs[i].vin[k].prevout == p;
        } else {
          assert txs[n].vin[a - |before|].prevout == p;
        }
      }
      if i, k :| 0 <= i < |txs| && 0 <= k < |txs[i].vin| && txs[i].vin[k].prevout == p {
        if i < n {
          assert txs[..n][i].vin[k].prevout == p;
          var a :| 0 <= a < |before| && before[a] == p;
          assert Spent(txs)[a] == p;
        } else {
          assert Spent(txs)[|before| + k] == last[k] == p;
        }
      }
    }
  }

  lemma LastIsDistinct(txs: seq<Transaction>)
    requires txs != []
    ensures var n := |txs| - 1;
            DistinctInputs(txs)
            <==> DistinctInputs(txs[..n]) && DifferentInputs(txs[n])
                 && forall i, k, l :: 0 <= i < n && 0 <= k < |txs[i].vin| && 0 <= l < |txs[n].vin|
                      ==> txs[i].vin[k].prevout != txs[n].vin[l].prevout
  {}

  lemma NamedDifferent(tx: Transaction)
    ensures AllDifferent(Named(tx.vin)) <==> DifferentInputs(tx)
  {
    var v := Named(tx.vin);
    assert forall i :: 0 <= i < |v| ==> v[i] == tx.vin[i].prevout;
    if AllDifferent(v) {
      forall i, j | 0 <= i < j < |tx.vin| ensures tx.vin[i].prevout != tx.vin[j].prevout { assert v[i] != v[j]; }
    }
  }

  lemma ApartIff(txs: seq<Transaction>, tx: Transaction)
    ensures (forall a, b :: 0 <= a < |Spent(txs)| && 0 <= b < |Named(tx.vin)| ==> Spent(txs)[a] != Named(tx.vin)[b])
            <==> forall i, k, l :: 0 <= i < |txs| && 0 <= k < |txs[i].vin| && 0 <= l < |tx.vin|
                   ==> txs[i].vin[k].prevout != tx.vin[l].prevout
  {
    if a, b :| 0 <= a < |Spent(txs)| && 0 <= b < |Named(tx.vin)| && Spent(txs)[a] == Named(tx.vin)[b] {
      SpentHas(txs, tx.vin[b].prevout);
    }
    if i, k, l :| 0 <= i < |txs| && 0 <= k < |txs[i].vin| && 0 <= l < |tx.vin| &&
                  txs[i].vin[k].prevout == tx.vin[l].prevout {
      SpentHas(txs, tx.vin[l].prevout);
      var a :| 0 <= a < |Spent(txs)| && Spent(txs)[a] == tx.vin[l].prevout;
      assert Named(tx.vin)[l] == Spent(txs)[a];
    }
  }

  lemma {:induction false} DistinctIff(txs: seq<Transaction>)
    ensures DistinctInputs(txs) <==> AllDifferent(Spent(txs))
  {
    hide DistinctInputs, AllDifferent, DifferentInputs;
    if txs == [] { NothingSpent(); } else {
      var n := |txs| - 1;
      DistinctIff(txs[..n]);
      LastIsDistinct(txs);
      DifferentConcat(Spent(txs[..n]), Named(txs[n].vin));
      NamedDifferent(txs[n]);
      ApartIff(txs[..n], txs[n]);
      assert forall i :: 0 <= i < n ==> txs[..n][i] == txs[i];
    }
  }

  lemma NothingSpent()
    ensures DistinctInputs([]) && AllDifferent(Spent([]))
  {}

  lemma IdsIff(rules: Rules, txs: seq<Transaction>)
    ensures AllDifferent(Ids(rules, txs))
            <==> forall i, j :: 0 <= i < j < |txs| ==> rules.id(txs[i]) != rules.id(txs[j])
  {
    var v := Ids(rules, txs);
    assert forall i :: 0 <= i < |v| ==> v[i] == rules.id(txs[i]);
    if AllDifferent(v) {
      forall i, j | 0 <= i < j < |txs| ensures rules.id(txs[i]) != rules.id(txs[j]) { assert v[i] != v[j]; }
    }
  }

  /** A block passes its checks exactly when it is an acceptable one. */
  lemma BlockOkIff(rules: Rules, s: State, block: Block, height: int)
    ensures BlockOk(rules, s, block, height) <==> BlockStands(rules, s, block, height)
  {
    hide TxOk, RewardStands, PaymentStands, DistinctInputs, AllDifferent, Spent, SigOpsOk, Ids, FewOperations;
    var txs := block.txs;
    DistinctIff(txs);
    IdsIff(rules, txs);
    FewIff(txs);
    forall i | 0 <= i < |txs|
      ensures TxOk(rules, s, txs[i], height) <==> RewardStands(rules, txs[i]) || PaymentStands(rules, s, txs[i], height)
      ensures RewardStands(rules, txs[i]) ==> txs[i].IsCoinBase()
      ensures PaymentStands(rules, s, txs[i], height) ==> !txs[i].IsCoinBase()
    {
      TxOkIff(rules, s, txs[i], height);
      RewardIs(rules, txs[i]);
    }
  }

  lemma RewardIs(rules: Rules, tx: Transaction)
    ensures RewardStands(rules, tx) ==> tx.IsCoinBase()
  {}
}
