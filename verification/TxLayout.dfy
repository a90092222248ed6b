/** The bytes of a written transaction, one by one. */
module TxLayout {
  import opened Bytes
  import opened Serialize
  import opened Tx
  import opened TxWire

  // ----- Numbers and sizes -----

  /** Four bytes, the lowest first. */
  function Four(n: nat): (b: Bytes)
    ensures |b| == 4
  {
    [n % 256, n / 0x100 % 256, n / 0x1_0000 % 256, n / 0x100_0000 % 256]
  }

  function Eight(n: nat): (b: Bytes)
    ensures |b| == 8
  {
    Four(n) + Four(n / 0x1_0000_0000)
  }

  /** The number four bytes at a position denote. */
  function FourAt(b: Bytes, i: nat): nat
    requires i + 4 <= |b|
  {
    b[i] as int + 0x100 * b[i + 1] as int + 0x1_0000 * b[i + 2] as int + 0x100_0000 * b[i + 3] as int
  }

  function EightAt(b: Bytes, i: nat): nat
    requires i + 8 <= |b|
  {
    FourAt(b, i) + 0x1_0000_0000 * FourAt(b, i + 4)
  }

  /** A size: one byte, or a marker 253, 254 or 255 and two, four or eight bytes. */
  function SizeBytes(n: nat): Bytes {
    if n < 253 then [n]
    else if n < 0x1_0000 then [253, n % 256, n / 256]
    else if n < 0x1_0000_0000 then [254] + Four(n)
    else [255] + Eight(n)
  }

  lemma ByteByByte(n: nat)
    ensures n / 256 / 256 == n / 0x1_0000 && n / 0x1_0000 / 256 == n / 0x100_0000
    ensures n / 0x100_0000 / 256 == n / 0x1_0000_0000
  {}

  lemma OneByte(n: nat, k: nat)
    ensures Le(n, k + 1) == [n % 256] + Le(n / 256, k)
  {}

  lemma FourFirst(n: nat, k: nat)
    ensures Le(n, k + 4) == Four(n) + Le(n / 0x1_0000_0000, k)
  {
    hide Le;
    ByteByByte(n);
    OneByte(n, k + 3);
    OneByte(n / 256, k + 2);
    OneByte(n / 0x1_0000, k + 1);
    OneByte(n / 0x100_0000, k);
  }

  lemma FourIs(n: nat)
    ensures Le(n, 4) == Four(n)
    ensures FourAt(Four(n), 0) == n % 0x1_0000_0000
  {
    FourFirst(n, 0);
    ByteByByte(n);
    hide Le;
  }

  lemma TwoIs(n: nat)
    requires n < 0x1_0000
    ensures Le(n, 2) == [n % 256, n / 256]
  {
    assert Le(n / 256, 1) == [n / 256 % 256];
  }

  lemma EightIs(n: nat)
    ensures Le(n, 8) == Eight(n)
    ensures n < 0x1_0000_0000_0000_0000 ==> EightAt(Eight(n), 0) == n
  {
    hide Le, Four, FourAt;
    var b, h := Eight(n), n / 0x1_0000_0000;
    FourFirst(n, 4);
    FourIs(n);
    FourIs(h);
    assert b[0..4] == Four(n) && b[4..8] == Four(h);
    FourSlice(b, 0, Four(n));
    FourSlice(b, 4, Four(h));
  }

  lemma FourSlice(b: Bytes, i: nat, part: Bytes)
    requires |part| == 4 && i + 4 <= |b| && b[i..i + 4] == part
    ensures FourAt(b, i) == FourAt(part, 0)
  {
    assert part[0] == b[i] && part[1] == b[i + 1] && part[2] == b[i + 2] && part[3] == b[i + 3];
  }

  lemma SizeIs(n: nat)
    ensures WriteSize(n) == SizeBytes(n)
  {
    hide Le, Four;
    if n < 0x1_0000 { TwoIs(n); }
    FourIs(n);
    EightIs(n);
  }

  // ----- Fields -----

  /** A script or a witness element: its size and itself. */
  function TextBytes(b: Bytes): Bytes { SizeBytes(|b|) + b }

  /** Transaction id, output index, script, sequence. */
  function InputBytes(v: TxIn): Bytes {
    v.prevout.txid + Four(v.prevout.index) + TextBytes(v.scriptSig) + Four(v.sequence)
  }

  /** Value, as 64 bits in two's complement, and script. */
  function OutputBytes(v: TxOut): Bytes { Eight(v.value % 0x1_0000_0000_0000_0000) + TextBytes(v.scriptPubKey) }

  /** One after another. */
  function Concat(pieces: seq<Bytes>): Bytes {
    if pieces == [] then [] else Concat(pieces[..|pieces| - 1]) + pieces[|pieces| - 1]
  }

  function AllInputs(vin: seq<TxIn>): (r: seq<Bytes>)
    ensures |r| == |vin|
  {
    seq(|vin|, i requires 0 <= i < |vin| => InputBytes(vin[i]))
  }

  function AllOutputs(vout: seq<TxOut>): (r: seq<Bytes>)
    ensures |r| == |vout|
  {
    seq(|vout|, i requires 0 <= i < |vout| => OutputBytes(vout[i]))
  }

  function AllTexts(texts: seq<Bytes>): (r: seq<Bytes>)
    ensures |r| == |texts|
  {
    seq(|texts|, i requires 0 <= i < |texts| => TextBytes(texts[i]))
  }

  function StackBytes(stack: seq<Bytes>): Bytes { SizeBytes(|stack|) + Concat(AllTexts(stack)) }

  function AllStacks(vin: seq<TxIn>): (r: seq<Bytes>)
    ensures |r| == |vin|
  {
    seq(|vin|, i requires 0 <= i < |vin| => StackBytes(vin[i].scriptWitness))
  }

  function BodyBytes(tx: Transaction): Bytes {
    SizeBytes(|tx.vin|) + Concat(AllInputs(tx.vin)) + (SizeBytes(|tx.vout|) + Concat(AllOutputs(tx.vout)))
  }

  /** The whole transaction; with a witness, the marker and flag 0, 1 before the inputs and the stacks behind the
      outputs. */
  function Layout(tx: Transaction, allow: bool): Bytes {
    var segwit := allow && exists i :: 0 <= i < |tx.vin| && tx.vin[i].scriptWitness != [];
    Four(tx.version % 0x1_0000_0000)
    + (if segwit then [0, 1] + BodyBytes(tx) + Concat(AllStacks(tx.vin)) else BodyBytes(tx))
    + Four(tx.lockTime)
  }

  lemma TextIs(b: Bytes)
    ensures TEXT.write(b) == TextBytes(b)
  {
    hide WriteSize, SizeBytes;
    SizeIs(|b|);
  }

  lemma PairWrites<A, B>(c: Codec<A>, d: Codec<B>, x: A, y: B)
    ensures Pair(c, d).write((x, y)) == c.write(x) + d.write(y)
  {}

  lemma AsWrites<S, T>(c: Codec<S>, into: S -> T, from: T -> S, v: T)
    ensures As(c, into, from).write(v) == c.write(from(v))
  {}

  lemma NumberWrites(n: nat)
    ensures UInt(4).write(n) == Four(n) && UInt(8).write(n) == Eight(n)
  {
    hide Four, Le, Eight;
    FourIs(n);
    EightIs(n);
  }

  lemma InputIs(v: TxIn)
    ensures INPUT.write(v.(scriptWitness := [])) == InputBytes(v)
  {
    hide TextBytes, Four, Le, WriteSize, Pair, As, UInt;
    var w, c, d := v.(scriptWitness := []), Pair(TEXT, UInt(4)), Pair(UInt(4), Pair(TEXT, UInt(4)));
    var id: Bytes := v.prevout.txid;
    AsWrites(Pair(Fixed(32), d), ToInput, FromInput, w);
    PairWrites(Fixed(32), d, id, (v.prevout.index, (v.scriptSig, v.sequence)));
    PairWrites(UInt(4), c, v.prevout.index, (v.scriptSig, v.sequence));
    PairWrites(TEXT, UInt(4), v.scriptSig, v.sequence);
    TextIs(v.scriptSig);
    NumberWrites(v.prevout.index);
    NumberWrites(v.sequence);
    assert id + (Four(v.prevout.index) + (TextBytes(v.scriptSig) + Four(v.sequence))) == InputBytes(v);
  }

  lemma OutputIs(v: TxOut)
    ensures OUTPUT.write(v) == OutputBytes(v)
  {
    hide TextBytes, Four, Le, WriteSize, Eight, Pair, As, UInt;
    AsWrites(Pair(INT64, TEXT), ToOutput, FromOutput, v);
    PairWrites(INT64, TEXT, v.value, v.scriptPubKey);
    AsWrites(UInt(8), ToInt64, FromInt64, v.value);
    NumberWrites(v.value % 0x1_0000_0000_0000_0000);
    TextIs(v.scriptPubKey);
  }

  /** A writer of elements writes them one after another. */
  lemma {:induction false} WriteAllIs<T>(c: Codec<T>, v: seq<T>, pieces: seq<Bytes>)
    requires |pieces| == |v| && forall i :: 0 <= i < |v| ==> c.write(v[i]) == pieces[i]
    ensures WriteAll(c, v) == Concat(pieces)
  {
    if v != [] {
      WriteAllIs(c, v[1..], pieces[1..]);
      ConcatFirst(pieces);
    }
  }

  lemma {:induction false} ConcatFirst(pieces: seq<Bytes>)
    requires pieces != []
    ensures Concat(pieces) == pieces[0] + Concat(pieces[1..])
  {
    var n := |pieces| - 1;
    if n > 0 {
      ConcatFirst(pieces[..n]);
      assert pieces[..n][1..] == pieces[1..][..n - 1];
      assert Concat(pieces[1..]) == Concat(pieces[1..][..n - 1]) + pieces[n];
    } else {
      assert pieces[..0] == [] && pieces[1..] == [];
    }
  }

  lemma InputsAre(vin: seq<TxIn>)
    ensures Inputs().write(Bare(vin)) == SizeBytes(|vin|) + Concat(AllInputs(vin))
  {
    hide InputBytes, SizeBytes, WriteSize;
    SizeIs(|vin|);
    forall i | 0 <= i < |vin| ensures INPUT.write(Bare(vin)[i]) == AllInputs(vin)[i] { InputIs(vin[i]); }
    WriteAllIs(INPUT, Bare(vin), AllInputs(vin));
  }

  lemma OutputsAre(vout: seq<TxOut>)
    ensures OutputList().write(vout) == SizeBytes(|vout|) + Concat(AllOutputs(vout))
  {
    hide OutputBytes, SizeBytes, WriteSize;
    SizeIs(|vout|);
    forall i | 0 <= i < |vout| ensures OUTPUT.write(vout[i]) == AllOutputs(vout)[i] { OutputIs(vout[i]); }
    WriteAllIs(OUTPUT, vout, AllOutputs(vout));
  }

  lemma StackIs(stack: seq<Bytes>)
    ensures Stack().write(stack) == StackBytes(stack)
  {
    hide TextBytes, SizeBytes, WriteSize;
    SizeIs(|stack|);
    forall i | 0 <= i < |stack| ensures TEXT.write(stack[i]) == AllTexts(stack)[i] { TextIs(stack[i]); }
    WriteAllIs(TEXT, stack, AllTexts(stack));
  }

  lemma StacksAre(vin: seq<TxIn>)
    ensures WriteAll(Stack(), Stacks(vin)) == Concat(AllStacks(vin))
  {
    hide StackBytes, Stack;
    forall i | 0 <= i < |vin| ensures Stack().write(Stacks(vin)[i]) == AllStacks(vin)[i] {
      StackIs(vin[i].scriptWitness);
    }
    WriteAllIs(Stack(), Stacks(vin), AllStacks(vin));
  }

  /** The writer produces these bytes, for every transaction. */
  lemma WriteIsLayout(tx: Transaction, allow: bool)
    ensures Write(tx, allow) == Layout(tx, allow)
  {
    VersionIs(tx.version);
    LockTimeIs(tx.lockTime);
    hide Version, LockTime, Inputs, OutputList, Stack, Four, Le, SizeBytes, Concat;
    InputsAre(tx.vin);
    OutputsAre(tx.vout);
    StacksAre(tx.vin);
  }

  lemma VersionIs(version: int)
    ensures Version().write(version) == Four(version % 0x1_0000_0000)
  {
    hide Four, UInt, As;
    AsWrites(UInt(4), ToInt32, FromInt32, version);
    NumberWrites(version % 0x1_0000_0000);
  }

  lemma LockTimeIs(lockTime: nat)
    ensures LockTime().write(lockTime) == Four(lockTime)
  {
    hide Four, UInt;
    NumberWrites(lockTime);
  }

  // ----- One input and one output, by offset -----

  lemma NumberAt(before: Bytes, n: nat, after: Bytes)
    ensures FourAt(before + Four(n) + after, |before|) == n % 0x1_0000_0000
    ensures n < 0x1_0000_0000_0000_0000 ==> EightAt(before + Eight(n) + after, |before|) == n
  {
    FourIs(n);
    EightIs(n);
    hide Four, FourAt, Le;
    var k := |before|;
    var b, c := before + Four(n) + after, before + Eight(n) + after;
    assert b[k..k + 4] == Four(n) && c[k..k + 8] == Eight(n);
    assert c[k..k + 4] == Eight(n)[0..4] && c[k + 4..k + 8] == Eight(n)[4..8];
    FourSlice(b, k, Four(n));
    FourSlice(c, k, Eight(n)[0..4]);
    FourSlice(c, k + 4, Eight(n)[4..8]);
    FourSlice(Eight(n), 0, Eight(n)[0..4]);
    FourSlice(Eight(n), 4, Eight(n)[4..8]);
  }

  /** An input of a script shorter than 253 bytes: where each field lies, and what its bytes add up to. */
  lemma InputOffsets(v: TxIn)
    requires |v.scriptSig| < 253 && v.prevout.index < 0x1_0000_0000 && v.sequence < 0x1_0000_0000
    ensures var b, s := InputBytes(v), 37 + |v.scriptSig|;
            |b| == s + 4 && b[..32] == v.prevout.txid && FourAt(b, 32) == v.prevout.index
            && b[36] == |v.scriptSig| && b[37..s] == v.scriptSig && FourAt(b, s) == v.sequence
  {
    hide Four, FourAt;
    var id: Bytes := v.prevout.txid;
    var text := [|v.scriptSig| as byte] + v.scriptSig;
    assert InputBytes(v) == id + Four(v.prevout.index) + (text + Four(v.sequence));
    NumberAt(id, v.prevout.index, text + Four(v.sequence));
    var before := id + Four(v.prevout.index) + text;
    assert InputBytes(v) == before + Four(v.sequence) + [];
    NumberAt(before, v.sequence, []);
  }

  /** The same of an output: eight bytes of value before the script. */
  lemma OutputOffsets(v: TxOut)
    requires |v.scriptPubKey| < 253 && 0 <= v.value < 0x8000_0000_0000_0000
    ensures var b := OutputBytes(v);
            |b| == 9 + |v.scriptPubKey| && EightAt(b, 0) == v.value
            && b[8] == |v.scriptPubKey| && b[9..] == v.scriptPubKey
  {
    hide Eight, EightAt;
    var text := [|v.scriptPubKey| as byte] + v.scriptPubKey;
    assert OutputBytes(v) == [] + Eight(v.value) + text;
    NumberAt([], v.value, text);
  }

  /** A transaction of one input and one output: version, one input, one output, lock time; with a witness the marker
      and flag come after the version and the stack before the lock time. */
  lemma OneInOneOut(tx: Transaction, allow: bool)
    requires |tx.vin| == 1 && |tx.vout| == 1
    ensures var body := [1] + InputBytes(tx.vin[0]) + ([1] + OutputBytes(tx.vout[0]));
            Write(tx, allow)
            == Four(tx.version % 0x1_0000_0000)
               + (if allow && tx.vin[0].scriptWitness != [] then [0, 1] + body + StackBytes(tx.vin[0].scriptWitness)
                  else body)
               + Four(tx.lockTime)
  {
    hide Four, InputBytes, OutputBytes, StackBytes, Concat, Write;
    WriteIsLayout(tx, allow);
    assert (exists i :: 0 <= i < |tx.vin| && tx.vin[i].scriptWitness != []) <==> tx.vin[0].scriptWitness != [];
    SingleConcat(AllInputs(tx.vin));
    SingleConcat(AllOutputs(tx.vout));
    SingleConcat(AllStacks(tx.vin));
  }

  lemma SingleConcat(pieces: seq<Bytes>)
    requires |pieces| == 1
    ensures Concat(pieces) == pieces[0]
  {
    assert pieces[..0] == [];
  }

  // ----- Which transactions have a wire form -----

  predicate InputFits(v: TxIn) {
    v.prevout.index < 0x1_0000_0000 && |v.scriptSig| <= 0x200_0000 && v.sequence < 0x1_0000_0000
  }

  predicate OutputFits(v: TxOut) {
    -0x8000_0000_0000_0000 <= v.value < 0x8000_0000_0000_0000 && |v.scriptPubKey| <= 0x200_0000
  }

  predicate StackFits(stack: seq<Bytes>) {
    |stack| <= 0x200_0000 && forall i :: 0 <= i < |stack| ==> |stack[i]| <= 0x200_0000
  }

  lemma PairValid<A, B>(c: Codec<A>, d: Codec<B>, x: A, y: B)
    ensures Pair(c, d).valid((x, y)) <==> c.valid(x) && d.valid(y)
  {}

  lemma AsValid<S, T>(c: Codec<S>, into: S -> T, from: T -> S, v: T)
    ensures As(c, into, from).valid(v) <==> c.valid(from(v)) && into(from(v)) == v
  {}

  lemma NumberValid(n: nat)
    ensures (UInt(4).valid(n) <==> n < 0x1_0000_0000) && (UInt(8).valid(n) <==> n < 0x1_0000_0000_0000_0000)
  {
    TxWire.Powers();
    hide Pow256;
  }

  lemma InputFitsIff(v: TxIn)
    ensures INPUT.valid(v.(scriptWitness := [])) <==> InputFits(v)
  {
    hide Pair, As, UInt;
    var w, c, d := v.(scriptWitness := []), Pair(TEXT, UInt(4)), Pair(UInt(4), Pair(TEXT, UInt(4)));
    var id: Bytes := v.prevout.txid;
    AsValid(Pair(Fixed(32), d), ToInput, FromInput, w);
    PairValid(Fixed(32), d, id, (v.prevout.index, (v.scriptSig, v.sequence)));
    PairValid(UInt(4), c, v.prevout.index, (v.scriptSig, v.sequence));
    PairValid(TEXT, UInt(4), v.scriptSig, v.sequence);
    NumberValid(v.prevout.index);
    NumberValid(v.sequence);
  }

  lemma OutputFitsIff(v: TxOut)
    ensures OUTPUT.valid(v) <==> OutputFits(v)
  {
    hide Pair, As, UInt;
    AsValid(Pair(INT64, TEXT), ToOutput, FromOutput, v);
    PairValid(INT64, TEXT, v.value, v.scriptPubKey);
    AsValid(UInt(8), ToInt64, FromInt64, v.value);
    NumberValid(v.value % 0x1_0000_0000_0000_0000);
  }

  lemma StackFitsIff(stack: seq<Bytes>)
    ensures Stack().valid(stack) <==> StackFits(stack)
  {
    if Stack().valid(stack) {
      forall i | 0 <= i < |stack| ensures |stack[i]| <= 0x200_0000 { assert TEXT.valid(stack[i]); }
    }
  }

  lemma NumbersFit(version: int, lockTime: nat)
    ensures Version().valid(version) <==> -0x8000_0000 <= version < 0x8000_0000
    ensures LockTime().valid(lockTime) <==> lockTime < 0x1_0000_0000
  {
    hide As, UInt;
    AsValid(UInt(4), ToInt32, FromInt32, version);
    NumberValid(version % 0x1_0000_0000);
    NumberValid(lockTime);
  }

  /** Exactly the transactions within the widths of their fields and within 2^25 elements everywhere. */
  lemma ValidIff(tx: Transaction)
    ensures Valid(tx)
            <==> -0x8000_0000 <= tx.version < 0x8000_0000 && tx.lockTime < 0x1_0000_0000
                 && |tx.vin| <= 0x200_0000 && |tx.vout| <= 0x200_0000
                 && (forall i :: 0 <= i < |tx.vin| ==> InputFits(tx.vin[i]) && StackFits(tx.vin[i].scriptWitness))
                 && (forall i :: 0 <= i < |tx.vout| ==> OutputFits(tx.vout[i]))
  {
    hide InputFits, OutputFits, StackFits, Version, LockTime, Stack;
    NumbersFit(tx.version, tx.lockTime);
    forall i | 0 <= i < |tx.vin|
      ensures INPUT.valid(Bare(tx.vin)[i]) <==> InputFits(tx.vin[i])
      ensures Stack().valid(Stacks(tx.vin)[i]) <==> StackFits(tx.vin[i].scriptWitness)
    {
      InputFitsIff(tx.vin[i]);
      StackFitsIff(tx.vin[i].scriptWitness);
    }
    forall i | 0 <= i < |tx.vout| ensures OUTPUT.valid(tx.vout[i]) <==> OutputFits(tx.vout[i]) {
      OutputFitsIff(tx.vout[i]);
    }
    assert Inputs().valid(Bare(tx.vin))
           <==> |tx.vin| <= 0x200_0000 && forall i :: 0 <= i < |tx.vin| ==> InputFits(tx.vin[i]) by {
      if Inputs().valid(Bare(tx.vin)) {
        forall i | 0 <= i < |tx.vin| ensures InputFits(tx.vin[i]) { assert INPUT.valid(Bare(tx.vin)[i]); }
      }
    }
  }
}
