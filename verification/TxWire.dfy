/** The wire format of transactions, with and without witness data. */
module TxWire {
  import opened Bytes
  import opened Serialize
  import opened Tx

  // ----- Fields -----

  const U32 := 0x1_0000_0000
  const U64 := 0x1_0000_0000_0000_0000

  function ToInt32(x: nat): int { if x < U32 / 2 then x else x - U32 }
  function FromInt32(v: int): nat { v % U32 }
  function ToInt64(x: nat): int { if x < U64 / 2 then x else x - U64 }
  function FromInt64(v: int): nat { v % U64 }

  const INT32 := As(UInt(4), ToInt32, FromInt32)
  const INT64 := As(UInt(8), ToInt64, FromInt64)

  function ToInput(x: (Bytes, (nat, (Bytes, nat)))): TxIn {
    TxIn(OutPoint(if |x.0| == 32 then x.0 else NULL_HASH, x.1.0), x.1.1.0, x.1.1.1, [])
  }

  function FromInput(v: TxIn): (Bytes, (nat, (Bytes, nat))) {
    (v.prevout.txid, (v.prevout.index, (v.scriptSig, v.sequence)))
  }

  /** An input without its witness. */
  const INPUT := As(Pair(Fixed(32), Pair(UInt(4), Pair(TEXT, UInt(4)))), ToInput, FromInput)

  function ToOutput(x: (int, Bytes)): TxOut { TxOut(x.0, x.1) }
  function FromOutput(v: TxOut): (int, Bytes) { (v.value, v.scriptPubKey) }

  const OUTPUT := As(Pair(INT64, TEXT), ToOutput, FromOutput)

  lemma Powers()
    ensures Pow256(4) == U32 && Pow256(8) == U64
  {
    assert Pow256(4) == U32;
  }

  lemma Int32IsOneToOne()
    ensures OneToOne(INT32)
  {
    Powers();
    UIntIsOneToOne(4);
    hide OneToOne, Pow256;
    AsIsOneToOne(UInt(4), ToInt32, FromInt32);
  }

  lemma Int64IsOneToOne()
    ensures OneToOne(INT64)
  {
    Powers();
    UIntIsOneToOne(8);
    hide OneToOne, Pow256;
    AsIsOneToOne(UInt(8), ToInt64, FromInt64);
  }

  lemma InputIsOneToOne()
    ensures OneToOne(INPUT)
  {
    hide OneToOne;
    TextIsOneToOne();
    UIntIsOneToOne(4);
    FixedIsOneToOne(32);
    PairIsOneToOne(TEXT, UInt(4));
    PairIsOneToOne(UInt(4), Pair(TEXT, UInt(4)));
    PairIsOneToOne(Fixed(32), Pair(UInt(4), Pair(TEXT, UInt(4))));
    AsIsOneToOne(Pair(Fixed(32), Pair(UInt(4), Pair(TEXT, UInt(4)))), ToInput, FromInput);
  }

  lemma OutputIsOneToOne()
    ensures OneToOne(OUTPUT)
  {
    hide OneToOne;
    TextIsOneToOne();
    Int64IsOneToOne();
    PairIsOneToOne(INT64, TEXT);
    AsIsOneToOne(Pair(INT64, TEXT), ToOutput, FromOutput);
  }

  function Version(): Codec<int> { INT32 }
  function LockTime(): Codec<nat> { UInt(4) }
  function Inputs(): Codec<seq<TxIn>> { Vector(INPUT) }
  function OutputList(): Codec<seq<TxOut>> { Vector(OUTPUT) }
  function Stack(): Codec<seq<Bytes>> { Vector(TEXT) }

  lemma FieldsAreOneToOne()
    ensures OneToOne(Version()) && OneToOne(LockTime()) && OneToOne(Inputs()) && OneToOne(OutputList())
    ensures OneToOne(Stack())
  {
    hide OneToOne;
    Int32IsOneToOne();
    UIntIsOneToOne(4);
    InputIsOneToOne();
    OutputIsOneToOne();
    TextIsOneToOne();
    VectorIsOneToOne(INPUT);
    VectorIsOneToOne(OUTPUT);
    VectorIsOneToOne(TEXT);
  }

  // ----- Witness data beside the inputs -----

  function Bare(vin: seq<TxIn>): (r: seq<TxIn>)
    ensures |r| == |vin|
  {
    seq(|vin|, i requires 0 <= i < |vin| => vin[i].(scriptWitness := []))
  }

  function Stacks(vin: seq<TxIn>): (r: seq<seq<Bytes>>)
    ensures |r| == |vin|
  {
    seq(|vin|, i requires 0 <= i < |vin| => vin[i].scriptWitness)
  }

  function Joined(vin: seq<TxIn>, stacks: seq<seq<Bytes>>): (r: seq<TxIn>)
    requires |vin| == |stacks|
    ensures |r| == |vin|
  {
    seq(|vin|, i requires 0 <= i < |vin| => vin[i].(scriptWitness := stacks[i]))
  }

  lemma JoinedIsWhole(vin: seq<TxIn>)
    ensures Joined(Bare(vin), Stacks(vin)) == vin
  {}

  lemma PartsOfJoined(vin: seq<TxIn>, stacks: seq<seq<Bytes>>)
    requires |vin| == |stacks| && Bare(vin) == vin
    ensures Bare(Joined(vin, stacks)) == vin && Stacks(Joined(vin, stacks)) == stacks
  {
    forall i | 0 <= i < |vin| ensures Bare(Joined(vin, stacks))[i] == vin[i] { assert Bare(vin)[i] == vin[i]; }
  }

  function Stripped(tx: Transaction): Transaction { tx.(vin := Bare(tx.vin)) }

  // ----- Transactions -----

  /** Everything within the sizes the reader takes. */
  predicate Valid(tx: Transaction) {
    Version().valid(tx.version) && LockTime().valid(tx.lockTime) && Inputs().valid(Bare(tx.vin))
    && OutputList().valid(tx.vout) && AllValid(Stack(), Stacks(tx.vin))
  }

  function WriteBody(vin: seq<TxIn>, vout: seq<TxOut>): Bytes { Inputs().write(vin) + OutputList().write(vout) }

  /** Everything between version and lock time. */
  function WriteInputs(tx: Transaction, allow: bool): Bytes {
    var body := WriteBody(Bare(tx.vin), tx.vout);
    if allow && tx.HasWitness() then [0, 1] + body + WriteAll(Stack(), Stacks(tx.vin)) else body
  }

  /** With witnesses allowed, a transaction that has one carries a marker, a flag and the stacks. */
  function Write(tx: Transaction, allow: bool): Bytes {
    Version().write(tx.version) + WriteInputs(tx, allow) + LockTime().write(tx.lockTime)
  }

  datatype Body = Body(vin: seq<TxIn>, vout: Outputs)

  function ReadBody(b: Bytes): Option<(Body, Bytes)> {
    match ReadPair(Inputs(), OutputList(), b)
    case None => None
    case Some(((vin, vout), rest)) => if |vout| < 0x8000_0000 then Some((Body(vin, vout), rest)) else None
  }

  /** After a zero input count: the flags, the real inputs and outputs, and the witness if flag 1 is set. */
  function ReadExtended(b: Bytes): Option<(Body, Bytes)> {
    if b == [] then None
    else if b[0] == 0 then Some((Body([], []), b[1..])) else
      match ReadBody(b[1..])
      case None => None
      case Some((body, rest)) =>
        if b[0] % 2 == 0 then Some((Body([], []), rest)) else
          match ReadAll(Stack(), |body.vin|, rest)
          case None => None
          case Some((stacks, rest)) =>
            Some((if b[0] == 1 then body.(vin := Joined(body.vin, stacks)) else Body([], []), rest))
  }

  function ReadInputs(b: Bytes, allow: bool): Option<(Body, Bytes)> {
    match Inputs().read(b)
    case None => None
    case Some((vin, rest)) => if vin == [] && allow then ReadExtended(rest) else ReadBody(b)
  }

  function ReadEnd(version: int, r: Option<(Body, Bytes)>): Option<(Transaction, Bytes)> {
    match r
    case None => None
    case Some((body, rest)) =>
      match LockTime().read(rest)
      case None => None
      case Some((lockTime, rest)) => Some((Transaction(version, body.vin, body.vout, lockTime), rest))
  }

  function Read(b: Bytes, allow: bool): Option<(Transaction, Bytes)> {
    match Version().read(b)
    case None => None
    case Some((version, rest)) => ReadEnd(version, ReadInputs(rest, allow))
  }

  // ----- Reading back -----

  lemma Back<T(!new)>(c: Codec<T>, v: T, rest: Bytes)
    requires OneToOne(c) && c.valid(v)
    ensures c.read(c.write(v) + rest) == Some((v, rest))
  {}

  lemma Forth<T(!new)>(c: Codec<T>, b: Bytes)
    requires OneToOne(c) && c.read(b).Some?
    ensures c.valid(c.read(b).value.0) && b == c.write(c.read(b).value.0) + c.read(b).value.1
  {}

  lemma BodyReadsBack(vin: seq<TxIn>, vout: Outputs, rest: Bytes)
    requires Inputs().valid(vin) && OutputList().valid(vout)
    ensures ReadBody(WriteBody(vin, vout) + rest) == Some((Body(vin, vout), rest))
    ensures Inputs().read(WriteBody(vin, vout) + rest).Some?
    ensures Inputs().read(WriteBody(vin, vout) + rest).value.0 == vin
  {
    hide Inputs, OutputList, OneToOne;
    FieldsAreOneToOne();
    var tail := OutputList().write(vout) + rest;
    assert WriteBody(vin, vout) + rest == Inputs().write(vin) + tail;
    Back(Inputs(), vin, tail);
    Back(OutputList(), vout, rest);
  }

  lemma BareInput(v: TxIn)
    requires INPUT.valid(v)
    ensures v.scriptWitness == []
  {
    assert ToInput(FromInput(v)) == v;
  }

  lemma BareInputs(vin: seq<TxIn>)
    requires Inputs().valid(vin)
    ensures Bare(vin) == vin
  {
    forall i | 0 <= i < |vin| ensures Bare(vin)[i] == vin[i] { BareInput(vin[i]); }
  }

  lemma BodyIsCanonical(b: Bytes)
    requires ReadBody(b).Some?
    ensures var (body, rest) := ReadBody(b).value;
            Inputs().valid(body.vin) && Bare(body.vin) == body.vin && OutputList().valid(body.vout)
            && b == WriteBody(body.vin, body.vout) + rest
  {
    hide Inputs, OutputList, OneToOne;
    FieldsAreOneToOne();
    Forth(Inputs(), b);
    Forth(OutputList(), Inputs().read(b).value.1);
    BareInputs(ReadBody(b).value.0.vin);
  }

  lemma NoInputs(rest: Bytes)
    ensures Inputs().read([0] + rest) == Some(([], rest))
  {
    assert ([0] + rest)[1..] == rest;
  }

  lemma ExtendedReadsBack(vin: seq<TxIn>, vout: Outputs, rest: Bytes)
    requires Inputs().valid(Bare(vin)) && OutputList().valid(vout) && AllValid(Stack(), Stacks(vin))
    ensures ReadInputs([0, 1] + WriteBody(Bare(vin), vout) + WriteAll(Stack(), Stacks(vin)) + rest, true)
            == Some((Body(vin, vout), rest))
  {
    hide Inputs, OutputList, Stack, ReadsBack, IsCanonical, ReadBody, WriteBody;
    FieldsAreOneToOne();
    var stacks := WriteAll(Stack(), Stacks(vin)) + rest;
    BodyReadsBack(Bare(vin), vout, stacks);
    AllReadBack(Stack(), Stacks(vin), rest);
    JoinedIsWhole(vin);
    MarkerSplits(WriteBody(Bare(vin), vout), WriteAll(Stack(), Stacks(vin)), rest);
    NoInputs([1] + (WriteBody(Bare(vin), vout) + stacks));
    hide AllValid, WriteAll, Bare, Stacks;
  }

  lemma MarkerSplits(body: Bytes, stacks: Bytes, rest: Bytes)
    ensures var tail := [1] + (body + (stacks + rest));
            [0, 1] + body + stacks + rest == [0] + tail && tail != [] && tail[0] == 1
                && tail[1..] == body + (stacks + rest)
  {}

  lemma Regroup(a: Bytes, b: Bytes, c: Bytes, d: Bytes)
    ensures a + b + c + d == a + (b + (c + d))
  {}

  lemma NoWitness(tx: Transaction)
    requires !tx.HasWitness()
    ensures Bare(tx.vin) == tx.vin
  {}

  lemma EmptyBody()
    ensures WriteBody([], []) == [0, 0]
  {}

  lemma InputsReadBack(tx: Transaction, allow: bool, rest: Bytes)
    requires Valid(tx) && (allow ==> tx.vin != [] || tx.vout == [])
    ensures ReadInputs(WriteInputs(tx, allow) + rest, allow)
            == Some((Body(if allow then tx.vin else Bare(tx.vin), tx.vout), rest))
  {
    hide Inputs, OutputList, Stack, WriteBody, ReadBody;
    if allow && tx.HasWitness() {
      ExtendedReadsBack(tx.vin, tx.vout, rest);
    } else {
      BodyReadsBack(Bare(tx.vin), tx.vout, rest);
      if !tx.HasWitness() { NoWitness(tx); }
      if allow && tx.vin == [] {
        EmptyBody();
        NoInputs([0] + rest);
        assert WriteInputs(tx, allow) + rest == [0] + ([0] + rest) && ([0] + rest)[1..] == rest;
      }
    }
  }

  lemma ReadSplits(version: int, mid: Bytes, lockTime: nat, rest: Bytes, allow: bool)
    requires Version().valid(version)
    ensures Read(Version().write(version) + mid + LockTime().write(lockTime) + rest, allow)
            == ReadEnd(version, ReadInputs(mid + (LockTime().write(lockTime) + rest), allow))
  {
    hide Version, LockTime, ReadInputs, ReadEnd, OneToOne;
    FieldsAreOneToOne();
    var tail := mid + (LockTime().write(lockTime) + rest);
    Regroup(Version().write(version), mid, LockTime().write(lockTime), rest);
    Back(Version(), version, tail);
  }

  /** A written transaction is read back, without its witness when witnesses are not written. */
  lemma WrittenIsRead(tx: Transaction, allow: bool, rest: Bytes)
    requires Valid(tx) && (allow ==> tx.vin != [] || tx.vout == [])
    ensures Read(Write(tx, allow) + rest, allow) == Some((if allow then tx else Stripped(tx), rest))
  {
    hide ReadInputs, WriteInputs, Read, Version, LockTime, OneToOne, Inputs, OutputList, Stack;
    FieldsAreOneToOne();
    InputsReadBack(tx, allow, LockTime().write(tx.lockTime) + rest);
    ReadSplits(tx.version, WriteInputs(tx, allow), tx.lockTime, rest, allow);
    Back(LockTime(), tx.lockTime, rest);
  }

  /** The bytes that are hashed to the transaction id do not depend on the witness, and determine the rest. */
  lemma IdentityIgnoresWitness(tx: Transaction, tx': Transaction)
    requires Valid(tx) && Valid(tx')
    ensures Write(tx, false) == Write(tx', false) <==> Stripped(tx) == Stripped(tx')
  {
    hide Read, Version, LockTime, Inputs, OutputList, Stack, WriteBody;
    WrittenIsRead(tx, false, []);
    WrittenIsRead(tx', false, []);
  }

  // ----- When reading back fails, and what else is accepted -----

  lemma FirstByteOfVector(n: nat)
    ensures WriteSize(n) != [] && (WriteSize(n)[0] == 0 <==> n == 0)
  {}

  lemma OutputsStart(vout: seq<TxOut>)
    requires vout != []
    ensures OutputList().write(vout) != [] && OutputList().write(vout)[0] != 0
  {
    FirstByteOfVector(|vout|);
  }

  lemma InputsStart(vin: seq<TxIn>)
    ensures Inputs().write(vin) != [] && (Inputs().write(vin)[0] == 0 <==> vin == [])
    ensures vin == [] ==> Inputs().write(vin) == [0]
  {
    FirstByteOfVector(|vin|);
  }

  /** What the extended reader took, if it returns any output. */
  lemma ExtendedBody(b: Bytes)
    requires ReadExtended(b).Some? && ReadExtended(b).value.0.vout != []
    ensures b != [] && b[0] == 1 && ReadBody(b[1..]).Some?
    ensures var (body, rest) := ReadExtended(b).value;
            var (inner, stacked) := ReadBody(b[1..]).value;
            inner.vout == body.vout && |inner.vin| == |body.vin| && (body.vin == [] ==> stacked == rest)
  {
    hide ReadBody, Stack;
  }

  lemma OutputsTakenForFlags(vout: Outputs, rest: Bytes)
    requires vout != []
    ensures ReadExtended(OutputList().write(vout) + rest) != Some((Body([], vout), rest))
  {
    hide Inputs, OutputList, ReadBody, ReadExtended;
    OutputsStart(vout);
    var b := OutputList().write(vout) + rest;
    if ReadExtended(b) == Some((Body([], vout), rest)) {
      ExtendedBody(b);
      BodyIsCanonical(b[1..]);
      InputsStart([]);
    }
  }

  /** A transaction with outputs but no inputs is the one kind that is not read back as itself. */
  lemma RoundTripIff(tx: Transaction, rest: Bytes)
    requires Valid(tx)
    ensures Read(Write(tx, true) + rest, true) == Some((tx, rest)) <==> tx.vin != [] || tx.vout == []
  {
    hide Version, LockTime, Inputs, OutputList, Stack, Read, ReadBody, ReadExtended, OneToOne;
    if tx.vin != [] || tx.vout == [] { WrittenIsRead(tx, true, rest); } else {
      FieldsAreOneToOne();
      InputsStart([]);
      var tail := LockTime().write(tx.lockTime) + rest;
      var outs := OutputList().write(tx.vout) + tail;
      ReadSplits(tx.version, WriteInputs(tx, true), tx.lockTime, rest, true);
      assert Bare(tx.vin) == [];
      assert WriteInputs(tx, true) + tail == [0] + outs;
      NoInputs(outs);
      OutputsTakenForFlags(tx.vout, tail);
      EndRead(ReadExtended(outs), tx, rest);
    }
  }

  lemma EndRead(r: Option<(Body, Bytes)>, tx: Transaction, rest: Bytes)
    ensures ReadEnd(tx.version, r) == Some((tx, rest))
            ==> r == Some((Body(tx.vin, tx.vout), LockTime().write(tx.lockTime) + rest))
                && LockTime().valid(tx.lockTime)
  {
    hide LockTime, OneToOne;
    FieldsAreOneToOne();
    if r.Some? && LockTime().read(r.value.1).Some? { Forth(LockTime(), r.value.1); }
  }

  /** Version bytes, then a zero input count and a nonzero flag: the extended format. */
  predicate Extended(b: Bytes) { |b| > 5 && b[4] == 0 && b[5] != 0 }

  lemma Read4Write4(b: Bytes, rest: Bytes, version: int)
    requires Version().read(b) == Some((version, rest))
    ensures Version().valid(version) && b == Version().write(version) + rest && |Version().write(version)| == 4
  {
    FieldsAreOneToOne();
    hide OneToOne;
    Forth(Version(), b);
  }

  /** Inputs and outputs as read from the extended format after the marker. */
  lemma ExtendedIsCanonical(b: Bytes, body: Body, rest: Bytes)
    requires ReadExtended(b) == Some((body, rest))
    ensures b != []
    ensures b[0] == 0 ==> body == Body([], []) && b == [0] + rest
    ensures b[0] > 1 ==> body == Body([], [])
    ensures b[0] == 1 ==>
              Inputs().valid(Bare(body.vin)) && OutputList().valid(body.vout) && AllValid(Stack(), Stacks(body.vin)) &&
              b == [1] + (WriteBody(Bare(body.vin), body.vout) + (WriteAll(Stack(), Stacks(body.vin)) + rest))
  {
    hide Inputs, OutputList, Stack, ReadBody, WriteBody, ReadsBack, IsCanonical;
    assert b == [b[0]] + b[1..];
    if b[0] == 1 {
      FieldsAreOneToOne();
      BodyIsCanonical(b[1..]);
      var (inner, stacked) := ReadBody(b[1..]).value;
      AllCanonical(Stack(), |inner.vin|, stacked);
      PartsOfJoined(inner.vin, ReadAll(Stack(), |inner.vin|, stacked).value.0);
    }
  }

  lemma BareHasNoWitness(tx: Transaction)
    requires Bare(tx.vin) == tx.vin
    ensures !tx.HasWitness()
  {
    forall i | 0 <= i < |tx.vin| ensures tx.vin[i].scriptWitness == [] { assert Bare(tx.vin)[i] == tx.vin[i]; }
  }

  lemma LegacyAccepted(mid: Bytes, tx: Transaction, end: Bytes)
    requires ReadBody(mid) == Some((Body(tx.vin, tx.vout), end)) && tx.vin != []
    ensures mid == WriteInputs(tx, true) + end && mid != [] && mid[0] != 0
  {
    hide Inputs, OutputList, ReadBody, Stack;
    BodyIsCanonical(mid);
    BareHasNoWitness(tx);
    InputsStart(tx.vin);
  }

  lemma EmptyAccepted(tx: Transaction)
    requires tx.vin == [] && tx.vout == []
    ensures WriteInputs(tx, true) == [0, 0]
  {
    assert Bare(tx.vin) == [];
    EmptyBody();
  }

  lemma FlagAccepted(mid: Bytes, r: Bytes, tx: Transaction, end: Bytes)
    requires mid == [0] + r && ReadExtended(r) == Some((Body(tx.vin, tx.vout), end))
    ensures r != [] && (mid == WriteInputs(tx, true) + end <==> (r[0] != 0 ==> r[0] == 1 && tx.HasWitness()))
  {
    hide Inputs, OutputList, Stack, ReadExtended, WriteBody;
    ExtendedIsCanonical(r, Body(tx.vin, tx.vout), end);
    if r[0] != 1 {
      EmptyAccepted(tx);
      assert [0] + ([0] + end) == [0, 0] + end;
      assert mid[1] == r[0] && ([0, 0] + end)[1] == 0;
    } else {
      MarkerSplits(WriteBody(Bare(tx.vin), tx.vout), WriteAll(Stack(), Stacks(tx.vin)), end);
    }
  }

  /** An accepted byte string is the one written exactly when, in the extended format, the flag is 1 and what was
      read has a witness. */
  lemma AcceptedWithWitness(b: Bytes, tx: Transaction, rest: Bytes)
    requires Read(b, true) == Some((tx, rest))
    ensures b == Write(tx, true) + rest <==> (Extended(b) ==> b[5] == 1 && tx.HasWitness())
  {
    hide Version, LockTime, Inputs, OutputList, Stack, ReadBody, ReadExtended, OneToOne, WriteInputs;
    FieldsAreOneToOne();
    var (version, mid) := Version().read(b).value;
    var end := LockTime().write(tx.lockTime) + rest;
    Read4Write4(b, mid, version);
    EndRead(ReadInputs(mid, true), tx, rest);
    var (vin, r) := Inputs().read(mid).value;
    Forth(Inputs(), mid);
    InputsStart(vin);
    Regroup(Version().write(version), WriteInputs(tx, true), LockTime().write(tx.lockTime), rest);
    assert b[4..] == mid && (Write(tx, true) + rest)[4..] == WriteInputs(tx, true) + end;
    if vin != [] {
      FirstInputs(mid);
      LegacyAccepted(mid, tx, end);
    } else {
      FlagAccepted(mid, r, tx, end);
    }
  }

  lemma FirstInputs(b: Bytes)
    requires ReadBody(b).Some?
    ensures Inputs().read(b).Some? && Inputs().read(b).value.0 == ReadBody(b).value.0.vin
  {}

  // ----- Superfluous and unknown flags, on the bytes -----

  /** As many empty witness stacks. */
  function NoStacks(n: nat): (r: Bytes)
    ensures |r| == n
  {
    seq(n, _ => 0)
  }

  /** After the marker and flag 1 come inputs, outputs and nothing but empty witness stacks. */
  ghost predicate Superfluous(b: Bytes) {
    |b| >= 6 && exists vin: seq<TxIn>, vout: Outputs, end: Bytes ::
      Inputs().valid(vin) && OutputList().valid(vout) && b[6..] == WriteBody(vin, vout) + (NoStacks(|vin|) + end)
  }

  function EmptyStacks(n: nat): (r: seq<seq<Bytes>>)
    ensures |r| == n
  {
    seq(n, _ => [])
  }

  lemma {:induction false} EmptyStacksWritten(n: nat)
    ensures WriteAll(Stack(), EmptyStacks(n)) == NoStacks(n) && AllValid(Stack(), EmptyStacks(n))
  {
    if n > 0 {
      EmptyStacksWritten(n - 1);
      assert EmptyStacks(n)[1..] == EmptyStacks(n - 1);
      assert Stack().write([]) == [0];
      hide Stack;
      assert NoStacks(n) == [0] + NoStacks(n - 1);
    }
  }

  lemma WitnessMeans(vin: seq<TxIn>, tx: Transaction)
    requires tx.vin == vin
    ensures tx.HasWitness() <==> Stacks(vin) != EmptyStacks(|vin|)
  {
    if Stacks(vin) == EmptyStacks(|vin|) {
      forall i | 0 <= i < |vin| ensures vin[i].scriptWitness == [] { assert Stacks(vin)[i] == EmptyStacks(|vin|)[i]; }
    }
    if !tx.HasWitness() { assert Stacks(vin) == EmptyStacks(|vin|); }
  }

  /** Whether what was read after flag 1 has a witness shows in the bytes. */
  lemma SuperfluousIff(b: Bytes, tx: Transaction, end: Bytes)
    requires |b| >= 6 && b[5] == 1 && ReadExtended(b[5..]) == Some((Body(tx.vin, tx.vout), end))
    ensures Superfluous(b) <==> !tx.HasWitness()
  {
    hide Inputs, OutputList, Stack, ReadExtended, WriteBody, ReadBody, ReadsBack, IsCanonical;
    var n := |tx.vin|;
    ExtendedIsCanonical(b[5..], Body(tx.vin, tx.vout), end);
    assert b[5..][1..] == b[6..];
    var body, stacks := WriteBody(Bare(tx.vin), tx.vout), WriteAll(Stack(), Stacks(tx.vin));
    assert b[6..] == body + (stacks + end);
    WitnessMeans(tx.vin, tx);
    EmptyStacksWritten(n);
    if Superfluous(b) {
      var vin: seq<TxIn>, vout: Outputs, end': Bytes :|
        Inputs().valid(vin) && OutputList().valid(vout) && b[6..] == WriteBody(vin, vout) + (NoStacks(|vin|) + end');
      BodyReadsBack(vin, vout, NoStacks(|vin|) + end');
      BodyReadsBack(Bare(tx.vin), tx.vout, stacks + end);
      FieldsAreOneToOne();
      AllReadBack(Stack(), Stacks(tx.vin), end);
      AllReadBack(Stack(), EmptyStacks(n), end');
    }
  }

  /** Reading accepts more than writing produces: an accepted byte string is the one written exactly when, in the
      extended format, the flag is 1 and the stacks are not all empty. */
  lemma AcceptedIff(b: Bytes, tx: Transaction, rest: Bytes)
    requires Read(b, true) == Some((tx, rest))
    ensures b == Write(tx, true) + rest <==> (Extended(b) ==> b[5] == 1 && !Superfluous(b))
  {
    hide Version, LockTime, Inputs, OutputList, Stack, ReadBody, ReadExtended, OneToOne, WriteInputs, Superfluous;
    AcceptedWithWitness(b, tx, rest);
    if Extended(b) && b[5] == 1 {
      var (version, mid) := Version().read(b).value;
      Read4Write4(b, mid, version);
      NoInputs(b[5..]);
      assert mid == b[4..] == [0] + b[5..];
      EndRead(ReadInputs(mid, true), tx, rest);
      SuperfluousIff(b, tx, LockTime().write(tx.lockTime) + rest);
    }
  }

  // ----- Byte strings that are accepted and never written -----

  /** A transaction in the extended format under any flag byte. */
  function Flagged(version: int, flag: byte, vin: seq<TxIn>, vout: seq<TxOut>, stacks: seq<seq<Bytes>>,
                   lockTime: nat): Bytes {
    Version().write(version) + ([0, flag] + WriteBody(vin, vout) + WriteAll(Stack(), stacks))
    + LockTime().write(lockTime)
  }

  predicate ValidParts(version: int, vin: seq<TxIn>, vout: Outputs, stacks: seq<seq<Bytes>>, lockTime: nat) {
    Version().valid(version) && Inputs().valid(vin) && OutputList().valid(vout) && AllValid(Stack(), stacks)
    && LockTime().valid(lockTime)
  }

  lemma FlagSplits(flag: byte, body: Bytes, stacks: Bytes, rest: Bytes)
    ensures var tail := [flag] + (body + (stacks + rest));
            [0, flag] + body + stacks + rest == [0] + tail && tail[0] == flag && tail[1..] == body + (stacks + rest)
  {}

  lemma UnknownFlagDropped(flag: byte, vin: seq<TxIn>, vout: Outputs, stacks: seq<seq<Bytes>>, end: Bytes)
    requires Inputs().valid(vin) && OutputList().valid(vout) && AllValid(Stack(), stacks)
    requires flag > 1 && |stacks| == if flag % 2 == 1 then |vin| else 0
    ensures ReadInputs([0, flag] + WriteBody(vin, vout) + WriteAll(Stack(), stacks) + end, true)
            == Some((Body([], []), end))
  {
    hide Inputs, OutputList, Stack, ReadBody, WriteBody;
    var body, all := WriteBody(vin, vout), WriteAll(Stack(), stacks);
    FlagSplits(flag, body, all, end);
    NoInputs([flag] + (body + (all + end)));
    BodyReadsBack(vin, vout, all + end);
    if flag % 2 == 1 { StacksReadBack(stacks, end); } else { assert all == [] && all + end == end; }
  }

  /** Any other flag byte is accepted, and the inputs and outputs behind it are dropped; the witness is read, and
      dropped, if the flag is odd. */
  lemma UnknownFlagAccepted(version: int, flag: byte, vin: seq<TxIn>, vout: Outputs, stacks: seq<seq<Bytes>>,
                            lockTime: nat, rest: Bytes)
    requires ValidParts(version, vin, vout, stacks, lockTime) && flag > 1
    requires |stacks| == if flag % 2 == 1 then |vin| else 0
    ensures var b, tx := Flagged(version, flag, vin, vout, stacks, lockTime) + rest,
                         Transaction(version, [], [], lockTime);
            Read(b, true) == Some((tx, rest)) && b != Write(tx, true) + rest
  {
    hide Version, LockTime, Inputs, OutputList, Stack, ReadInputs, WriteBody, OneToOne, Read, AllValid, WriteAll;
    FieldsAreOneToOne();
    var b, tx := Flagged(version, flag, vin, vout, stacks, lockTime) + rest, Transaction(version, [], [], lockTime);
    var body, all := WriteBody(vin, vout), WriteAll(Stack(), stacks);
    var end := LockTime().write(lockTime) + rest;
    ReadSplits(version, [0, flag] + body + all, lockTime, rest, true);
    UnknownFlagDropped(flag, vin, vout, stacks, end);
    Back(LockTime(), lockTime, rest);
    FlagPosition(version, flag, body + all, end);
    assert b == Version().write(version) + ([0, flag] + (body + all) + end);
    AcceptedWithWitness(b, tx, rest);
  }

  lemma StacksReadBack(stacks: seq<seq<Bytes>>, rest: Bytes)
    requires AllValid(Stack(), stacks)
    ensures ReadAll(Stack(), |stacks|, WriteAll(Stack(), stacks) + rest) == Some((stacks, rest))
  {
    FieldsAreOneToOne();
    hide Stack;
    AllReadBack(Stack(), stacks, rest);
  }

  lemma FlagPosition(version: int, flag: byte, mid: Bytes, end: Bytes)
    ensures var b := Version().write(version) + ([0, flag] + mid + end); |b| >= 6 && b[4] == 0 && b[5] == flag
  {
    assert Version().write(version) == INT32.write(version) == UInt(4).write(FromInt32(version))
            == Le(FromInt32(version), 4);
  }

  /** Flag 1 with nothing but empty stacks is accepted as the same transaction without a witness. */
  lemma SuperfluousAccepted(version: int, vin: seq<TxIn>, vout: Outputs, lockTime: nat, rest: Bytes)
    requires ValidParts(version, vin, vout, [], lockTime)
    ensures var b, tx := Flagged(version, 1, vin, vout, EmptyStacks(|vin|), lockTime) + rest,
                         Transaction(version, vin, vout, lockTime);
            Read(b, true) == Some((tx, rest)) && Superfluous(b) && b != Write(tx, true) + rest
  {
    hide Version, LockTime, Inputs, OutputList, Stack, ReadBody, WriteBody, OneToOne, Read, Superfluous;
    var tx, stacks := Transaction(version, vin, vout, lockTime), EmptyStacks(|vin|);
    var b := Flagged(version, 1, vin, vout, stacks, lockTime) + rest;
    var body, all := WriteBody(vin, vout), WriteAll(Stack(), stacks);
    var end := LockTime().write(lockTime) + rest;
    FieldsAreOneToOne();
    BareInputs(vin);
    BareHasNoWitness(tx);
    EmptyStacksWritten(|vin|);
    WitnessMeans(vin, tx);
    ExtendedReadsBack(vin, vout, end);
    ReadSplits(version, [0, 1] + body + all, lockTime, rest, true);
    Back(LockTime(), lockTime, rest);
    FlagPosition(version, 1, body + all, end);
    assert b == Version().write(version) + ([0, 1] + (body + all) + end);
    AcceptedWithWitness(b, tx, rest);
    AcceptedIff(b, tx, rest);
  }

  // ----- One of each -----

  lemma HeadAndTail()
    ensures Version().valid(1) && LockTime().valid(7)
    ensures Version().write(1) == [1, 0, 0, 0] && LockTime().write(7) == [7, 0, 0, 0]
  {
    Powers();
    assert Version().valid(1) == INT32.valid(1) == UInt(4).valid(FromInt32(1));
    assert Version().write(1) == INT32.write(1) == UInt(4).write(FromInt32(1)) == Le(1, 4);
  }

  lemma NothingIsValid()
    ensures ValidParts(1, [], [], [], 7)
  {
    HeadAndTail();
    hide Version, LockTime, Pow256;
  }

  /** Version 1, flag 2, no inputs, no outputs, lock time 7. */
  lemma UnknownFlagExample()
    ensures Read([1, 0, 0, 0, 0, 2, 0, 0, 7, 0, 0, 0], true) == Some((Transaction(1, [], [], 7), []))
    ensures [1, 0, 0, 0, 0, 2, 0, 0, 7, 0, 0, 0] != Write(Transaction(1, [], [], 7), true)
  {
    hide Version, LockTime, Inputs, OutputList, Stack, Read, Write, WriteBody;
    NothingIsValid();
    HeadAndTail();
    EmptyBody();
    UnknownFlagAccepted(1, 2, [], [], [], 7, []);
    assert Flagged(1, 2, [], [], [], 7) + [] == [1, 0, 0, 0, 0, 2, 0, 0, 7, 0, 0, 0];
    assert Write(Transaction(1, [], [], 7), true) + [] == Write(Transaction(1, [], [], 7), true);
  }

  const FIRST := TxIn(OutPoint(NULL_HASH, 0), [], 0, [])

  lemma FirstIsValid()
    ensures ValidParts(1, [FIRST], [], [], 7)
  {
    HeadAndTail();
    hide Version, LockTime;
    assert FromInput(FIRST) == (NULL_HASH, (0, ([], 0))) && ToInput(FromInput(FIRST)) == FIRST;
    assert UInt(4).valid(0) && TEXT.valid([]) && Fixed(32).valid(NULL_HASH);
    assert INPUT.valid(FIRST);
  }

  /** One input, flag 1 and an empty witness. */
  lemma SuperfluousExample()
    ensures var b, tx := Flagged(1, 1, [FIRST], [], [[]], 7), Transaction(1, [FIRST], [], 7);
            Read(b, true) == Some((tx, [])) && b != Write(tx, true)
  {
    hide Version, LockTime, Inputs, OutputList, Stack, Read, Write, Flagged;
    FirstIsValid();
    SuperfluousAccepted(1, [FIRST], [], 7, []);
    assert EmptyStacks(1) == [[]];
    var b, tx := Flagged(1, 1, [FIRST], [], [[]], 7), Transaction(1, [FIRST], [], 7);
    assert b + [] == b && Write(tx, true) + [] == Write(tx, true);
  }

  lemma OutputIsValid(v: TxOut)
    requires v == TxOut(0, [])
    ensures OUTPUT.valid(v)
  {
    var pair: Codec<(int, Bytes)> := Pair(INT64, TEXT);
    assert UInt(8).valid(FromInt64(0)) && ToInt64(FromInt64(0)) == 0;
    assert INT64.valid(0) && TEXT.valid([]) && pair.valid((0, []));
    assert FromOutput(v) == (0, []) && ToOutput(FromOutput(v)) == v;
  }

  /** An output without an input: written, and not read back. */
  lemma OutputAloneExample()
    ensures var tx := Transaction(1, [], [TxOut(0, [])], 7); Valid(tx) && Read(Write(tx, true), true) != Some((tx, []))
  {
    var tx := Transaction(1, [], [TxOut(0, [])], 7);
    HeadAndTail();
    OutputIsValid(tx.vout[0]);
    hide Version, LockTime;
    assert Valid(tx);
    hide Read, Write, Valid;
    RoundTripIff(tx, []);
    assert Write(tx, true) + [] == Write(tx, true);
  }
}
