/** Texts letter by letter: the address the miner pays to, and two of the test vectors of BIP 173. */
module AddressExamples {
  import opened Bytes
  import opened Bits
  import opened Bech32Code
  import opened Bech32Errors
  import opened Bech32
  import opened Bech32Text
  import opened ConvertBits
  import opened Address
  import Standard

  function Letters(s: string): (b: Bytes)
    requires forall i :: 0 <= i < |s| ==> s[i] as int < 256
    ensures |b| == |s| && forall i :: 0 <= i < |s| ==> b[i] == s[i] as int
  {
    seq(|s|, i requires 0 <= i < |s| => s[i] as int)
  }

  // ----- Running the checksum four symbols at a time -----

  function FourSteps(c: Word, a: Symbol, b: Symbol, d: Symbol, e: Symbol): Word {
    Step(Step(Step(Step(c, a), b), d), e)
  }

  lemma NoSymbols(c: Word)
    ensures Run(c, Syms([])) == c
  {}

  lemma OneMore(c: Word, v: seq<Value>, x: Value)
    ensures Run(c, Syms(v + [x])) == Step(Run(c, Syms(v)), SymOf(x))
  {
    hide Step, SymOf;
    assert Syms(v + [x])[..|v|] == Syms(v);
  }

  lemma FourMore(c: Word, v: seq<Value>, w: seq<Value>)
    requires |w| == 4
    ensures Run(c, Syms(v + w)) == FourSteps(Run(c, Syms(v)), SymOf(w[0]), SymOf(w[1]), SymOf(w[2]), SymOf(w[3]))
  {
    hide Step, Run, SymOf;
    OneMore(c, v, w[0]);
    OneMore(c, v + [w[0]], w[1]);
    OneMore(c, v + [w[0]] + [w[1]], w[2]);
    OneMore(c, v + [w[0]] + [w[1]] + [w[2]], w[3]);
    assert v + w == v + [w[0]] + [w[1]] + [w[2]] + [w[3]];
  }

  lemma RunsOn(c: Word, u: seq<Value>, v: seq<Value>)
    ensures Run(c, Syms(u + v)) == Run(Run(c, Syms(u)), Syms(v))
  {
    hide Run, SymOf;
    SymsConcat(u, v);
    RunConcat(c, Syms(u), Syms(v));
  }

  // ----- Reading digits four at a time -----

  lemma NoDigits(w: nat)
    ensures Num([], w) == 0
  {}

  lemma Bases()
    ensures Pow2(5) == 32 && Pow2(8) == 256 && Pow2(0) == 1
  {}

  lemma FourDigits(v: seq<nat>, a: nat, b: nat, c: nat, d: nat, w: nat, p: nat)
    requires p == Pow2(w)
    ensures Num(v + [a, b, c, d], w) == (((Num(v, w) * p + a) * p + b) * p + c) * p + d
  {
    hide Pow2, Num;
    NumSnoc(v, a, w);
    NumSnoc(v + [a], b, w);
    NumSnoc(v + [a] + [b], c, w);
    NumSnoc(v + [a] + [b] + [c], d, w);
    assert v + [a, b, c, d] == v + [a] + [b] + [c] + [d];
  }

  lemma Spelled(name: Bytes, values: seq<Value>, s: string, k: nat)
    requires k == |name| + 1 && |s| == k + |values|
    requires (forall i :: 0 <= i < |name| ==> s[i] as int == name[i]) && s[|name|] == '1'
    requires forall i :: 0 <= i < |values| ==> s[i + k] as int == CharOf(values[i])
    ensures (forall i :: 0 <= i < |s| ==> s[i] as int < 256)
    ensures name + [SEPARATOR] + Chars(values) == Letters(s)
  {
    hide CharOf;
    forall i | 0 <= i < |s| ensures s[i] as int == (name + [SEPARATOR] + Chars(values))[i] {
      if i >= k {
        var j := i - k;
        assert s[j + k] as int == CharOf(values[j]);
      }
    }
  }

  lemma SymbolsAre()
    ensures SymOf(0) == 0 && SymOf(1) == 1 && SymOf(2) == 2 && SymOf(3) == 3 && SymOf(4) == 4 && SymOf(5) == 5
    ensures SymOf(6) == 6 && SymOf(7) == 7 && SymOf(8) == 8 && SymOf(9) == 9 && SymOf(10) == 10 && SymOf(11) == 11
    ensures SymOf(12) == 12 && SymOf(13) == 13 && SymOf(14) == 14 && SymOf(15) == 15 && SymOf(16) == 16
    ensures SymOf(17) == 17 && SymOf(18) == 18 && SymOf(19) == 19 && SymOf(20) == 20 && SymOf(21) == 21
    ensures SymOf(22) == 22 && SymOf(23) == 23 && SymOf(24) == 24 && SymOf(25) == 25 && SymOf(26) == 26
    ensures SymOf(27) == 27 && SymOf(28) == 28 && SymOf(29) == 29 && SymOf(30) == 30 && SymOf(31) == 31
  {}

  // ----- The miner's address -----

  const MINER_TEXT := "bcrt1qwgnsjmzlrtmf27z2f20shhlr70vgfzuq554ssd"
  const MINER_PROGRAM: Hash20 := [114, 39, 9, 108] + [95, 26, 246, 149] + [120, 74, 74, 159] + [11, 223, 227,
      243] + [216, 132, 139, 128]
  const MINER_DIGITS: seq<Value> := [14, 8, 19, 16] + [18, 27, 2, 31] + [3, 11, 27, 9] + [10, 30, 2, 10]
      + [9, 10, 15, 16] + [23, 23, 31, 3] + [30, 15, 12, 8] + [9, 2, 28, 0]
  const MINER_SIX: seq<Value> := [20, 20, 21, 16, 16, 13]

  lemma MinerNameLegs()
    ensures FourSteps(0x1, 3, 3, 3, 3) == 0x118c63
    ensures FourSteps(0x118c63, 0, 2, 3, 18) == 0x3dc6913f
    ensures Step(0x3dc6913f, 20) == 0x1775e10d
  {}

  lemma MinerStarts()
    ensures Run(0x1, Syms([3, 3, 3, 3, 0, 2, 3, 18, 20])) == 0x1775e10d
  {
    hide FourSteps, Step, Run, SymOf;
    SymbolsAre();
    MinerNameLegs();
    NoSymbols(0x1);
    var w0: seq<Value> := [];
    var w1 := w0 + [3, 3, 3, 3];
    FourMore(0x1, w0, [3, 3, 3, 3]);
    var w2 := w1 + [0, 2, 3, 18];
    FourMore(0x1, w1, [0, 2, 3, 18]);
    var w3 := w2 + [20];
    OneMore(0x1, w2, 20);
    assert w3 == [3, 3, 3, 3, 0, 2, 3, 18, 20];
  }

  lemma MinerVersionLeg()
    ensures Step(0x1775e10d, 0) == 0xec4cba2
  {}

  lemma MinerVersion()
    ensures Run(0x1775e10d, Syms([0])) == 0xec4cba2
  {
    hide Step, Run, SymOf;
    SymbolsAre();
    MinerVersionLeg();
    NoSymbols(0x1775e10d);
    OneMore(0x1775e10d, [], 0);
    assert [] + [0] == [0];
  }

  lemma MinerLeg1()
    ensures FourSteps(0xec4cba2, 14, 8, 19, 16) == 0x702809f
    ensures FourSteps(0x702809f, 18, 27, 2, 31) == 0x1b0312c1
  {}

  lemma MinerLeg2()
    ensures FourSteps(0x1b0312c1, 3, 11, 27, 9) == 0x330fd093
    ensures FourSteps(0x330fd093, 10, 30, 2, 10) == 0x113ffd95
  {}

  lemma MinerLeg3()
    ensures FourSteps(0x113ffd95, 9, 10, 15, 16) == 0x1a70958e
    ensures FourSteps(0x1a70958e, 23, 23, 31, 3) == 0x3af81bf4
  {}

  lemma MinerLeg4()
    ensures FourSteps(0x3af81bf4, 30, 15, 12, 8) == 0x261f3bcd
    ensures FourSteps(0x261f3bcd, 9, 2, 28, 0) == 0x8de87c
  {}

  lemma MinerProgram()
    ensures Run(0xec4cba2, Syms(MINER_DIGITS)) == 0x8de87c
  {
    hide FourSteps, Step, Run, SymOf;
    SymbolsAre();
    MinerLeg1();
    MinerLeg2();
    MinerLeg3();
    MinerLeg4();
    NoSymbols(0xec4cba2);
    var w0: seq<Value> := [];
    var w1 := w0 + [14, 8, 19, 16];
    FourMore(0xec4cba2, w0, [14, 8, 19, 16]);
    var w2 := w1 + [18, 27, 2, 31];
    FourMore(0xec4cba2, w1, [18, 27, 2, 31]);
    var w3 := w2 + [3, 11, 27, 9];
    FourMore(0xec4cba2, w2, [3, 11, 27, 9]);
    var w4 := w3 + [10, 30, 2, 10];
    FourMore(0xec4cba2, w3, [10, 30, 2, 10]);
    var w5 := w4 + [9, 10, 15, 16];
    FourMore(0xec4cba2, w4, [9, 10, 15, 16]);
    var w6 := w5 + [23, 23, 31, 3];
    FourMore(0xec4cba2, w5, [23, 23, 31, 3]);
    var w7 := w6 + [30, 15, 12, 8];
    FourMore(0xec4cba2, w6, [30, 15, 12, 8]);
    var w8 := w7 + [9, 2, 28, 0];
    FourMore(0xec4cba2, w7, [9, 2, 28, 0]);
    assert w8 == MINER_DIGITS;
  }

  lemma MinerLastLeg()
    ensures FourSteps(0x8de87c, 20, 20, 21, 16) == 0x3f9ba724
    ensures Step(0x3f9ba724, 16) == 0x27b975db
    ensures Step(0x27b975db, 13) == 0x1
  {}

  lemma MinerLast()
    ensures Run(0x8de87c, Syms(MINER_SIX)) == 0x1
  {
    hide FourSteps, Step, Run, SymOf;
    SymbolsAre();
    MinerLastLeg();
    NoSymbols(0x8de87c);
    var w0: seq<Value> := [];
    var w1 := w0 + [20, 20, 21, 16];
    FourMore(0x8de87c, w0, [20, 20, 21, 16]);
    var w2 := w1 + [16];
    OneMore(0x8de87c, w1, 16);
    var w3 := w2 + [13];
    OneMore(0x8de87c, w2, 13);
    assert w3 == MINER_SIX;
  }

  lemma MinerIsValid()
    ensures ValidChecksum(HRP, [0] + MINER_DIGITS + MINER_SIX)
  {
    hide Run, SymOf;
    assert Expanded(HRP) == [3, 3, 3, 3, 0, 2, 3, 18, 20];
    MinerStarts();
    MinerVersion();
    MinerProgram();
    MinerLast();
    RunsOn(0x1775e10d, [0], MINER_DIGITS);
    RunsOn(0x1775e10d, [0] + MINER_DIGITS, MINER_SIX);
  }

  lemma MinerSpells1(i: nat)
    requires 0 <= i < 11
    ensures MINER_TEXT[i + 5] as int == CharOf(([0] + MINER_DIGITS + MINER_SIX)[i])
  {
    assert i == 0 || i == 1 || i == 2 || i == 3 || i == 4 || i == 5 || i == 6 || i == 7 || i == 8 || i == 9 || i == 10;
  }

  lemma MinerSpells2(i: nat)
    requires 11 <= i < 22
    ensures MINER_TEXT[i + 5] as int == CharOf(([0] + MINER_DIGITS + MINER_SIX)[i])
  {
    assert i == 11 || i == 12 || i == 13 || i == 14 || i == 15 || i == 16 || i == 17 || i == 18 || i == 19 || i == 20
            || i == 21;
  }

  lemma MinerSpells3(i: nat)
    requires 22 <= i < 33
    ensures MINER_TEXT[i + 5] as int == CharOf(([0] + MINER_DIGITS + MINER_SIX)[i])
  {
    assert i == 22 || i == 23 || i == 24 || i == 25 || i == 26 || i == 27 || i == 28 || i == 29 || i == 30 || i == 31
            || i == 32;
  }

  lemma MinerSpells4(i: nat)
    requires 33 <= i < 39
    ensures MINER_TEXT[i + 5] as int == CharOf(([0] + MINER_DIGITS + MINER_SIX)[i])
  {
    assert i == 33 || i == 34 || i == 35 || i == 36 || i == 37 || i == 38;
  }

  lemma MinerIsSpelled()
    ensures |MINER_TEXT| == 44 && forall i :: 0 <= i < 44 ==> MINER_TEXT[i] as int < 256
    ensures HRP + [SEPARATOR] + Chars([0] + MINER_DIGITS + MINER_SIX) == Letters(MINER_TEXT)
  {
    hide CharOf, Chars, Letters;
    forall i | 0 <= i < 39 ensures MINER_TEXT[i + 5] as int == CharOf(([0] + MINER_DIGITS + MINER_SIX)[i]) {
      if i < 11 { MinerSpells1(i); } else if i < 22 { MinerSpells2(i); }
      else if i < 33 { MinerSpells3(i); } else { MinerSpells4(i); }
    }
    Spelled(HRP, [0] + MINER_DIGITS + MINER_SIX, MINER_TEXT, 5);
  }

  lemma MinerDigits()
    ensures Num(MINER_DIGITS, 5) == 0x7227096c5f1af695784a4a9f0bdfe3f3d8848b80
  {
    hide Num, Pow2;
    NoDigits(5);
    Bases();
    var w0: seq<nat> := [];
    FourDigits(w0, 14, 8, 19, 16, 5, 32);
    var w1 := w0 + [14, 8, 19, 16];
    FourDigits(w1, 18, 27, 2, 31, 5, 32);
    var w2 := w1 + [18, 27, 2, 31];
    FourDigits(w2, 3, 11, 27, 9, 5, 32);
    var w3 := w2 + [3, 11, 27, 9];
    FourDigits(w3, 10, 30, 2, 10, 5, 32);
    var w4 := w3 + [10, 30, 2, 10];
    FourDigits(w4, 9, 10, 15, 16, 5, 32);
    var w5 := w4 + [9, 10, 15, 16];
    FourDigits(w5, 23, 23, 31, 3, 5, 32);
    var w6 := w5 + [23, 23, 31, 3];
    FourDigits(w6, 30, 15, 12, 8, 5, 32);
    var w7 := w6 + [30, 15, 12, 8];
    FourDigits(w7, 9, 2, 28, 0, 5, 32);
    var w8 := w7 + [9, 2, 28, 0];
    assert w8 == MINER_DIGITS;
  }

  lemma MinerBytes()
    ensures Num(MINER_PROGRAM, 8) == 0x7227096c5f1af695784a4a9f0bdfe3f3d8848b80
  {
    hide Num, Pow2;
    NoDigits(8);
    Bases();
    var w0: seq<nat> := [];
    FourDigits(w0, 114, 39, 9, 108, 8, 256);
    var w1 := w0 + [114, 39, 9, 108];
    FourDigits(w1, 95, 26, 246, 149, 8, 256);
    var w2 := w1 + [95, 26, 246, 149];
    FourDigits(w2, 120, 74, 74, 159, 8, 256);
    var w3 := w2 + [120, 74, 74, 159];
    FourDigits(w3, 11, 223, 227, 243, 8, 256);
    var w4 := w3 + [11, 223, 227, 243];
    FourDigits(w4, 216, 132, 139, 128, 8, 256);
    var w5 := w4 + [216, 132, 139, 128];
    assert w5 == MINER_PROGRAM;
  }

  lemma MinerRegroups()
    ensures Regrouped(MINER_PROGRAM, 8, MINER_DIGITS, 5)
  {
    hide Num, Pow2;
    MinerDigits();
    MinerBytes();
    Bases();
  }

  lemma MinerIsEncoded()
    ensures (forall i :: 0 <= i < |MINER_TEXT| ==> MINER_TEXT[i] as int < 256)
    ensures Letters(MINER_TEXT) == EncodeText(HRP, [0] + MINER_DIGITS)
  {
    hide ValidChecksum, Checksum, Chars, Letters;
    MinerIsSpelled();
    MinerIsValid();
    ChecksumIsUnique(HRP, [0] + MINER_DIGITS, MINER_SIX);
  }

  /** The address the miner pays to is read as a version-0 key hash, this one. */
  lemma MinerAddress()
    ensures (forall i :: 0 <= i < |MINER_TEXT| ==> MINER_TEXT[i] as int < 256)
    ensures DestinationOf(Letters(MINER_TEXT)) == Standard.WitnessKey(MINER_PROGRAM)
  {
    hide EncodeText, Regrouped, DestinationOf, Letters;
    MinerIsEncoded();
    MinerRegroups();
    var text := Letters(MINER_TEXT);
    NameIsPlain();
    RoundTrip(HRP, [0] + MINER_DIGITS);
    DecodedIsEncoded(text, Decoded(HRP, [0] + MINER_DIGITS));
    assert IsAddress(text, 0, MINER_PROGRAM);
    AddressIff(text, 0, MINER_PROGRAM);
  }

  /** The script the miner's coinbase pays to. */
  lemma MinerScript()
    ensures Standard.ScriptFor(Standard.WitnessKey(MINER_PROGRAM)) == [0, 20] + MINER_PROGRAM
  {
    Standard.DirectPush(MINER_PROGRAM);
  }

  // ----- The address of BIP 173 -----

  const PUBLISHED_TEXT := "bc1qw508d6qejxtdg4y5r3zarvary0c5xw7kv8f3t4"
  const PUBLISHED_NAME: Bytes := [98, 99]
  const PUBLISHED_PROGRAM: Hash20 := [117, 30, 118, 232] + [25, 145, 150, 212] + [84, 148, 28, 69] + [209, 179, 163,
      35] + [241, 67, 59, 214]
  const PUBLISHED_DIGITS: seq<Value> := [14, 20, 15, 7] + [13, 26, 0, 25] + [18, 6, 11, 13] + [8, 21, 4, 20]
      + [3, 17, 2, 29] + [3, 12, 29, 3] + [4, 15, 24, 20] + [6, 14, 30, 22]
  const PUBLISHED_SIX: seq<Value> := [12, 7, 9, 17, 11, 21]

  lemma PublishedNameLegs()
    ensures FourSteps(0x1, 3, 3, 0, 2) == 0x118c02
    ensures Step(0x118c02, 3) == 0x2318043
  {}

  lemma PublishedStarts()
    ensures Run(0x1, Syms([3, 3, 0, 2, 3])) == 0x2318043
  {
    hide FourSteps, Step, Run, SymOf;
    SymbolsAre();
    PublishedNameLegs();
    NoSymbols(0x1);
    var w0: seq<Value> := [];
    var w1 := w0 + [3, 3, 0, 2];
    FourMore(0x1, w0, [3, 3, 0, 2]);
    var w2 := w1 + [3];
    OneMore(0x1, w1, 3);
    assert w2 == [3, 3, 0, 2, 3];
  }

  lemma PublishedVersionLeg()
    ensures Step(0x2318043, 0) == 0x3d5a5fd2
  {}

  lemma PublishedVersion()
    ensures Run(0x2318043, Syms([0])) == 0x3d5a5fd2
  {
    hide Step, Run, SymOf;
    SymbolsAre();
    PublishedVersionLeg();
    NoSymbols(0x2318043);
    OneMore(0x2318043, [], 0);
    assert [] + [0] == [0];
  }

  lemma PublishedLeg1()
    ensures FourSteps(0x3d5a5fd2, 14, 20, 15, 7) == 0x116098dd
    ensures FourSteps(0x116098dd, 13, 26, 0, 25) == 0x2b1bcbce
  {}

  lemma PublishedLeg2()
    ensures FourSteps(0x2b1bcbce, 18, 6, 11, 13) == 0x39f818aa
    ensures FourSteps(0x39f818aa, 8, 21, 4, 20) == 0x23a1ff4b
  {}

  lemma PublishedLeg3()
    ensures FourSteps(0x23a1ff4b, 3, 17, 2, 29) == 0xe75f02f
    ensures FourSteps(0xe75f02f, 3, 12, 29, 3) == 0x2a387174
  {}

  lemma PublishedLeg4()
    ensures FourSteps(0x2a387174, 4, 15, 24, 20) == 0x5251205
    ensures FourSteps(0x5251205, 6, 14, 30, 22) == 0x979c4ed
  {}

  lemma PublishedProgram()
    ensures Run(0x3d5a5fd2, Syms(PUBLISHED_DIGITS)) == 0x979c4ed
  {
    hide FourSteps, Step, Run, SymOf;
    SymbolsAre();
    PublishedLeg1();
    PublishedLeg2();
    PublishedLeg3();
    PublishedLeg4();
    NoSymbols(0x3d5a5fd2);
    var w0: seq<Value> := [];
    var w1 := w0 + [14, 20, 15, 7];
    FourMore(0x3d5a5fd2, w0, [14, 20, 15, 7]);
    var w2 := w1 + [13, 26, 0, 25];
    FourMore(0x3d5a5fd2, w1, [13, 26, 0, 25]);
    var w3 := w2 + [18, 6, 11, 13];
    FourMore(0x3d5a5fd2, w2, [18, 6, 11, 13]);
    var w4 := w3 + [8, 21, 4, 20];
    FourMore(0x3d5a5fd2, w3, [8, 21, 4, 20]);
    var w5 := w4 + [3, 17, 2, 29];
    FourMore(0x3d5a5fd2, w4, [3, 17, 2, 29]);
    var w6 := w5 + [3, 12, 29, 3];
    FourMore(0x3d5a5fd2, w5, [3, 12, 29, 3]);
    var w7 := w6 + [4, 15, 24, 20];
    FourMore(0x3d5a5fd2, w6, [4, 15, 24, 20]);
    var w8 := w7 + [6, 14, 30, 22];
    FourMore(0x3d5a5fd2, w7, [6, 14, 30, 22]);
    assert w8 == PUBLISHED_DIGITS;
  }

  lemma PublishedLastLeg()
    ensures FourSteps(0x979c4ed, 12, 7, 9, 17) == 0x13f33ef1
    ensures Step(0x13f33ef1, 11) == 0x384fba44
    ensures Step(0x384fba44, 21) == 0x1
  {}

  lemma PublishedLast()
    ensures Run(0x979c4ed, Syms(PUBLISHED_SIX)) == 0x1
  {
    hide FourSteps, Step, Run, SymOf;
    SymbolsAre();
    PublishedLastLeg();
    NoSymbols(0x979c4ed);
    var w0: seq<Value> := [];
    var w1 := w0 + [12, 7, 9, 17];
    FourMore(0x979c4ed, w0, [12, 7, 9, 17]);
    var w2 := w1 + [11];
    OneMore(0x979c4ed, w1, 11);
    var w3 := w2 + [21];
    OneMore(0x979c4ed, w2, 21);
    assert w3 == PUBLISHED_SIX;
  }

  lemma PublishedIsValid()
    ensures ValidChecksum(PUBLISHED_NAME, [0] + PUBLISHED_DIGITS + PUBLISHED_SIX)
  {
    hide Run, SymOf;
    assert Expanded(PUBLISHED_NAME) == [3, 3, 0, 2, 3];
    PublishedStarts();
    PublishedVersion();
    PublishedProgram();
    PublishedLast();
    RunsOn(0x2318043, [0], PUBLISHED_DIGITS);
    RunsOn(0x2318043, [0] + PUBLISHED_DIGITS, PUBLISHED_SIX);
  }

  lemma PublishedSpells1(i: nat)
    requires 0 <= i < 11
    ensures PUBLISHED_TEXT[i + 3] as int == CharOf(([0] + PUBLISHED_DIGITS + PUBLISHED_SIX)[i])
  {
    assert i == 0 || i == 1 || i == 2 || i == 3 || i == 4 || i == 5 || i == 6 || i == 7 || i == 8 || i == 9 || i == 10;
  }

  lemma PublishedSpells2(i: nat)
    requires 11 <= i < 22
    ensures PUBLISHED_TEXT[i + 3] as int == CharOf(([0] + PUBLISHED_DIGITS + PUBLISHED_SIX)[i])
  {
    assert i == 11 || i == 12 || i == 13 || i == 14 || i == 15 || i == 16 || i == 17 || i == 18 || i == 19 || i == 20
            || i == 21;
  }

  lemma PublishedSpells3(i: nat)
    requires 22 <= i < 33
    ensures PUBLISHED_TEXT[i + 3] as int == CharOf(([0] + PUBLISHED_DIGITS + PUBLISHED_SIX)[i])
  {
    assert i == 22 || i == 23 || i == 24 || i == 25 || i == 26 || i == 27 || i == 28 || i == 29 || i == 30 || i == 31
            || i == 32;
  }

  lemma PublishedSpells4(i: nat)
    requires 33 <= i < 39
    ensures PUBLISHED_TEXT[i + 3] as int == CharOf(([0] + PUBLISHED_DIGITS + PUBLISHED_SIX)[i])
  {
    assert i == 33 || i == 34 || i == 35 || i == 36 || i == 37 || i == 38;
  }

  lemma PublishedIsSpelled()
    ensures |PUBLISHED_TEXT| == 42 && forall i :: 0 <= i < 42 ==> PUBLISHED_TEXT[i] as int < 256
    ensures PUBLISHED_NAME + [SEPARATOR] + Chars([0] + PUBLISHED_DIGITS + PUBLISHED_SIX) == Letters(PUBLISHED_TEXT)
  {
    hide CharOf, Chars, Letters;
    forall i | 0 <= i < 39 ensures PUBLISHED_TEXT[i + 3] as int == CharOf(([0] + PUBLISHED_DIGITS + PUBLISHED_SIX)[i]) {
      if i < 11 { PublishedSpells1(i); } else if i < 22 { PublishedSpells2(i); }
      else if i < 33 { PublishedSpells3(i); } else { PublishedSpells4(i); }
    }
    Spelled(PUBLISHED_NAME, [0] + PUBLISHED_DIGITS + PUBLISHED_SIX, PUBLISHED_TEXT, 3);
  }

  lemma PublishedDigits()
    ensures Num(PUBLISHED_DIGITS, 5) == 0x751e76e8199196d454941c45d1b3a323f1433bd6
  {
    hide Num, Pow2;
    NoDigits(5);
    Bases();
    var w0: seq<nat> := [];
    FourDigits(w0, 14, 20, 15, 7, 5, 32);
    var w1 := w0 + [14, 20, 15, 7];
    FourDigits(w1, 13, 26, 0, 25, 5, 32);
    var w2 := w1 + [13, 26, 0, 25];
    FourDigits(w2, 18, 6, 11, 13, 5, 32);
    var w3 := w2 + [18, 6, 11, 13];
    FourDigits(w3, 8, 21, 4, 20, 5, 32);
    var w4 := w3 + [8, 21, 4, 20];
    FourDigits(w4, 3, 17, 2, 29, 5, 32);
    var w5 := w4 + [3, 17, 2, 29];
    FourDigits(w5, 3, 12, 29, 3, 5, 32);
    var w6 := w5 + [3, 12, 29, 3];
    FourDigits(w6, 4, 15, 24, 20, 5, 32);
    var w7 := w6 + [4, 15, 24, 20];
    FourDigits(w7, 6, 14, 30, 22, 5, 32);
    var w8 := w7 + [6, 14, 30, 22];
    assert w8 == PUBLISHED_DIGITS;
  }

  lemma PublishedBytes()
    ensures Num(PUBLISHED_PROGRAM, 8) == 0x751e76e8199196d454941c45d1b3a323f1433bd6
  {
    hide Num, Pow2;
    NoDigits(8);
    Bases();
    var w0: seq<nat> := [];
    FourDigits(w0, 117, 30, 118, 232, 8, 256);
    var w1 := w0 + [117, 30, 118, 232];
    FourDigits(w1, 25, 145, 150, 212, 8, 256);
    var w2 := w1 + [25, 145, 150, 212];
    FourDigits(w2, 84, 148, 28, 69, 8, 256);
    var w3 := w2 + [84, 148, 28, 69];
    FourDigits(w3, 209, 179, 163, 35, 8, 256);
    var w4 := w3 + [209, 179, 163, 35];
    FourDigits(w4, 241, 67, 59, 214, 8, 256);
    var w5 := w4 + [241, 67, 59, 214];
    assert w5 == PUBLISHED_PROGRAM;
  }

  lemma PublishedRegroups()
    ensures Regrouped(PUBLISHED_PROGRAM, 8, PUBLISHED_DIGITS, 5)
  {
    hide Num, Pow2;
    PublishedDigits();
    PublishedBytes();
    Bases();
  }

  lemma PublishedIsEncoded()
    ensures (forall i :: 0 <= i < |PUBLISHED_TEXT| ==> PUBLISHED_TEXT[i] as int < 256)
    ensures Letters(PUBLISHED_TEXT) == EncodeText(PUBLISHED_NAME, [0] + PUBLISHED_DIGITS)
  {
    hide ValidChecksum, Checksum, Chars, Letters;
    PublishedIsSpelled();
    PublishedIsValid();
    ChecksumIsUnique(PUBLISHED_NAME, [0] + PUBLISHED_DIGITS, PUBLISHED_SIX);
  }

  /** The first address of BIP 173 decodes to its name, version 0 and the digits of its program; this node, which has
      another name, does not take it. */
  lemma PublishedAddress()
    ensures (forall i :: 0 <= i < |PUBLISHED_TEXT| ==> PUBLISHED_TEXT[i] as int < 256)
    ensures DecodeText(Letters(PUBLISHED_TEXT)) == Some(Decoded(PUBLISHED_NAME, [0] + PUBLISHED_DIGITS))
    ensures Regrouped(PUBLISHED_PROGRAM, 8, PUBLISHED_DIGITS, 5)
    ensures DestinationOf(Letters(PUBLISHED_TEXT)) == Standard.NoDestination
  {
    hide EncodeText, Regrouped, Letters, Preimage, DecodeText;
    PublishedIsEncoded();
    PublishedRegroups();
    PublishedNameIsPlain();
    RoundTrip(PUBLISHED_NAME, [0] + PUBLISHED_DIGITS);
    assert |PUBLISHED_NAME| != |HRP|;
  }

  lemma PublishedNameIsPlain()
    ensures Printable(PUBLISHED_NAME) && !HasUpper(PUBLISHED_NAME)
  {}

  // ----- The shortest text of BIP 173 -----

  lemma ShortLegs()
    ensures Step(0x1, 3) == 0x23
    ensures Step(0x23, 0) == 0x460
    ensures Step(0x460, 1) == 0x8c01
    ensures Step(0x8c01, 10) == 0x11802a
    ensures Step(0x11802a, 28) == 0x230055c
    ensures Step(0x230055c, 25) == 0x3d6afc2b
    ensures Step(0x3d6afc2b, 31) == 0x2f84386
    ensures Step(0x2f84386, 20) == 0x24622766
    ensures Step(0x24622766, 31) == 0x1
  {}

  lemma ShortRuns()
    ensures Run(1, Syms([3, 0, 1])) == 0x8c01 && Run(0x8c01, Syms([10, 28, 25, 31, 20, 31])) == 1
  {
    hide Step, Run, SymOf;
    SymbolsAre();
    ShortLegs();
    NoSymbols(0x1);
    OneMore(0x1, [], 3);
    assert [] + [3] == [3];
    OneMore(0x1, [3], 0);
    assert [3] + [0] == [3, 0];
    OneMore(0x1, [3, 0], 1);
    assert [3, 0] + [1] == [3, 0, 1];
    NoSymbols(0x8c01);
    OneMore(0x8c01, [], 10);
    assert [] + [10] == [10];
    OneMore(0x8c01, [10], 28);
    assert [10] + [28] == [10, 28];
    OneMore(0x8c01, [10, 28], 25);
    assert [10, 28] + [25] == [10, 28, 25];
    OneMore(0x8c01, [10, 28, 25], 31);
    assert [10, 28, 25] + [31] == [10, 28, 25, 31];
    OneMore(0x8c01, [10, 28, 25, 31], 20);
    assert [10, 28, 25, 31] + [20] == [10, 28, 25, 31, 20];
    OneMore(0x8c01, [10, 28, 25, 31, 20], 31);
    assert [10, 28, 25, 31, 20] + [31] == [10, 28, 25, 31, 20, 31];
  }

  lemma ShortIsValid()
    ensures ValidChecksum([0x61], [10, 28, 25, 31, 20, 31])
  {
    hide Run, SymOf;
    assert Expanded([0x61]) == [3, 0, 1];
    ShortRuns();
  }

  lemma ShortIsSpelled()
    ensures Chars([10, 28, 25, 31, 20, 31]) == [0x32, 0x75, 0x65, 0x6c, 0x35, 0x6c]
    ensures var t := Letters("A12UEL5L");
            |t| == 8 && WellCased(t) && Lower(t) == [0x61, 0x31, 0x32, 0x75, 0x65, 0x6c, 0x35, 0x6c]
  {
    var t := Letters("A12UEL5L");
    assert forall i :: 0 <= i < 8 ==> !IsLower(t[i]);
  }

  lemma ShortIsEncoded()
    ensures EncodeText([0x61], []) == [0x61, 0x31, 0x32, 0x75, 0x65, 0x6c, 0x35, 0x6c]
  {
    hide ValidChecksum, Checksum, Chars, WellCased, Lower, Letters;
    ShortIsSpelled();
    ShortIsValid();
    var six: seq<Value> := [10, 28, 25, 31, 20, 31];
    assert [] + six == six;
    ChecksumIsUnique([0x61], [], six);
    assert [0x61] + [SEPARATOR] + Chars(six) == [0x61, 0x31, 0x32, 0x75, 0x65, 0x6c, 0x35, 0x6c];
  }

  /** The name a and no data, in upper case. */
  lemma ShortText()
    ensures DecodeText(Letters("A12UEL5L")) == Some(Decoded([0x61], []))
  {
    hide EncodeText, DecodeText, WellCased, Lower, Chars, Letters;
    ShortIsSpelled();
    ShortIsEncoded();
    EncodedIsDecoded(Letters("A12UEL5L"), Decoded([0x61], []));
  }
}
