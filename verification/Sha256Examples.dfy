/** SHA-256 of "abc", the worked example NIST publishes for FIPS 180-4, word by word and round by round. */
module Sha256Examples {
  import opened Bytes
  import opened Limbs
  import opened Sha256

  const ABC: Bytes := [0x61, 0x62, 0x63]

  function N(x: bv32): Word { x as int }

  lemma Bits(x: bv32)
    ensures N(x) as bv32 == x
  {}

  // ----- The message schedule -----

  lemma LengthBytes()
    ensures BE64(24) == [0, 0, 0, 0, 0, 0, 0, 24]
  {
    assert Pow256(0) == 1 && Pow256(1) == 256 && Pow256(2) == 0x1_0000 && Pow256(3) == 0x100_0000;
    assert Pow256(4) == 0x1_0000_0000 && Pow256(5) == 0x100_0000_0000 && Pow256(6) == 0x1_0000_0000_0000;
    assert Pow256(7) == 0x100_0000_0000_0000;
  }

  lemma AbcPadded()
    ensures Padded(ABC) == ABC + [0x80] + ZeroPad(52) + [0, 0, 0, 0, 0, 0, 0, 24]
  {
    LengthBytes();
    hide BE64;
  }

  /** The only block of the padded message. */
  function AbcBlock(): Block {
    AbcPadded();
    Padded(ABC)
  }

  /** Word t of the schedule. */
  function WordAt(t: nat): Word { W(AbcBlock(), t) }

  ghost predicate IsWord(t: nat, w: bv32) { forall s: nat :: s == t ==> WordAt(s) == N(w) }

  lemma FirstWords()
    ensures IsWord(0, 0x61626380) && IsWord(15, 24)
    ensures forall t :: 1 <= t < 15 ==> IsWord(t, 0)
  {
    AbcPadded();
    hide Padded;
    var b := AbcBlock();
    assert forall i :: 4 <= i < 56 ==> b[i] == 0;
  }

  lemma SmallSigmas(x: bv32)
    ensures SmallSigma0(N(x)) == N(SmallSigma0Bits(x)) && SmallSigma1(N(x)) == N(SmallSigma1Bits(x))
  {
    hide SmallSigma0Bits, SmallSigma1Bits;
    Bits(x);
  }

  lemma FourTerms(a: Word, b: Word, c: Word, d: Word)
    ensures Add(Add(Add(a, b), c), d) == (a + b + c + d) % 0x1_0000_0000
  {}

  lemma Expand(t: nat, w2: bv32, w7: bv32, w15: bv32, w16: bv32, s0: bv32, s1: bv32, w: bv32)
    requires t >= 16 && IsWord(t - 2, w2) && IsWord(t - 7, w7) && IsWord(t - 15, w15) && IsWord(t - 16, w16)
    requires SmallSigma0Bits(w15) == s0 && SmallSigma1Bits(w2) == s1
    requires N(w) == (N(s1) + N(w7) + N(s0) + N(w16)) % 0x1_0000_0000
    ensures IsWord(t, w)
  {
    hide SmallSigma0, SmallSigma1, SmallSigma0Bits, SmallSigma1Bits, Add, N, AbcBlock;
    assert WordAt(t - 2) == N(w2) && WordAt(t - 7) == N(w7) && WordAt(t - 15) == N(w15) && WordAt(t - 16) == N(w16);
    SmallSigmas(w2);
    SmallSigmas(w15);
    FourTerms(N(s1), N(w7), N(s0), N(w16));
  }

  lemma Words1()
    ensures IsWord(16, 0x61626380) && IsWord(17, 0xf0000) && IsWord(18, 0x7da86405) && IsWord(19, 0x600003c6)
    ensures IsWord(20, 0x3e9d7b78) && IsWord(21, 0x183fc00) && IsWord(22, 0x12dcbfdb) && IsWord(23, 0xe2e2c38e)
    ensures IsWord(24, 0xc8215c1a) && IsWord(25, 0xb73679a2) && IsWord(26, 0xe5bc3909) && IsWord(27, 0x32663c5b)
    ensures IsWord(28, 0x9d209d67) && IsWord(29, 0xec8726cb) && IsWord(30, 0x702138a4) && IsWord(31, 0xd3b7973b)
  {
    hide IsWord;
    FirstWords();
    Expand(16, 0x0, 0x0, 0x0, 0x61626380, 0x0, 0x0, 0x61626380);
    Expand(17, 0x18, 0x0, 0x0, 0x0, 0x0, 0xf0000, 0xf0000);
    Expand(18, 0x61626380, 0x0, 0x0, 0x0, 0x0, 0x7da86405, 0x7da86405);
    Expand(19, 0xf0000, 0x0, 0x0, 0x0, 0x0, 0x600003c6, 0x600003c6);
    Expand(20, 0x7da86405, 0x0, 0x0, 0x0, 0x0, 0x3e9d7b78, 0x3e9d7b78);
    Expand(21, 0x600003c6, 0x0, 0x0, 0x0, 0x0, 0x183fc00, 0x183fc00);
    Expand(22, 0x3e9d7b78, 0x18, 0x0, 0x0, 0x0, 0x12dcbfc3, 0x12dcbfdb);
    Expand(23, 0x183fc00, 0x61626380, 0x0, 0x0, 0x0, 0x8180600e, 0xe2e2c38e);
    Expand(24, 0x12dcbfdb, 0xf0000, 0x0, 0x0, 0x0, 0xc8125c1a, 0xc8215c1a);
    Expand(25, 0xe2e2c38e, 0x7da86405, 0x0, 0x0, 0x0, 0x398e159d, 0xb73679a2);
    Expand(26, 0xc8215c1a, 0x600003c6, 0x0, 0x0, 0x0, 0x85bc3543, 0xe5bc3909);
    Expand(27, 0xb73679a2, 0x3e9d7b78, 0x0, 0x0, 0x0, 0xf3c8c0e3, 0x32663c5b);
    Expand(28, 0xe5bc3909, 0x183fc00, 0x0, 0x0, 0x0, 0x9b9ca167, 0x9d209d67);
    Expand(29, 0x32663c5b, 0x12dcbfdb, 0x0, 0x0, 0x0, 0xd9aa66f0, 0xec8726cb);
    Expand(30, 0x9d209d67, 0xe2e2c38e, 0x18, 0x0, 0x30060003, 0x5d387513, 0x702138a4);
    Expand(31, 0xec8726cb, 0xc8215c1a, 0x61626380, 0x18, 0x940e90ef, 0x7787aa1a, 0xd3b7973b);
  }

  lemma Words2()
    ensures IsWord(32, 0x93f5997f) && IsWord(33, 0x3b68ba73) && IsWord(34, 0xaff4ffc1) && IsWord(35, 0xf10a5c62)
    ensures IsWord(36, 0xa8b3996) && IsWord(37, 0x72af830a) && IsWord(38, 0x9409e33e) && IsWord(39, 0x24641522)
    ensures IsWord(40, 0x9f47bf94) && IsWord(41, 0xf0a64f5a) && IsWord(42, 0x3e246a79) && IsWord(43, 0x27333ba3)
    ensures IsWord(44, 0xc4763f2) && IsWord(45, 0x840abf27) && IsWord(46, 0x7a290d5d) && IsWord(47, 0x65c43da)
  {
    hide IsWord;
    Words1();
    Expand(32, 0x702138a4, 0xb73679a2, 0xf0000, 0x61626380, 0xc001fe03, 0xbb5abe5a, 0x93f5997f);
    Expand(33, 0xd3b7973b, 0xe5bc3909, 0x7da86405, 0xf0000, 0x1c4f0322, 0x394e7e48, 0x3b68ba73);
    Expand(34, 0x93f5997f, 0x32663c5b, 0x600003c6, 0x7da86405, 0x8031987f, 0x7fb4c6e2, 0xaff4ffc1);
    Expand(35, 0x3b68ba73, 0x9d209d67, 0x3e9d7b78, 0x600003c6, 0xa9709a3e, 0x4a7920f7, 0xf10a5c62);
    Expand(36, 0xaff4ffc1, 0xec8726cb, 0x183fc00, 0x3e9d7b78, 0xff337818, 0xe0331f3b, 0xa8b3996);
    Expand(37, 0xf10a5c62, 0x702138a4, 0x12dcbfdb, 0x183fc00, 0x9b88ea33, 0x65816433, 0x72af830a);
    Expand(38, 0xa8b3996, 0xd3b7973b, 0xe2e2c38e, 0x12dcbfdb, 0xb17a254e, 0xfbfb66da, 0x9409e33e);
    Expand(39, 0x72af830a, 0x93f5997f, 0xc8215c1a, 0xe2e2c38e, 0x7b92db33, 0x31f8dce2, 0x24641522);
    Expand(40, 0x9409e33e, 0x3b68ba73, 0xb73679a2, 0xc8215c1a, 0xcde00e0a, 0xcddd9afd, 0x9f47bf94);
    Expand(41, 0x24641522, 0xaff4ffc1, 0xe5bc3909, 0xb73679a2, 0x13e863c, 0x883c4fbb, 0xf0a64f5a);
    Expand(42, 0x9f47bf94, 0xf10a5c62, 0x32663c5b, 0xe5bc3909, 0x3f3ec76a, 0x281f0da4, 0x3e246a79);
    Expand(43, 0xf0a64f5a, 0xa8b3996, 0x9d209d67, 0x32663c5b, 0xfbc7b5de, 0xee7a0fd4, 0x27333ba3);
    Expand(44, 0x3e246a79, 0x72af830a, 0xec8726cb, 0x9d209d67, 0x43fb11b5, 0xb87c31cc, 0xc4763f2);
    Expand(45, 0x27333ba3, 0x9409e33e, 0x702138a4, 0xec8726cb, 0x8cd796d, 0xfaac3bb1, 0x840abf27);
    Expand(46, 0xc4763f2, 0x24641522, 0xd3b7973b, 0x702138a4, 0x881f6924, 0x5d845673, 0x7a290d5d);
    Expand(47, 0x840abf27, 0x9f47bf94, 0x93f5997f, 0xd3b7973b, 0x8b06bce0, 0x856302b, 0x65c43da);
  }

  lemma Words3()
    ensures IsWord(48, 0xfb3e89cb) && IsWord(49, 0xcc7617db) && IsWord(50, 0xb9e66c34) && IsWord(51, 0xa9993667)
    ensures IsWord(52, 0x84badedd) && IsWord(53, 0xc21462bc) && IsWord(54, 0x1487472c) && IsWord(55, 0xb20f7a99)
    ensures IsWord(56, 0xef57b9cd) && IsWord(57, 0xebe6b238) && IsWord(58, 0x9fe3095e) && IsWord(59, 0x78bc8d4b)
    ensures IsWord(60, 0xa43fcf15) && IsWord(61, 0x668b2ff8) && IsWord(62, 0xeeaba2cc) && IsWord(63, 0x12b1edeb)
  {
    hide IsWord;
    Words2();
    Expand(48, 0x7a290d5d, 0xf0a64f5a, 0x3b68ba73, 0x93f5997f, 0xcf8708e0, 0xa71b9812, 0xfb3e89cb);
    Expand(49, 0x65c43da, 0x3e246a79, 0xaff4ffc1, 0x3b68ba73, 0xa9511dfa, 0xa997d4f5, 0xcc7617db);
    Expand(50, 0xfb3e89cb, 0x27333ba3, 0xf10a5c62, 0xaff4ffc1, 0x4cdbe376, 0x95e24d5a, 0xb9e66c34);
    Expand(51, 0xcc7617db, 0xc4763f2, 0xa8b3996, 0xf10a5c62, 0xe321f3e3, 0xc9258230, 0xa9993667);
    Expand(52, 0xb9e66c34, 0x840abf27, 0x72af830a, 0xa8b3996, 0xfa7233cc, 0xfbb2b254, 0x84badedd);
    Expand(53, 0xa9993667, 0x7a290d5d, 0x9409e33e, 0x72af830a, 0x17668aa3, 0xbdd547b2, 0xc21462bc);
    Expand(54, 0x84badedd, 0x65c43da, 0x24641522, 0x9409e33e, 0x458cc397, 0x34945c7d, 0x1487472c);
    Expand(55, 0xc21462bc, 0xfb3e89cb, 0x9f47bf94, 0x24641522, 0xd5335f5c, 0xbd397c50, 0xb20f7a99);
    Expand(56, 0x1487472c, 0xcc7617db, 0xf0a64f5a, 0x9f47bf94, 0x3823395c, 0x4b76a902, 0xef57b9cd);
    Expand(57, 0xb20f7a99, 0xb9e66c34, 0x3e246a79, 0xf0a64f5a, 0xef268a12, 0x52336c98, 0xebe6b238);
    Expand(58, 0xef57b9cd, 0xa9993667, 0x27333ba3, 0x3e246a79, 0x8c40c8cf, 0x2be49faf, 0x9fe3095e);
    Expand(59, 0xebe6b238, 0x84badedd, 0xc4763f2, 0x27333ba3, 0x3d6ce1a8, 0x8f619123, 0x78bc8d4b);
    Expand(60, 0x9fe3095e, 0xc21462bc, 0x840abf27, 0xc4763f2, 0xf040a398, 0xe5a364cf, 0xa43fcf15);
    Expand(61, 0x78bc8d4b, 0x1487472c, 0x7a290d5d, 0x840abf27, 0xf6e62d3b, 0xd712fc6a, 0x668b2ff8);
    Expand(62, 0xa43fcf15, 0xb20f7a99, 0x65c43da, 0x7a290d5d, 0xa431b16b, 0x1e41696b, 0xeeaba2cc);
    Expand(63, 0x668b2ff8, 0xef57b9cd, 0xfb3e89cb, 0x65c43da, 0x2ae352e5, 0xf21a9d5f, 0x12b1edeb);
  }

  // ----- The rounds -----

  /** The working variables after t rounds. */
  function After(t: nat): Regs
    requires t <= 64
  {
    Steps(Load(INITIAL), AbcBlock(), t)
  }

  ghost predicate IsAfter(t: nat, r: Regs)
    requires t <= 64
  {
    forall s: nat :: s == t ==> After(s) == r
  }

  function R(a: bv32, b: bv32, c: bv32, d: bv32, e: bv32, f: bv32, g: bv32, h: bv32): Regs {
    Regs(N(a), N(b), N(c), N(d), N(e), N(f), N(g), N(h))
  }

  lemma BigSigmas(x: bv32, y: bv32, z: bv32)
    ensures BigSigma0(N(x)) == N(BigSigma0Bits(x)) && BigSigma1(N(x)) == N(BigSigma1Bits(x))
    ensures Ch(N(x), N(y), N(z)) == N(ChBits(x, y, z)) && Maj(N(x), N(y), N(z)) == N(MajBits(x, y, z))
  {
    hide BigSigma0Bits, BigSigma1Bits, ChBits, MajBits;
    Bits(x);
    Bits(y);
    Bits(z);
  }

  function Low(x: nat): Word { x % 0x1_0000_0000 }

  lemma AddLow(s: nat, x: nat, y: Word)
    ensures Add(Low(s), Low(x)) == Low(s + x) && Low(y) == y
  {}

  lemma Sums(h: Word, s1: Word, ch: Word, k: Word, w: Word, s0: Word, mj: Word, d: Word)
    ensures var t1 := Add(Add(Add(Add(h, s1), ch), k), w);
            Add(t1, Add(s0, mj)) == Low(h + s1 + ch + k + w + s0 + mj)
            && Add(d, t1) == Low(h + s1 + ch + k + w + d)
  {
    hide Low, Add;
    AddLow(h, s1, h);
    AddLow(h + s1, ch, s1);
    AddLow(h + s1 + ch, k, ch);
    AddLow(h + s1 + ch + k, w, k);
    AddLow(s0, mj, s0);
    AddLow(h + s1 + ch + k + w, s0 + mj, mj);
    AddLow(d, h + s1 + ch + k + w, d);
    AddLow(0, 0, w);
  }

  /** The bit functions of a round. */
  predicate Mixes(a: bv32, b: bv32, c: bv32, e: bv32, f: bv32, g: bv32, s0: bv32, mj: bv32, s1: bv32, ch: bv32) {
    BigSigma0Bits(a) == s0 && MajBits(a, b, c) == mj && BigSigma1Bits(e) == s1 && ChBits(e, f, g) == ch
  }

  /** The sums of a round. */
  predicate AddsUp(d: bv32, h: bv32, k: bv32, w: bv32, s0: bv32, mj: bv32, s1: bv32, ch: bv32, a': bv32, e': bv32) {
    N(a') == Low(N(h) + N(s1) + N(ch) + N(k) + N(w) + N(s0) + N(mj))
    && N(e') == Low(N(h) + N(s1) + N(ch) + N(k) + N(w) + N(d))
  }

  lemma StepIs(a: bv32, b: bv32, c: bv32, d: bv32, e: bv32, f: bv32, g: bv32, h: bv32, k: bv32, w: bv32,
               s0: bv32, mj: bv32, s1: bv32, ch: bv32, a': bv32, e': bv32)
    requires Mixes(a, b, c, e, f, g, s0, mj, s1, ch) && AddsUp(d, h, k, w, s0, mj, s1, ch, a', e')
    ensures Step(R(a, b, c, d, e, f, g, h), N(k), N(w)) == R(a', a, b, c, e', e, f, g)
  {
    hide BigSigma0, BigSigma1, Ch, Maj, BigSigma0Bits, BigSigma1Bits, ChBits, MajBits, Add, N, Low;
    BigSigmas(a, b, c);
    BigSigmas(e, f, g);
    Sums(N(h), N(s1), N(ch), N(k), N(w), N(s0), N(mj), N(d));
  }

  lemma Turn(t: nat, a: bv32, b: bv32, c: bv32, d: bv32, e: bv32, f: bv32, g: bv32, h: bv32, k: bv32, w: bv32,
             s0: bv32, mj: bv32, s1: bv32, ch: bv32, a': bv32, e': bv32)
    requires t < 64 && IsAfter(t, R(a, b, c, d, e, f, g, h)) && K[t] == N(k) && IsWord(t, w)
    requires Mixes(a, b, c, e, f, g, s0, mj, s1, ch) && AddsUp(d, h, k, w, s0, mj, s1, ch, a', e')
    ensures IsAfter(t + 1, R(a', a, b, c, e', e, f, g))
  {
    hide Mixes, AddsUp, Step, W, AbcBlock, N;
    StepIs(a, b, c, d, e, f, g, h, k, w, s0, mj, s1, ch, a', e');
    assert After(t) == R(a, b, c, d, e, f, g, h) && WordAt(t) == N(w);
    assert After(t + 1) == Step(After(t), K[t], WordAt(t));
  }

  lemma Keys1()
    ensures K[0] == N(0x428a2f98) && K[1] == N(0x71374491) && K[2] == N(0xb5c0fbcf) && K[3] == N(0xe9b5dba5)
    ensures K[4] == N(0x3956c25b) && K[5] == N(0x59f111f1) && K[6] == N(0x923f82a4) && K[7] == N(0xab1c5ed5)
  {}

  lemma Keys2()
    ensures K[8] == N(0xd807aa98) && K[9] == N(0x12835b01) && K[10] == N(0x243185be) && K[11] == N(0x550c7dc3)
    ensures K[12] == N(0x72be5d74) && K[13] == N(0x80deb1fe) && K[14] == N(0x9bdc06a7) && K[15] == N(0xc19bf174)
  {}

  lemma Keys3()
    ensures K[16] == N(0xe49b69c1) && K[17] == N(0xefbe4786) && K[18] == N(0xfc19dc6) && K[19] == N(0x240ca1cc)
    ensures K[20] == N(0x2de92c6f) && K[21] == N(0x4a7484aa) && K[22] == N(0x5cb0a9dc) && K[23] == N(0x76f988da)
  {}

  lemma Keys4()
    ensures K[24] == N(0x983e5152) && K[25] == N(0xa831c66d) && K[26] == N(0xb00327c8) && K[27] == N(0xbf597fc7)
    ensures K[28] == N(0xc6e00bf3) && K[29] == N(0xd5a79147) && K[30] == N(0x6ca6351) && K[31] == N(0x14292967)
  {}

  lemma Keys5()
    ensures K[32] == N(0x27b70a85) && K[33] == N(0x2e1b2138) && K[34] == N(0x4d2c6dfc) && K[35] == N(0x53380d13)
    ensures K[36] == N(0x650a7354) && K[37] == N(0x766a0abb) && K[38] == N(0x81c2c92e) && K[39] == N(0x92722c85)
  {}

  lemma Keys6()
    ensures K[40] == N(0xa2bfe8a1) && K[41] == N(0xa81a664b) && K[42] == N(0xc24b8b70) && K[43] == N(0xc76c51a3)
    ensures K[44] == N(0xd192e819) && K[45] == N(0xd6990624) && K[46] == N(0xf40e3585) && K[47] == N(0x106aa070)
  {}

  lemma Keys7()
    ensures K[48] == N(0x19a4c116) && K[49] == N(0x1e376c08) && K[50] == N(0x2748774c) && K[51] == N(0x34b0bcb5)
    ensures K[52] == N(0x391c0cb3) && K[53] == N(0x4ed8aa4a) && K[54] == N(0x5b9cca4f) && K[55] == N(0x682e6ff3)
  {}

  lemma Keys8()
    ensures K[56] == N(0x748f82ee) && K[57] == N(0x78a5636f) && K[58] == N(0x84c87814) && K[59] == N(0x8cc70208)
    ensures K[60] == N(0x90befffa) && K[61] == N(0xa4506ceb) && K[62] == N(0xbef9a3f7) && K[63] == N(0xc67178f2)
  {}

  lemma Rounds1()
    ensures IsAfter(8, R(0x85a07b5f, 0xe5030380, 0x2b4209f5, 0x4409a6a, 0xc657a79, 0x9b27a401, 0x714260ad, 0x43ada245))
  {
    hide IsAfter, IsWord;
    Before();
    Keys1();
    FirstWords();
    Turn(0, 0x6a09e667, 0xbb67ae85, 0x3c6ef372, 0xa54ff53a, 0x510e527f, 0x9b05688c, 0x1f83d9ab, 0x5be0cd19,
         0x428a2f98, 0x61626380, 0xce20b47e, 0x3a6fe667, 0x3587272b, 0x1f85c98c, 0x5d6aebcd, 0xfa2a4622);
    Turn(1, 0x5d6aebcd, 0x6a09e667, 0xbb67ae85, 0x3c6ef372, 0xfa2a4622, 0x510e527f, 0x9b05688c, 0x1f83d9ab,
         0x71374491, 0x0, 0xa29f64d1, 0x7b6beec5, 0x5a94fd2d, 0x510f6aae, 0x5a6ad9ad, 0x78ce7989);
    Turn(2, 0x5a6ad9ad, 0x5d6aebcd, 0x6a09e667, 0xbb67ae85, 0x78ce7989, 0xfa2a4622, 0x510e527f, 0x9b05688c,
         0xb5c0fbcf, 0x0, 0x3096d054, 0x5a6aebed, 0x73f0e495, 0x790a4276, 0xc8c347a7, 0xf92939eb);
    Turn(3, 0xc8c347a7, 0x5a6ad9ad, 0x5d6aebcd, 0x6a09e667, 0xf92939eb, 0x78ce7989, 0xfa2a4622, 0x510e527f,
         0xe9b5dba5, 0x0, 0xc21008d0, 0x586acbad, 0x607743c, 0x7a0a7f89, 0xd550f666, 0x24e00850);
    Turn(4, 0xd550f666, 0xc8c347a7, 0x5a6ad9ad, 0x5d6aebcd, 0x24e00850, 0xf92939eb, 0x78ce7989, 0xfa2a4622,
         0x3956c25b, 0x0, 0x45bb0c4b, 0xd842d7a7, 0x3a933432, 0x782e79c9, 0x4409a6a, 0x43ada245);
    Turn(5, 0x4409a6a, 0xd550f666, 0xc8c347a7, 0x5a6ad9ad, 0x43ada245, 0x24e00850, 0xf92939eb, 0x78ce7989,
         0x59f111f1, 0x0, 0x5029ac8f, 0xc440d666, 0x8b77e19c, 0xb8a019ea, 0x2b4209f5, 0x714260ad);
    Turn(6, 0x2b4209f5, 0x4409a6a, 0xd550f666, 0xc8c347a7, 0x714260ad, 0x43ada245, 0x24e00850, 0xf92939eb,
         0x923f82a4, 0x0, 0xd5e0cc0, 0x5409a66, 0x15b7776, 0x45a02855, 0xe5030380, 0x9b27a401);
    Turn(7, 0xe5030380, 0x2b4209f5, 0x4409a6a, 0xd550f666, 0x9b27a401, 0x714260ad, 0x43ada245, 0x24e00850,
         0xab1c5ed5, 0x0, 0x2949eb6c, 0x25420be0, 0x158dfaa9, 0x518a2245, 0x85a07b5f, 0xc657a79);
  }

  lemma Rounds2()
    ensures IsAfter(16, R(0xb0fa238e, 0xc0645fde, 0xd932eb16, 0x87912990, 0x7590dcd, 0xb92f20c, 0x745a48de, 0x1e578218))
  {
    hide IsAfter, IsWord;
    Rounds1();
    Keys2();
    FirstWords();
    Turn(8, 0x85a07b5f, 0xe5030380, 0x2b4209f5, 0x4409a6a, 0xc657a79, 0x9b27a401, 0x714260ad, 0x43ada245,
         0xd807aa98, 0x0, 0xba794dc2, 0xa5020bd5, 0x99ad25c0, 0x79272085, 0x8e04ecb9, 0x32ca2d8c);
    Turn(9, 0x8e04ecb9, 0x85a07b5f, 0xe5030380, 0x2b4209f5, 0x32ca2d8c, 0xc657a79, 0x9b27a401, 0x714260ad,
         0x12835b01, 0x0, 0x15ffad31, 0x85006b99, 0xe45bb7ea, 0x8965a809, 0x8c87346b, 0x1cc92596);
    Turn(10, 0x8c87346b, 0x8e04ecb9, 0x85a07b5f, 0xe5030380, 0x1cc92596, 0x32ca2d8c, 0xc657a79, 0x9b27a401,
         0x243185be, 0x0, 0x5cac0711, 0x8c847c7b, 0x8e2276bc, 0x10ec7fed, 0x4798a3f4, 0x436b23e8);
    Turn(11, 0x4798a3f4, 0x8c87346b, 0x8e04ecb9, 0x85a07b5f, 0x436b23e8, 0x1cc92596, 0x32ca2d8c, 0xc657a79,
         0x550c7dc3, 0x0, 0x6ccbc526, 0x8e84a4f9, 0x699435ca, 0x30c92d84, 0xf71fc5a9, 0x816fd6e9);
    Turn(12, 0xf71fc5a9, 0x4798a3f4, 0x8c87346b, 0x8e04ecb9, 0x816fd6e9, 0x436b23e8, 0x1cc92596, 0x32ca2d8c,
         0x72be5d74, 0x0, 0x2f9eee48, 0xc79fa5e9, 0xccdee661, 0x1deb23fe, 0x87912990, 0x1e578218);
    Turn(13, 0x87912990, 0xf71fc5a9, 0x4798a3f4, 0x8c87346b, 0x1e578218, 0x816fd6e9, 0x436b23e8, 0x1cc92596,
         0x80deb1fe, 0x0, 0x29c634f3, 0xc799a1b0, 0x8bb98f7, 0x416fa3e8, 0xd932eb16, 0x745a48de);
    Turn(14, 0xd932eb16, 0x87912990, 0xf71fc5a9, 0x4798a3f4, 0x745a48de, 0x1e578218, 0x816fd6e9, 0x436b23e8,
         0x9bdc06a7, 0x0, 0x25562836, 0xd713e990, 0x4f3b8d50, 0x95779639, 0xc0645fde, 0xb92f20c);
    Turn(15, 0xc0645fde, 0xd932eb16, 0x87912990, 0xf71fc5a9, 0xb92f20c, 0x745a48de, 0x1e578218, 0x816fd6e9,
         0xc19bf174, 0x18, 0xdf906fd4, 0xc1306b96, 0xb8d63f93, 0x1457401c, 0xb0fa238e, 0x7590dcd);
  }

  lemma Rounds3()
    ensures IsAfter(24, R(0xc5d53d8d, 0xa7a3623f, 0xc2606d6d, 0x9dc68b63, 0xaa47c347, 0x49f5114a, 0xe1257970,
            0x8ada8930))
  {
    hide IsAfter, IsWord;
    Rounds2();
    Keys3();
    Words1();
    Turn(16, 0xb0fa238e, 0xc0645fde, 0xd932eb16, 0x87912990, 0x7590dcd, 0xb92f20c, 0x745a48de, 0x1e578218,
         0xe49b69c1, 0x61626380, 0x58c535f1, 0xd0726b9e, 0x213b6995, 0x7312401e, 0x21da9a9b, 0x8034229c);
    Turn(17, 0x21da9a9b, 0xb0fa238e, 0xc0645fde, 0xd932eb16, 0x8034229c, 0x7590dcd, 0xb92f20c, 0x745a48de,
         0xefbe4786, 0xf0000, 0x76c5c4f5, 0xa0fa1b9e, 0x3b81984e, 0xb92d08c, 0xc2fbd9d1, 0x846ee454);
    Turn(18, 0xc2fbd9d1, 0x21da9a9b, 0xb0fa238e, 0xc0645fde, 0x846ee454, 0x8034229c, 0x7590dcd, 0xb92f20c,
         0xfc19dc6, 0x7da86405, 0x5157a6a1, 0xa0fa9b9b, 0xeff31c0f, 0x8335299d, 0xfe777bbf, 0xcc899961);
    Turn(19, 0xfe777bbf, 0xc2fbd9d1, 0x21da9a9b, 0xb0fa238e, 0xcc899961, 0x846ee454, 0x8034229c, 0x7590dcd,
         0x240ca1cc, 0x600003c6, 0xff8cd2ad, 0xe2fbdb9b, 0xefc707b0, 0x843ca2dc, 0xe1f20c33, 0xb0638179);
    Turn(20, 0xe1f20c33, 0xfe777bbf, 0xc2fbd9d1, 0x21da9a9b, 0xb0638179, 0xcc899961, 0x846ee454, 0x8034229c,
         0x2de92c6f, 0x3e9d7b78, 0x51d3431b, 0xe2f359b3, 0xf8373ead, 0x840de565, 0x9dc68b63, 0x8ada8930);
    Turn(21, 0x9dc68b63, 0xe1f20c33, 0xfe777bbf, 0xc2fbd9d1, 0x8ada8930, 0xb0638179, 0xcc899961, 0x846ee454,
         0x4a7484aa, 0x183fc00, 0xa640c29b, 0xfdf60b33, 0x897ea930, 0xc4439171, 0xc2606d6d, 0xe1257970);
    Turn(22, 0xc2606d6d, 0x9dc68b63, 0xe1f20c33, 0xfe777bbf, 0xe1257970, 0x8ada8930, 0xb0638179, 0xcc899961,
         0x5cb0a9dc, 0x12dcbfdb, 0x9a43bf51, 0xc1e20d63, 0x7f24093a, 0x90428939, 0xa7a3623f, 0x49f5114a);
    Turn(23, 0xa7a3623f, 0xc2606d6d, 0x9dc68b63, 0xe1f20c33, 0x49f5114a, 0xe1257970, 0x8ada8930, 0xb0638179,
         0x76f988da, 0xe2e2c38e, 0x759d1b0a, 0x87e26b6f, 0xfae64fc3, 0xc32f9970, 0xc5d53d8d, 0xaa47c347);
  }

  lemma Rounds4()
    ensures IsAfter(32, R(0x73b33bf5, 0xea992a22, 0xa0060b30, 0x363482c9, 0xba591112, 0x109ab3a, 0xade79437,
            0x6112a3b7))
  {
    hide IsAfter, IsWord;
    Rounds3();
    Keys4();
    Words1();
    Turn(24, 0xc5d53d8d, 0xa7a3623f, 0xc2606d6d, 0x9dc68b63, 0xaa47c347, 0x49f5114a, 0xe1257970, 0x8ada8930,
         0x983e5152, 0xc8215c1a, 0xc9ed56dd, 0xc7e16d2d, 0x55bdf420, 0x49653972, 0x1c2c2838, 0x2823ef91);
    Turn(25, 0x1c2c2838, 0xc5d53d8d, 0xa7a3623f, 0xc2606d6d, 0x2823ef91, 0xaa47c347, 0x49f5114a, 0xe1257970,
         0xa831c66d, 0xb73679a2, 0xf66b0b1f, 0x85a5283d, 0xa7724357, 0x69d7d34b, 0xcde8037d, 0x14383d8e);
    Turn(26, 0xcde8037d, 0x1c2c2838, 0xc5d53d8d, 0xa7a3623f, 0x14383d8e, 0x2823ef91, 0xaa47c347, 0x49f5114a,
         0xb00327c8, 0xe5bc3909, 0xc89998a8, 0xcdec293d, 0x958ca0fb, 0xaa67efc1, 0xb62ec4bc, 0xc74c6516);
    Turn(27, 0xb62ec4bc, 0xcde8037d, 0x1c2c2838, 0xc5d53d8d, 0xc74c6516, 0x14383d8e, 0x2823ef91, 0xaa47c347,
         0xbf597fc7, 0x32663c5b, 0xb37cf281, 0x9c2c003c, 0x5ff7537b, 0x2c2baf87, 0x77d37528, 0xedffbff8);
    Turn(28, 0x77d37528, 0xb62ec4bc, 0xcde8037d, 0x1c2c2838, 0xedffbff8, 0xc74c6516, 0x14383d8e, 0x2823ef91,
         0xc6e00bf3, 0x9d209d67, 0xf963c20e, 0xf7ea453c, 0xe375bd7e, 0xd54c2516, 0x363482c9, 0x6112a3b7);
    Turn(29, 0x363482c9, 0x77d37528, 0xb62ec4bc, 0xcde8037d, 0x6112a3b7, 0xedffbff8, 0xc74c6516, 0x14383d8e,
         0xd5a79147, 0xec8726cb, 0x89cfb5ce, 0x3636c4a8, 0x2239b36a, 0xe75ee7b0, 0xa0060b30, 0xade79437);
    Turn(30, 0xa0060b30, 0x363482c9, 0x77d37528, 0xb62ec4bc, 0xade79437, 0x6112a3b7, 0xedffbff8, 0xc74c6516,
         0x6ca6351, 0x702138a4, 0x69a8407c, 0x36160328, 0xab883974, 0x611aabff, 0xea992a22, 0x109ab3a);
    Turn(31, 0xea992a22, 0xa0060b30, 0x363482c9, 0x77d37528, 0x109ab3a, 0xade79437, 0x6112a3b7, 0xedffbff8,
         0x14292967, 0xd3b7973b, 0x8f1995eb, 0xa2140a20, 0xb919a99, 0x611380b7, 0x73b33bf5, 0xba591112);
  }

  lemma Rounds5()
    ensures IsAfter(40, R(0x79ea687a, 0x6dc57a8a, 0x34df1604, 0x41a65cb1, 0x1efbc0a0, 0xf0781bc8, 0xa507a53d,
            0x772a26b))
  {
    hide IsAfter, IsWord;
    Rounds4();
    Keys5();
    Words2();
    Turn(32, 0x73b33bf5, 0xea992a22, 0xa0060b30, 0x363482c9, 0xba591112, 0x109ab3a, 0xade79437, 0x6112a3b7,
         0x27b70a85, 0x93f5997f, 0x4fa886aa, 0xe2932b30, 0x4436a63b, 0x5af8537, 0x98e12507, 0x9cd9f5f6);
    Turn(33, 0x98e12507, 0x73b33bf5, 0xea992a22, 0xa0060b30, 0x9cd9f5f6, 0xba591112, 0x109ab3a, 0xade79437,
         0x2e1b2138, 0x3b68ba73, 0x4a90902b, 0xfab12b27, 0x85a07a7, 0x99591b1a, 0xfe604df5, 0x59249dd3);
    Turn(34, 0xfe604df5, 0x98e12507, 0x73b33bf5, 0xea992a22, 0x59249dd3, 0x9cd9f5f6, 0xba591112, 0x109ab3a,
         0x4d2c6dfc, 0xaff4ffc1, 0x91003786, 0xfae12df5, 0x65415f48, 0xba5995d2, 0xa9a7738c, 0x85f3833);
    Turn(35, 0xa9a7738c, 0xfe604df5, 0x98e12507, 0x73b33bf5, 0x85f3833, 0x59249dd3, 0x9cd9f5f6, 0xba591112,
         0x53380d13, 0xf10a5c62, 0x2bc2a37e, 0xb8e16585, 0xe5dc6e83, 0x9c84ddd7, 0x65a0cfe4, 0xf4b002d6);
    Turn(36, 0x65a0cfe4, 0xa9a7738c, 0xfe604df5, 0x98e12507, 0xf4b002d6, 0x85f3833, 0x59249dd3, 0x9cd9f5f6,
         0x650a7354, 0xa8b3996, 0xe5748f69, 0xeda04fe4, 0x590d3d71, 0x9149d13, 0x41a65cb1, 0x772a26b);
    Turn(37, 0x41a65cb1, 0x65a0cfe4, 0xa9a7738c, 0xfe604df5, 0x772a26b, 0xf4b002d6, 0x85f3833, 0x59249dd3,
         0x766a0abb, 0x72af830a, 0x2c915f18, 0x61a65fa4, 0x582c115e, 0xc3d1a52, 0x34df1604, 0xa507a53d);
    Turn(38, 0x34df1604, 0x41a65cb1, 0x65a0cfe4, 0xa9a7738c, 0xa507a53d, 0x772a26b, 0xf4b002d6, 0x85f3833,
         0x81c2c92e, 0x9409e33e, 0xc14e73aa, 0x65a65ea4, 0xd2f220b2, 0x55b2a2eb, 0x6dc57a8a, 0xf0781bc8);
    Turn(39, 0x6dc57a8a, 0x34df1604, 0x41a65cb1, 0x65a0cfe4, 0xf0781bc8, 0xa507a53d, 0x772a26b, 0xf4b002d6,
         0x92722c85, 0x24641522, 0x5ac8193e, 0x65c75e80, 0x66d20b14, 0xa702a12b, 0x79ea687a, 0x1efbc0a0);
  }

  lemma Rounds6()
    ensures IsAfter(48, R(0x4172328d, 0xa14c14b0, 0x72ab4b91, 0x26628815, 0xfecf0bc6, 0xd57b94a9, 0xb7755da1,
            0xa80f11f0))
  {
    hide IsAfter, IsWord;
    Rounds5();
    Keys6();
    Words2();
    Turn(40, 0x79ea687a, 0x6dc57a8a, 0x34df1604, 0x41a65cb1, 0x1efbc0a0, 0xf0781bc8, 0xa507a53d, 0x772a26b,
         0xa2bfe8a1, 0x9f47bf94, 0x7408bcaa, 0x7dcf7a0a, 0xe9986075, 0xb17c259d, 0xd6670766, 0x26352d63);
    Turn(41, 0xd6670766, 0x79ea687a, 0x6dc57a8a, 0x34df1604, 0x26352d63, 0x1efbc0a0, 0xf0781bc8, 0xa507a53d,
         0xa81a664b, 0xf0a64f5a, 0x12b2e9b8, 0x7de76a6a, 0x3a6aa383, 0xd67912a8, 0xdf46652f, 0x838b2711);
    Turn(42, 0xdf46652f, 0xd6670766, 0x79ea687a, 0x6dc57a8a, 0x838b2711, 0x26352d63, 0x1efbc0a0, 0xf0781bc8,
         0xc24b8b70, 0x3e246a79, 0xc73bdc05, 0xdf66656e, 0x61add539, 0x1e71e5a1, 0x17aa0dfe, 0xdecd4715);
    Turn(43, 0x17aa0dfe, 0xdf46652f, 0xd6670766, 0x79ea687a, 0xdecd4715, 0x838b2711, 0x26352d63, 0x1efbc0a0,
         0xc76c51a3, 0x27333ba3, 0x422dc671, 0xd766056e, 0xd363665b, 0xa2b92f73, 0x9d4baf93, 0xfda24c2e);
    Turn(44, 0x9d4baf93, 0x17aa0dfe, 0xdf46652f, 0xd6670766, 0xfda24c2e, 0xdecd4715, 0x838b2711, 0x26352d63,
         0xd192e819, 0xc4763f2, 0xb5704fcc, 0x9f4a2dbf, 0xef0f2a07, 0xde896715, 0x26628815, 0xa80f11f0);
    Turn(45, 0x26628815, 0x9d4baf93, 0x17aa0dfe, 0xdf46652f, 0xa80f11f0, 0xfda24c2e, 0xdecd4715, 0x838b2711,
         0xd6990624, 0x840abf27, 0x8311c588, 0x176a8d97, 0xfb3dc5f1, 0xfec24625, 0x72ab4b91, 0xb7755da1);
    Turn(46, 0x72ab4b91, 0x26628815, 0x9d4baf93, 0x17aa0dfe, 0xb7755da1, 0xa80f11f0, 0xfda24c2e, 0xdecd4715,
         0xf40e3585, 0x7a290d5d, 0xad0f0274, 0x366b8b91, 0x8845eb06, 0xe88711ae, 0xa14c14b0, 0xd57b94a9);
    Turn(47, 0xa14c14b0, 0x72ab4b91, 0x26628815, 0x9d4baf93, 0xd57b94a9, 0xb7755da1, 0xa80f11f0, 0xfda24c2e,
         0x106aa070, 0x65c43da, 0xbd84cdc9, 0x226a0891, 0x8fa515ca, 0xbd7515f1, 0x4172328d, 0xfecf0bc6);
  }

  lemma Rounds7()
    ensures IsAfter(56, R(0x38cc9913, 0x3ec45cdb, 0xf5702fdb, 0x101fd28f, 0x54cb266b, 0xe50e1b4f, 0x9f4787c3,
            0x529e7d00))
  {
    hide IsAfter, IsWord;
    Rounds6();
    Keys7();
    Words3();
    Turn(48, 0x4172328d, 0xa14c14b0, 0x72ab4b91, 0x26628815, 0xfecf0bc6, 0xd57b94a9, 0xb7755da1, 0xa80f11f0,
         0x19a4c116, 0xfb3e89cb, 0xcfcb237, 0x616a1291, 0x4a106b1, 0xd57b54a1, 0x5757ceb, 0xbd714038);
    Turn(49, 0x5757ceb, 0x4172328d, 0xa14c14b0, 0x72ab4b91, 0xbd714038, 0xfecf0bc6, 0xd57b94a9, 0xb7755da1,
         0x1e376c08, 0xcc7617db, 0xf3f6d884, 0x17434a9, 0x5d427776, 0xfc4b9481, 0xf11bfaa8, 0x6e5c390c);
    Turn(50, 0xf11bfaa8, 0x5757ceb, 0x4172328d, 0xa14c14b0, 0x6e5c390c, 0xbd714038, 0xfecf0bc6, 0xd57b94a9,
         0x2748774c, 0xb9e66c34, 0x86ebd5b1, 0x41737aa9, 0x3e283d54, 0xbcd302ca, 0x7a0508a1, 0x52f1ccf7);
    Turn(51, 0x7a0508a1, 0xf11bfaa8, 0x5757ceb, 0x4172328d, 0x52f1ccf7, 0x6e5c390c, 0xbd714038, 0xfecf0bc6,
         0x34b0bcb5, 0xa9993667, 0xfa817e8, 0x711578a9, 0x3b47e2a3, 0xef50080c, 0x886e7a22, 0x49231c1e);
    Turn(52, 0x886e7a22, 0x7a0508a1, 0xf11bfaa8, 0x5757ceb, 0x49231c1e, 0x52f1ccf7, 0x6e5c390c, 0xbd714038,
         0x391c0cb3, 0x84badedd, 0xcae757da, 0xf80f7aa0, 0x6b63a737, 0x667d2d16, 0x101fd28f, 0x529e7d00);
    Turn(53, 0x101fd28f, 0x886e7a22, 0x7a0508a1, 0xf11bfaa8, 0x529e7d00, 0x49231c1e, 0x52f1ccf7, 0x6e5c390c,
         0x4ed8aa4a, 0xc21462bc, 0x2f35481d, 0x180f5aa3, 0xee7eaa12, 0x40639cf7, 0xf5702fdb, 0x9f4787c3);
    Turn(54, 0xf5702fdb, 0x101fd28f, 0x886e7a22, 0x7a0508a1, 0x9f4787c3, 0x529e7d00, 0x49231c1e, 0x52f1ccf7,
         0x5b9cca4f, 0x1487472c, 0x433ccfa2, 0x907e7a8b, 0x55cd1720, 0x52261d1c, 0x3ec45cdb, 0xe50e1b4f);
    Turn(55, 0x3ec45cdb, 0xf5702fdb, 0x101fd28f, 0x886e7a22, 0xe50e1b4f, 0x9f4787c3, 0x529e7d00, 0x49231c1e,
         0x682e6ff3, 0xb20f7a99, 0x381b8def, 0x34545edb, 0xd1653e5c, 0x97966743, 0x38cc9913, 0x54cb266b);
  }

  lemma Rounds8()
    ensures IsAfter(64, R(0x506e3058, 0xd39a2165, 0x4d24d6c, 0xb85e2ce9, 0x5ef50f24, 0xfb121210, 0x948d25b6,
            0x961f4894))
  {
    hide IsAfter, IsWord;
    Rounds7();
    Keys8();
    Words3();
    Turn(56, 0x38cc9913, 0x3ec45cdb, 0xf5702fdb, 0x101fd28f, 0x54cb266b, 0xe50e1b4f, 0x9f4787c3, 0x529e7d00,
         0x748f82ee, 0xef57b9cd, 0x34ceacc3, 0x3cc41ddb, 0x5aa8057, 0xcf0e83cb, 0xfcd1887b, 0x9b5e906c);
    Turn(57, 0xfcd1887b, 0x38cc9913, 0x3ec45cdb, 0xf5702fdb, 0x9b5e906c, 0x54cb266b, 0xe50e1b4f, 0x9f4787c3,
         0x78a5636f, 0xebe6b238, 0xfaca6b61, 0x3cc4985b, 0x10b627de, 0x744a0b6b, 0xc062d46f, 0x7e44008e);
    Turn(58, 0xc062d46f, 0xfcd1887b, 0x38cc9913, 0x3ec45cdb, 0x7e44008e, 0x9b5e906c, 0x54cb266b, 0xe50e1b4f,
         0x84c87814, 0x9fe3095e, 0xd837090c, 0xf8c0987b, 0xa369fbd, 0x1acf266d, 0xffb70472, 0x6d83bfc6);
    Turn(59, 0xffb70472, 0xc062d46f, 0xfcd1887b, 0x38cc9913, 0x6d83bfc6, 0x7e44008e, 0x9b5e906c, 0x54cb266b,
         0x8cc70208, 0x78bc8d4b, 0x406bf75a, 0xfcf3847b, 0x20a45dbe, 0xfe5c00ae, 0xb6ae8fff, 0xb21bad3d);
    Turn(60, 0xb6ae8fff, 0xffb70472, 0xc062d46f, 0xfcd1887b, 0xb21bad3d, 0x6d83bfc6, 0x7e44008e, 0x9b5e906c,
         0x90befffa, 0xa43fcf15, 0x2869e851, 0xf6a6847f, 0x5ca8b318, 0x6c47ad86, 0xb85e2ce9, 0x961f4894);
    Turn(61, 0xb85e2ce9, 0xb6ae8fff, 0xffb70472, 0xc062d46f, 0x961f4894, 0xb21bad3d, 0x6d83bfc6, 0x7e44008e,
         0xa4506ceb, 0x668b2ff8, 0x71e9ef2a, 0xbebe0cfb, 0x4f6ef480, 0xfb9bbf56, 0x4d24d6c, 0x948d25b6);
    Turn(62, 0x4d24d6c, 0xb85e2ce9, 0xb6ae8fff, 0xffb70472, 0x948d25b6, 0x961f4894, 0xb21bad3d, 0x6d83bfc6,
         0xbef9a3f7, 0xeeaba2cc, 0x236105da, 0xb4de0ded, 0x2a127e78, 0xb61f889d, 0xd39a2165, 0xfb121210);
    Turn(63, 0xd39a2165, 0x4d24d6c, 0xb85e2ce9, 0xb6ae8fff, 0xfb121210, 0x948d25b6, 0x961f4894, 0xb21bad3d,
         0xc67178f2, 0x12b1edeb, 0x174d83c6, 0x90da2d6d, 0x88fa2277, 0x940d4894, 0x506e3058, 0x5ef50f24);
  }

  lemma Before()
    ensures IsAfter(0, R(0x6a09e667, 0xbb67ae85, 0x3c6ef372, 0xa54ff53a, 0x510e527f, 0x9b05688c, 0x1f83d9ab,
            0x5be0cd19))
  {}

  lemma Final()
    ensures Compress(INITIAL, AbcBlock()) == [0xba7816bf, 0x8f01cfea, 0x414140de, 0x5dae2223,
        0xb00361a3, 0x96177a9c, 0xb410ff61, 0xf20015ad]
  {
    hide Steps, AbcBlock;
    Rounds8();
    assert After(64) == R(0x506e3058, 0xd39a2165, 0x4d24d6c, 0xb85e2ce9, 0x5ef50f24, 0xfb121210, 0x948d25b6,
            0x961f4894);
  }

  lemma Spelled()
    ensures WriteBE32(0xba7816bf) == [0xba, 0x78, 0x16, 0xbf]
    ensures WriteBE32(0x8f01cfea) == [0x8f, 0x01, 0xcf, 0xea]
    ensures WriteBE32(0x414140de) == [0x41, 0x41, 0x40, 0xde]
    ensures WriteBE32(0x5dae2223) == [0x5d, 0xae, 0x22, 0x23]
    ensures WriteBE32(0xb00361a3) == [0xb0, 0x03, 0x61, 0xa3]
    ensures WriteBE32(0x96177a9c) == [0x96, 0x17, 0x7a, 0x9c]
    ensures WriteBE32(0xb410ff61) == [0xb4, 0x10, 0xff, 0x61]
    ensures WriteBE32(0xf20015ad) == [0xf2, 0x00, 0x15, 0xad]
  {}

  /** The digest of "abc". */
  lemma AbcDigest()
    ensures Sha(ABC) == [0xba, 0x78, 0x16, 0xbf] + [0x8f, 0x01, 0xcf, 0xea] + [0x41, 0x41, 0x40, 0xde] + [0x5d, 0xae,
            0x22, 0x23]
        + [0xb0, 0x03, 0x61, 0xa3] + [0x96, 0x17, 0x7a, 0x9c] + [0xb4, 0x10, 0xff, 0x61] + [0xf2, 0x00, 0x15, 0xad]
  {
    hide Compress, WriteBE32, Padded, AbcBlock;
    AbcPadded();
    Final();
    Spelled();
    OneBlock(AbcBlock());
    BlockIs();
  }

  lemma BlockIs()
    ensures AbcBlock() == Padded(ABC)
  {}

  lemma OneBlock(b: Block)
    ensures Fold(INITIAL, b) == Compress(INITIAL, b)
  {
    hide Compress;
    assert b[..64] == b && b[64..] == [];
  }
}
