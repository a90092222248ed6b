/** The block transform as both hashers write it out: rounds on renamed variables, a schedule of sixteen words in
    place. */
module Sha256Cpu {
  import opened Bytes
  import opened Limbs
  import opened Sha256

  // ----- The bit functions of the source and their standard forms -----

  function ChSelectBits(x: bv32, y: bv32, z: bv32): bv32 { z ^ (x & (y ^ z)) }
  function MajVoteBits(x: bv32, y: bv32, z: bv32): bv32 { (x & y) | (z & (x | y)) }
  function Sigma0Bits(x: bv32): bv32 { ((x >> 2) | (x << 30)) ^ ((x >> 13) | (x << 19)) ^ ((x >> 22) | (x << 10)) }
  function Sigma1Bits(x: bv32): bv32 { ((x >> 6) | (x << 26)) ^ ((x >> 11) | (x << 21)) ^ ((x >> 25) | (x << 7)) }
  function LowerSigma0Bits(x: bv32): bv32 { ((x >> 7) | (x << 25)) ^ ((x >> 18) | (x << 14)) ^ (x >> 3) }
  function LowerSigma1Bits(x: bv32): bv32 { ((x >> 17) | (x << 15)) ^ ((x >> 19) | (x << 13)) ^ (x >> 10) }

  function ChSelect(x: Word, y: Word, z: Word): Word { ChSelectBits(x as bv32, y as bv32, z as bv32) as int }
  function MajVote(x: Word, y: Word, z: Word): Word { MajVoteBits(x as bv32, y as bv32, z as bv32) as int }
  function Sigma0(x: Word): Word { Sigma0Bits(x as bv32) as int }
  function Sigma1(x: Word): Word { Sigma1Bits(x as bv32) as int }
  function LowerSigma0(x: Word): Word { LowerSigma0Bits(x as bv32) as int }
  function LowerSigma1(x: Word): Word { LowerSigma1Bits(x as bv32) as int }

  lemma SelectBits(x: bv32, y: bv32, z: bv32)
    ensures z ^ (x & (y ^ z)) == (x & y) ^ (!x & z)
  {}

  lemma VoteBits(x: bv32, y: bv32, z: bv32)
    ensures (x & y) | (z & (x | y)) == (x & y) ^ (x & z) ^ (y & z)
  {}

  lemma SelectIsCh(x: bv32, y: bv32, z: bv32)
    ensures ChSelectBits(x, y, z) == ChBits(x, y, z)
  {
    SelectBits(x, y, z);
  }

  lemma VoteIsMaj(x: bv32, y: bv32, z: bv32)
    ensures MajVoteBits(x, y, z) == MajBits(x, y, z)
  {
    VoteBits(x, y, z);
  }

  lemma SigmaBitsRotate(x: bv32)
    ensures Sigma0Bits(x) == BigSigma0Bits(x) && Sigma1Bits(x) == BigSigma1Bits(x)
    ensures LowerSigma0Bits(x) == SmallSigma0Bits(x) && LowerSigma1Bits(x) == SmallSigma1Bits(x)
  {}

  /** The selections and shifts of the source are the functions of section 4.1.2 of the standard. */
  lemma BitFunctionsAgree(x: Word, y: Word, z: Word)
    ensures ChSelect(x, y, z) == Ch(x, y, z) && MajVote(x, y, z) == Maj(x, y, z)
    ensures Sigma0(x) == BigSigma0(x) && Sigma1(x) == BigSigma1(x)
    ensures LowerSigma0(x) == SmallSigma0(x) && LowerSigma1(x) == SmallSigma1(x)
  {
    hide ChSelectBits, MajVoteBits, Sigma0Bits, Sigma1Bits, LowerSigma0Bits, LowerSigma1Bits;
    hide ChBits, MajBits, BigSigma0Bits, BigSigma1Bits, SmallSigma0Bits, SmallSigma1Bits;
    SelectIsCh(x as bv32, y as bv32, z as bv32);
    VoteIsMaj(x as bv32, y as bv32, z as bv32);
    SigmaBitsRotate(x as bv32);
  }

  lemma AddAssociates(x: Word, y: Word, z: Word)
    ensures Add(x, Add(y, z)) == Add(Add(x, y), z)
  {}

  lemma AddCommutes(x: Word, y: Word)
    ensures Add(x, y) == Add(y, x)
  {}

  // ----- Rounds -----

  /** One round: the new d and h; the other six variables stay where they are. */
  function Round(a: Word, b: Word, c: Word, d: Word, e: Word, f: Word, g: Word, h: Word, k: Word): (Word, Word) {
    var t1 := Add(Add(Add(h, Sigma1(e)), ChSelect(e, f, g)), k);
    var t2 := Add(Sigma0(a), MajVote(a, b, c));
    (Add(d, t1), Add(t1, t2))
  }

  /** A round is a step of the standard with the variables renamed instead of moved. */
  lemma RoundIsStep(a: Word, b: Word, c: Word, d: Word, e: Word, f: Word, g: Word, h: Word, k: Word, w: Word)
    ensures var (d', h') := Round(a, b, c, d, e, f, g, h, Add(k, w));
            Regs(h', a, b, c, d', e, f, g) == Step(Regs(a, b, c, d, e, f, g, h), k, w)
  {
    hide Sigma0, Sigma1, BigSigma0, BigSigma1, ChSelect, MajVote, Ch, Maj, Add;
    AddAssociates(Add(Add(h, Sigma1(e)), ChSelect(e, f, g)), k, w);
    BitFunctionsAgree(a, b, c);
    BitFunctionsAgree(e, f, g);
  }

  lemma RoundIsNext(a: Word, b: Word, c: Word, d: Word, e: Word, f: Word, g: Word, h: Word, x: Word,
                    start: Regs, block: Block, t: nat)
    requires t < 64 && Regs(a, b, c, d, e, f, g, h) == Steps(start, block, t) && x == Add(K[t], W(block, t))
    ensures var (d', h') := Round(a, b, c, d, e, f, g, h, x);
            Regs(h', a, b, c, d', e, f, g) == Steps(start, block, t + 1)
  {
    hide Round, Step, W, Add;
    RoundIsStep(a, b, c, d, e, f, g, h, K[t], W(block, t));
  }

  /** Eight rounds, each on the variables renamed once more; after them the names are back in place. */
  method EightRounds(r0: Regs, x: seq<Word>, ghost start: Regs, ghost block: Block, ghost t: nat) returns (r8: Regs)
    requires t + 8 <= 64 && r0 == Steps(start, block, t)
    requires |x| == 8 && forall i :: 0 <= i < 8 ==> x[i] == Add(K[t + i], W(block, t + i))
    ensures r8 == Steps(start, block, t + 8)
  {
    hide Round, Steps, W, Add;
    var a, b, c, d := r0.a, r0.b, r0.c, r0.d;
    var e, f, g, h := r0.e, r0.f, r0.g, r0.h;
    var r: (Word, Word);
    RoundIsNext(a, b, c, d, e, f, g, h, x[0], start, block, t + 0);
    r := Round(a, b, c, d, e, f, g, h, x[0]);
    d, h := r.0, r.1;
    RoundIsNext(h, a, b, c, d, e, f, g, x[1], start, block, t + 1);
    r := Round(h, a, b, c, d, e, f, g, x[1]);
    c, g := r.0, r.1;
    RoundIsNext(g, h, a, b, c, d, e, f, x[2], start, block, t + 2);
    r := Round(g, h, a, b, c, d, e, f, x[2]);
    b, f := r.0, r.1;
    RoundIsNext(f, g, h, a, b, c, d, e, x[3], start, block, t + 3);
    r := Round(f, g, h, a, b, c, d, e, x[3]);
    a, e := r.0, r.1;
    RoundIsNext(e, f, g, h, a, b, c, d, x[4], start, block, t + 4);
    r := Round(e, f, g, h, a, b, c, d, x[4]);
    h, d := r.0, r.1;
    RoundIsNext(d, e, f, g, h, a, b, c, x[5], start, block, t + 5);
    r := Round(d, e, f, g, h, a, b, c, x[5]);
    g, c := r.0, r.1;
    RoundIsNext(c, d, e, f, g, h, a, b, x[6], start, block, t + 6);
    r := Round(c, d, e, f, g, h, a, b, x[6]);
    f, b := r.0, r.1;
    RoundIsNext(b, c, d, e, f, g, h, a, x[7], start, block, t + 7);
    r := Round(b, c, d, e, f, g, h, a, x[7]);
    e, a := r.0, r.1;
    r8 := Regs(a, b, c, d, e, f, g, h);
  }

  // ----- The schedule in place -----

  /** The sixteen words hold the last sixteen of the schedule, each at its index modulo sixteen. */
  ghost predicate Holds(w: seq<Word>, block: Block, t: nat) {
    |w| == 16 && forall u :: t - 16 <= u < t && 0 <= u ==> w[u % 16] == W(block, u)
  }

  lemma HoldsNext(w: seq<Word>, block: Block, t: nat)
    requires Holds(w, block, t)
    ensures Holds(w[t % 16 := W(block, t)], block, t + 1)
  {
    hide W;
    var w' := w[t % 16 := W(block, t)];
    forall u | t + 1 - 16 <= u < t + 1 && 0 <= u ensures w'[u % 16] == W(block, u) {
      assert u != t ==> u % 16 != t % 16;
    }
  }

  lemma ScheduleAt(w: seq<Word>, block: Block, t: nat)
    requires t >= 16 && Holds(w, block, t)
    ensures var j := t % 16;
            w[j] == W(block, t - 16) && w[(j + 1) % 16] == W(block, t - 15)
            && w[(j + 9) % 16] == W(block, t - 7) && w[(j + 14) % 16] == W(block, t - 2)
  {
    hide W;
    SlotOf(t, 16);
    SlotOf(t, 15);
    SlotOf(t, 7);
    SlotOf(t, 2);
    assert w[(t - 16) % 16] == W(block, t - 16) && w[(t - 15) % 16] == W(block, t - 15);
    assert w[(t - 7) % 16] == W(block, t - 7) && w[(t - 2) % 16] == W(block, t - 2);
  }

  lemma SlotOf(t: nat, back: nat)
    requires back <= 16 <= t
    ensures (t - back) % 16 == (t % 16 + (16 - back)) % 16
  {}

  /** The in-place update of a word is the recurrence of the schedule. */
  lemma UpdatedWord(w: seq<Word>, block: Block, t: nat)
    requires t >= 16 && Holds(w, block, t)
    ensures var j := t % 16;
            Add(w[j], Add(Add(LowerSigma1(w[(j + 14) % 16]), w[(j + 9) % 16]), LowerSigma0(w[(j + 1) % 16])))
                == W(block, t)
  {
    hide LowerSigma0, LowerSigma1, SmallSigma0, SmallSigma1, ReadBE32, Add, Holds;
    ScheduleAt(w, block, t);
    BitFunctionsAgree(W(block, t - 2), 0, 0);
    BitFunctionsAgree(W(block, t - 15), 0, 0);
    AddCommutes(W(block, t - 16),
                Add(Add(LowerSigma1(W(block, t - 2)), W(block, t - 7)), LowerSigma0(W(block, t - 15))));
  }

  method NextWord(w: array<Word>, block: Block, t: nat) returns (x: Word)
    requires w.Length == 16 && Holds(w[..], block, t)
    modifies w
    ensures Holds(w[..], block, t + 1) && x == W(block, t)
  {
    hide LowerSigma0, LowerSigma1, Add, Holds;
    var j := t % 16;
    HoldsNext(w[..], block, t);
    ghost var w' := w[..][j := W(block, t)];
    if t < 16 {
      w[j] := ReadBE32(block, 4 * j);
    } else {
      UpdatedWord(w[..], block, t);
      w[j] := Add(w[j], Add(Add(LowerSigma1(w[(j + 14) % 16]), w[(j + 9) % 16]), LowerSigma0(w[(j + 1) % 16])));
    }
    assert w[..] == w';
    x := w[j];
  }

  /** The eight round inputs K + w of one group. */
  method EightWords(w: array<Word>, block: Block, t: nat) returns (x: seq<Word>)
    requires w.Length == 16 && t + 8 <= 64 && Holds(w[..], block, t)
    modifies w
    ensures Holds(w[..], block, t + 8)
    ensures |x| == 8 && forall i :: 0 <= i < 8 ==> x[i] == Add(K[t + i], W(block, t + i))
  {
    hide Add, Holds, W;
    x := [];
    for n := 0 to 8
      invariant Holds(w[..], block, t + n)
      invariant |x| == n && forall i :: 0 <= i < n ==> x[i] == Add(K[t + i], W(block, t + i))
    {
      var y := NextWord(w, block, t + n);
      x := x + [Add(K[t + n], y)];
    }
  }

  /** One pass of Transform's loop; the source writes the eight groups out. */
  method TransformBlock(s: array<Word>, block: Block)
    requires s.Length == 8
    modifies s
    ensures s[..] == Compress(old(s[..]), block)
  {
    hide Add, Holds, W, Steps;
    ghost var start := Load(s[..]);
    var r := Regs(s[0], s[1], s[2], s[3], s[4], s[5], s[6], s[7]);
    var w := new Word[16];
    NothingLoaded(w[..], block, start);
    for group := 0 to 8
      invariant Holds(w[..], block, 8 * group) && r == Steps(start, block, 8 * group)
      invariant s[..] == old(s[..])
    {
      var x := EightWords(w, block, 8 * group);
      r := EightRounds(r, x, start, block, 8 * group);
    }
    s[0], s[1], s[2], s[3] := Add(s[0], r.a), Add(s[1], r.b), Add(s[2], r.c), Add(s[3], r.d);
    s[4], s[5], s[6], s[7] := Add(s[4], r.e), Add(s[5], r.f), Add(s[6], r.g), Add(s[7], r.h);
  }

  lemma NothingLoaded(w: seq<Word>, block: Block, start: Regs)
    requires |w| == 16
    ensures Holds(w, block, 0) && Steps(start, block, 0) == start
  {}

  /** Transform: consecutive 64-byte chunks folded into s. */
  method Transform(s: array<Word>, data: Bytes, blocks: nat)
    requires s.Length == 8 && 64 * blocks <= |data|
    modifies s
    ensures s[..] == Fold(old(s[..]), data[..64 * blocks])
  {
    hide Compress;
    ghost var s0 := s[..];
    for i := 0 to blocks
      invariant s[..] == Fold(s0, data[..64 * i])
    {
      FoldAppend(s0, data[..64 * i], data[64 * i..64 * i + 64]);
      assert data[..64 * i + 64] == data[..64 * i] + data[64 * i..64 * i + 64];
      FoldOne(s[..], data[64 * i..64 * i + 64]);
      TransformBlock(s, data[64 * i..64 * i + 64]);
    }
  }

  lemma FoldOne(s: Hash, block: Block)
    ensures Fold(s, block) == Compress(s, block)
  {
    hide Compress;
    assert block[..64] == block && block[64..] == [];
  }
}
