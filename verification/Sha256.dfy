/** SHA-256 as section 6.2 of FIPS 180-4 defines it, over words and blocks. */
module Sha256 {
  import opened Bytes
  import opened Limbs

  type Block = b: Bytes | |b| == 64 witness seq(64, _ => 0)
  type Hash = s: seq<Word> | |s| == 8 witness seq(8, _ => 0)

  const INITIAL: Hash := [0x6a09e667, 0xbb67ae85, 0x3c6ef372, 0xa54ff53a, 0x510e527f, 0x9b05688c, 0x1f83d9ab,
      0x5be0cd19]

  /** The round constants. */
  const K: seq<Word> :=
      [0x428a2f98, 0x71374491, 0xb5c0fbcf, 0xe9b5dba5, 0x3956c25b, 0x59f111f1, 0x923f82a4, 0xab1c5ed5]
      + [0xd807aa98, 0x12835b01, 0x243185be, 0x550c7dc3, 0x72be5d74, 0x80deb1fe, 0x9bdc06a7, 0xc19bf174]
      + [0xe49b69c1, 0xefbe4786, 0x0fc19dc6, 0x240ca1cc, 0x2de92c6f, 0x4a7484aa, 0x5cb0a9dc, 0x76f988da]
      + [0x983e5152, 0xa831c66d, 0xb00327c8, 0xbf597fc7, 0xc6e00bf3, 0xd5a79147, 0x06ca6351, 0x14292967]
      + [0x27b70a85, 0x2e1b2138, 0x4d2c6dfc, 0x53380d13, 0x650a7354, 0x766a0abb, 0x81c2c92e, 0x92722c85]
      + [0xa2bfe8a1, 0xa81a664b, 0xc24b8b70, 0xc76c51a3, 0xd192e819, 0xd6990624, 0xf40e3585, 0x106aa070]
      + [0x19a4c116, 0x1e376c08, 0x2748774c, 0x34b0bcb5, 0x391c0cb3, 0x4ed8aa4a, 0x5b9cca4f, 0x682e6ff3]
      + [0x748f82ee, 0x78a5636f, 0x84c87814, 0x8cc70208, 0x90befffa, 0xa4506ceb, 0xbef9a3f7, 0xc67178f2]

  /** Addition modulo 2^32. */
  function Add(x: Word, y: Word): Word { (x + y) % B }

  function ChBits(x: bv32, y: bv32, z: bv32): bv32 { (x & y) ^ (!x & z) }
  function MajBits(x: bv32, y: bv32, z: bv32): bv32 { (x & y) ^ (x & z) ^ (y & z) }
  function BigSigma0Bits(x: bv32): bv32 { x.RotateRight(2) ^ x.RotateRight(13) ^ x.RotateRight(22) }
  function BigSigma1Bits(x: bv32): bv32 { x.RotateRight(6) ^ x.RotateRight(11) ^ x.RotateRight(25) }
  function SmallSigma0Bits(x: bv32): bv32 { x.RotateRight(7) ^ x.RotateRight(18) ^ (x >> 3) }
  function SmallSigma1Bits(x: bv32): bv32 { x.RotateRight(17) ^ x.RotateRight(19) ^ (x >> 10) }

  function Ch(x: Word, y: Word, z: Word): Word { ChBits(x as bv32, y as bv32, z as bv32) as int }
  function Maj(x: Word, y: Word, z: Word): Word { MajBits(x as bv32, y as bv32, z as bv32) as int }
  function BigSigma0(x: Word): Word { BigSigma0Bits(x as bv32) as int }
  function BigSigma1(x: Word): Word { BigSigma1Bits(x as bv32) as int }
  function SmallSigma0(x: Word): Word { SmallSigma0Bits(x as bv32) as int }
  function SmallSigma1(x: Word): Word { SmallSigma1Bits(x as bv32) as int }

  /** A big-endian word of a block. */
  function ReadBE32(b: Bytes, i: nat): Word
    requires i + 4 <= |b|
  {
    0x100_0000 * b[i] as int + 0x1_0000 * b[i + 1] as int + 0x100 * b[i + 2] as int + b[i + 3] as int
  }

  function WriteBE32(x: Word): (b: Bytes)
    ensures |b| == 4
  {
    [x / 0x100_0000, x / 0x1_0000 % 256, x / 0x100 % 256, x % 256]
  }

  /** The message schedule: word t of the 64 expanded from a block. */
  function W(block: Block, t: nat): Word {
    if t < 16 then ReadBE32(block, 4 * t)
    else Add(Add(Add(SmallSigma1(W(block, t - 2)), W(block, t - 7)), SmallSigma0(W(block, t - 15))), W(block, t - 16))
  }

  datatype Regs = Regs(a: Word, b: Word, c: Word, d: Word, e: Word, f: Word, g: Word, h: Word)

  /** One step of the compression: the working variables all move on by one. */
  function Step(r: Regs, k: Word, w: Word): Regs {
    var t1 := Add(Add(Add(Add(r.h, BigSigma1(r.e)), Ch(r.e, r.f, r.g)), k), w);
    var t2 := Add(BigSigma0(r.a), Maj(r.a, r.b, r.c));
    Regs(Add(t1, t2), r.a, r.b, r.c, Add(r.d, t1), r.e, r.f, r.g)
  }

  function Steps(r: Regs, block: Block, t: nat): Regs
    requires t <= 64
  {
    if t == 0 then r else Step(Steps(r, block, t - 1), K[t - 1], W(block, t - 1))
  }

  function Load(s: Hash): Regs { Regs(s[0], s[1], s[2], s[3], s[4], s[5], s[6], s[7]) }

  /** One block folded into the hash value. */
  function Compress(s: Hash, block: Block): Hash {
    var r := Steps(Load(s), block, 64);
    [Add(s[0], r.a), Add(s[1], r.b), Add(s[2], r.c), Add(s[3], r.d),
     Add(s[4], r.e), Add(s[5], r.f), Add(s[6], r.g), Add(s[7], r.h)]
  }

  function Fold(s: Hash, m: Bytes): Hash
    requires |m| % 64 == 0
    decreases |m|
  {
    if m == [] then s else Fold(Compress(s, m[..64]), m[64..])
  }

  lemma {:induction false} FoldAppend(s: Hash, m: Bytes, n: Bytes)
    requires |m| % 64 == 0 && |n| % 64 == 0
    ensures Fold(s, m + n) == Fold(Fold(s, m), n)
    decreases |m|
  {
    hide Compress;
    if m == [] {
      assert m + n == n;
    } else {
      assert (m + n)[..64] == m[..64] && (m + n)[64..] == m[64..] + n;
      FoldAppend(Compress(s, m[..64]), m[64..], n);
    }
  }

  // ----- Padding, section 5.1.1 -----

  /** How many zero bytes follow the 0x80. */
  function ZeroBytes(n: nat): nat { (55 - n) % 64 }

  /** Section 5.1.1 asks for the least number of zeros that leaves exactly eight bytes in the last block. */
  lemma ZeroBytesIsLeast(n: nat, k: nat)
    ensures (n + 1 + ZeroBytes(n)) % 64 == 56 && ((n + 1 + k) % 64 == 56 ==> ZeroBytes(n) <= k)
  {
    if k < 64 { assert (n + 1 + k) % 64 == 56 ==> k == (55 - n) % 64; }
  }

  function BE64(n: nat): (b: Bytes)
    ensures |b| == 8
  {
    seq(8, i requires 0 <= i < 8 => n / Pow256(7 - i) % 256)
  }

  function ZeroPad(n: nat): (b: Bytes)
    ensures |b| == n
  {
    seq(n, _ => 0)
  }

  /** The message, 0x80, the fewest zeros that leave room for the length, and the bit length modulo 2^64. */
  function Padded(m: Bytes): (p: Bytes)
    ensures |p| % 64 == 0
  {
    m + [0x80] + ZeroPad(ZeroBytes(|m|)) + BE64(8 * |m| % 0x1_0000_0000_0000_0000)
  }

  function Digest(s: Hash): (d: Hash32) {
    WriteBE32(s[0]) + WriteBE32(s[1]) + WriteBE32(s[2]) + WriteBE32(s[3]) +
    WriteBE32(s[4]) + WriteBE32(s[5]) + WriteBE32(s[6]) + WriteBE32(s[7])
  }

  /** The hash of a message. */
  function Sha(m: Bytes): Hash32 { Digest(Fold(INITIAL, Padded(m))) }
}
