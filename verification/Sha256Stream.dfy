/** The streaming hasher, the double hash built on it, and the miner's fixed-length double hash. */
module Sha256Stream {
  import opened Bytes
  import opened Bits
  import opened Limbs
  import opened Sha256
  import opened Sha256Cpu

  const U64 := 0x1_0000_0000_0000_0000

  /** Where the last whole block of an n-byte message ends. */
  function Whole(n: nat): nat { n / 64 * 64 }

  lemma WholeStep(n: nat, k: nat)
    ensures Whole(n) % 64 == 0 && Whole(n) + n % 64 == n
    ensures n % 64 + k == 64 ==> (n + k) % 64 == 0 && Whole(n + k) == n + k
    ensures n % 64 + k < 64 ==> Whole(n + k) == Whole(n)
  {}

  /** Appending within the buffer leaves the folded part alone. */
  lemma AppendShort(m: Bytes, data: Bytes)
    requires |m| % 64 + |data| < 64
    ensures Whole(|m + data|) == Whole(|m|) && (m + data)[..Whole(|m|)] == m[..Whole(|m|)]
    ensures (m + data)[Whole(|m|)..] == m[Whole(|m|)..] + data
  {
    hide Whole;
    WholeStep(|m|, |data|);
  }

  /** Filling the buffer folds one more block. */
  lemma AppendFull(m: Bytes, data: Bytes)
    requires |m| % 64 + |data| == 64
    ensures |m + data| % 64 == 0 && Whole(|m + data|) == Whole(|m|) + 64
    ensures |m[Whole(|m|)..] + data| == 64
    ensures Fold(INITIAL, m + data) == Compress(Fold(INITIAL, m[..Whole(|m|)]), m[Whole(|m|)..] + data)
  {
    hide Compress, Fold, Whole;
    WholeStep(|m|, |data|);
    var w := Whole(|m|);
    assert m + data == m[..w] + (m[w..] + data);
    FoldAppend(INITIAL, m[..w], m[w..] + data);
    FoldOne(Fold(INITIAL, m[..w]), m[w..] + data);
  }

  class Sha256Hasher {
    const s: array<Word>
    const buf: array<byte>
    var bytes: nat
    ghost var written: Bytes

    /** s has folded the whole blocks written so far, and the rest waits in the buffer. */
    ghost predicate Valid()
      reads this, s, buf
    {
      && s.Length == 8 && buf.Length == 64
      && bytes == |written| % U64
      && s[..] == Fold(INITIAL, written[..Whole(|written|)])
      && buf[..|written| % 64] == written[Whole(|written|)..]
    }

    constructor ()
      ensures Valid() && fresh(s) && fresh(buf) && written == []
    {
      s := new Word[8];
      buf := new byte[64];
      bytes, written := 0, [];
      new;
      InitState(s);
    }

    method Reset()
      requires s.Length == 8 && buf.Length == 64
      modifies this, s
      ensures Valid() && written == []
    {
      bytes, written := 0, [];
      InitState(s);
    }

    /** memcpy into the buffer. */
    method CopyIn(at: nat, data: Bytes)
      requires buf.Length == 64 && at + |data| <= 64
      modifies buf
      ensures buf[..at + |data|] == old(buf[..at]) + data
    {
      for i := 0 to |data|
        invariant buf[..at] == old(buf[..at])
        invariant forall j :: 0 <= j < i ==> buf[at + j] == data[j]
      { buf[at + i] := data[i]; }
    }

    /** Fill the buffer and process it. */
    method FillBuffer(head: Bytes)
      requires Valid() && |written| % 64 + |head| == 64
      modifies this, s, buf
      ensures Valid() && written == old(written) + head && |written| % 64 == 0
    {
      hide Fold, Compress;
      var bufsize := bytes % 64;
      AppendFull(written, head);
      CountUp(|written|, |head|);
      ghost var block := written[Whole(|written|)..] + head;
      CopyIn(bufsize, head);
      bytes := (bytes + (64 - bufsize)) % U64;
      assert buf[..] == block;
      FoldOne(s[..], block);
      Transform(s, buf[..], 1);
      assert block[..64] == block;
      written := written + head;
      assert written[..|written|] == written;
    }

    /** Fold whole blocks straight from the input. */
    method WriteBlocks(data: Bytes, blocks: nat)
      requires Valid() && |written| % 64 == 0 && 64 * blocks <= |data|
      modifies this, s
      ensures Valid() && written == old(written) + data[..64 * blocks] && |written| % 64 == 0
    {
      hide Fold, Compress, Whole;
      ghost var n, whole := |written|, data[..64 * blocks];
      CountUp(n, 64 * blocks);
      WholeStep(n, 0);
      WholeStep(n + 64 * blocks, 0);
      assert (n + 64 * blocks) % 64 == 0;
      Transform(s, data, blocks);
      FoldAppend(INITIAL, written, whole);
      assert written[..n] == written;
      bytes := (bytes + 64 * blocks) % U64;
      written := written + whole;
      assert written[..n + 64 * blocks] == written;
    }

    /** Keep what remains for later. */
    method WriteTail(tail: Bytes)
      requires Valid() && |written| % 64 + |tail| < 64
      modifies this, buf
      ensures Valid() && written == old(written) + tail
    {
      hide Fold, Compress;
      AppendShort(written, tail);
      CountUp(|written|, |tail|);
      CopyIn(bytes % 64, tail);
      bytes := (bytes + |tail|) % U64;
      written := written + tail;
    }

    lemma Buffered()
      requires Valid()
      ensures bytes == |written| % U64 && bytes % 64 == |written| % 64
    {
      CountUp(|written|, 0);
    }

    method Write(data: Bytes)
      requires Valid()
      modifies this, s, buf
      ensures Valid() && written == old(written) + data
    {
      hide Valid;
      var bufsize, rest := bytes % 64, data;
      Buffered();
      if bufsize != 0 && bufsize + |rest| >= 64 {
        Rejoin(written, rest, 64 - bufsize);
        FillBuffer(rest[..64 - bufsize]);
        rest := rest[64 - bufsize..];
      }
      if |rest| >= 64 {
        var blocks := |rest| / 64;
        Rejoin(written, rest, 64 * blocks);
        WriteBlocks(rest, blocks);
        rest := rest[64 * blocks..];
      }
      if |rest| > 0 { WriteTail(rest); }
    }

    /** Pad with what the byte count asks for, then write out the state. */
    method Finalize() returns (hash: Hash32)
      requires Valid()
      modifies this, s, buf
      ensures s.Length == 8 && buf.Length == 64
      ensures hash == Sha(old(written))
    {
      hide Fold, Compress, WriteBE32, BE64, ZeroPad, Padded, Valid;
      ghost var m := written;
      Buffered();
      PaddingWritten(m, bytes);
      var sizedesc := BE64(bytes * 8 % U64);
      var pad := [0x80] + ZeroPad(63);
      Write(pad[..1 + (119 - bytes % 64) % 64]);
      Write(sizedesc);
      AllFolded();
      hash := Digest(s[..]);
    }

    lemma AllFolded()
      requires Valid() && |written| % 64 == 0
      ensures s.Length == 8 && buf.Length == 64 && s[..] == Fold(INITIAL, written)
    {
      assert written[..|written|] == written;
    }
  }

  lemma Rejoin(w: Bytes, rest: Bytes, k: nat)
    requires k <= |rest|
    ensures w + rest[..k] + rest[k..] == w + rest
  {}

  /** The pieces Finalize writes make up the padding. */
  lemma PaddingWritten(m: Bytes, bytes: nat)
    requires bytes == |m| % U64
    ensures var n := 1 + (119 - bytes % 64) % 64;
            n <= 64 && m + ([0x80] + ZeroPad(63))[..n] + BE64(bytes * 8 % U64) == Padded(m)
  {
    hide BE64, ZeroBytes, ZeroPad;
    LengthField(|m|);
    CountUp(|m|, 0);
    ZeroCount(|m|);
    var k := ZeroBytes(|m|);
    PadTake(k);
    assert m + ([0x80] + ZeroPad(k)) == m + [0x80] + ZeroPad(k);
  }

  lemma ZeroCount(n: nat)
    ensures (119 - n % 64) % 64 == ZeroBytes(n) < 64
  {}

  lemma CountUp(n: nat, k: nat)
    ensures (n % U64 + k) % U64 == (n + k) % U64 && n % U64 % 64 == n % 64
  {
    var q, r := n / U64, n % U64;
    DivMod(n, U64);
    Wrapped(r + k, q);
    LowBits(q, r);
  }

  lemma LowBits(q: nat, r: nat)
    ensures (U64 * q + r) % 64 == r % 64
  {
    ModIs(r % 64, U64 / 64 * q + r / 64, 64, U64 * q + r);
  }

  lemma Wrapped(x: nat, q: nat)
    ensures (U64 * q + x) % U64 == x % U64
  {
    ModIs(x % U64, q + x / U64, U64, U64 * q + x);
  }

  lemma LengthField(n: nat)
    ensures n % U64 * 8 % U64 == 8 * n % U64
  {
    Wrapped(8 * (n % U64), 8 * (n / U64));
    assert 8 * n == U64 * (8 * (n / U64)) + 8 * (n % U64);
  }

  lemma PadTake(k: nat)
    requires k <= 63
    ensures ([0x80] + ZeroPad(63))[..k + 1] == [0x80] + ZeroPad(k)
  {}

  /** A hash of a hash. */
  function DoubleSha(m: Bytes): Hash32 { Sha(Sha(m)) }

  class DoubleHash256 {
    const sha: Sha256Hasher

    constructor ()
      ensures sha.Valid() && fresh(sha) && fresh(sha.s) && fresh(sha.buf) && sha.written == []
    {
      sha := new Sha256Hasher();
    }

    method Write(input: Bytes)
      requires sha.Valid()
      modifies sha, sha.s, sha.buf
      ensures sha.Valid() && sha.written == old(sha.written) + input
    {
      sha.Write(input);
    }

    method Finalize() returns (output: Hash32)
      requires sha.Valid()
      modifies sha, sha.s, sha.buf
      ensures output == DoubleSha(old(sha.written))
    {
      hide Sha;
      var first := sha.Finalize();
      sha.Reset();
      sha.Write(first);
      output := sha.Finalize();
    }
  }

  /** However a message is cut into pieces, the digest is the digest of the whole. */
  method HashPieces(pieces: seq<Bytes>) returns (hash: Hash32)
    ensures hash == DoubleSha(Concat(pieces))
  {
    hide DoubleSha;
    var hasher := new DoubleHash256();
    for i := 0 to |pieces|
      invariant hasher.sha.Valid() && fresh(hasher.sha) && fresh(hasher.sha.s) && fresh(hasher.sha.buf)
      invariant hasher.sha.written == Concat(pieces[..i])
    {
      ConcatNext(pieces, i);
      hasher.Write(pieces[i]);
    }
    assert pieces[..|pieces|] == pieces;
    hash := hasher.Finalize();
  }

  function Concat(pieces: seq<Bytes>): Bytes {
    if pieces == [] then [] else Concat(pieces[..|pieces| - 1]) + pieces[|pieces| - 1]
  }

  lemma ConcatNext(pieces: seq<Bytes>, i: nat)
    requires i < |pieces|
    ensures Concat(pieces[..i + 1]) == Concat(pieces[..i]) + pieces[i]
  {
    assert pieces[..i + 1][..i] == pieces[..i];
  }

  // ----- The miner's fixed-length form -----

  /** Pad an 80-byte header to two blocks in place. */
  method PadBlockHeaderData(buf: array<byte>)
    requires buf.Length == 128
    modifies buf
    ensures buf[..] == Padded(old(buf[..80]))
  {
    hide BE64;
    ghost var header := buf[..80];
    var size := BE64(640);
    for i := 80 to 128
      invariant buf[..80] == header && forall j :: 80 <= j < i ==> buf[j] == 0
    { buf[i] := 0; }
    buf[80] := 0x80;
    for i := 0 to 8
      invariant buf[..80] == header && buf[80] == 0x80
      invariant forall j :: 81 <= j < 120 ==> buf[j] == 0
      invariant forall j :: 0 <= j < i ==> buf[120 + j] == size[j]
    { buf[120 + i] := size[i]; }
    HeaderPadding(header, size, buf[..]);
  }

  lemma HeaderPadding(header: Bytes, size: Bytes, b: Bytes)
    requires |header| == 80 && size == BE64(640) && |b| == 128
    requires b[..80] == header && b[80] == 0x80 && b[120..] == size && forall j :: 81 <= j < 120 ==> b[j] == 0
    ensures b == Padded(header)
  {
    hide BE64;
    assert b[81..120] == ZeroPad(39);
    assert b == b[..80] + [b[80]] + b[81..120] + b[120..];
  }

  /** Two blocks, then the 32-byte digest padded to one. */
  method HashTest(s: array<Word>, chunk: Bytes) returns (outHash: Hash32)
    requires s.Length == 8 && |chunk| == 128
    modifies s
    ensures forall header: Bytes :: |header| == 80 && chunk == Padded(header) ==> outHash == DoubleSha(header)
  {
    hide Fold, Compress, WriteBE32, BE64;
    InitState(s);
    Transform(s, chunk, 2);
    assert chunk[..128] == chunk;
    var first := Digest(s[..]);
    var tmp := first + [0x80] + ZeroPad(23) + BE64(256);
    assert tmp == Padded(first);
    InitState(s);
    Transform(s, tmp, 1);
    assert tmp[..64] == tmp;
    outHash := Digest(s[..]);
  }

  method InitState(s: array<Word>)
    requires s.Length == 8
    modifies s
    ensures s[..] == INITIAL
  {
    s[0], s[1], s[2], s[3] := 0x6a09e667, 0xbb67ae85, 0x3c6ef372, 0xa54ff53a;
    s[4], s[5], s[6], s[7] := 0x510e527f, 0x9b05688c, 0x1f83d9ab, 0x5be0cd19;
  }
}
