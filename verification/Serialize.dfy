/** Serialization: writers and readers of the wire format, and what makes a pair of them one-to-one. */
module Serialize {
  import opened Bytes

  const MAX_SIZE := 0x0200_0000

  /** A writer with its reader; a reader returns the value and the bytes after it, or fails. */
  datatype Codec<!T> = Codec(valid: T -> bool, write: T -> Bytes, read: Bytes -> Option<(T, Bytes)>)

  /** What is written is read back, and what follows is left alone. */
  ghost predicate ReadsBack<T(!new)>(c: Codec<T>) {
    forall v: T, rest: Bytes :: c.valid(v) ==> c.read(c.write(v) + rest) == Some((v, rest))
  }

  /** Only what the writer writes is accepted. */
  ghost predicate IsCanonical<T(!new)>(c: Codec<T>) {
    forall b: Bytes :: c.read(b).Some? ==>
      c.valid(c.read(b).value.0) && b == c.write(c.read(b).value.0) + c.read(b).value.1
  }

  ghost predicate OneToOne<T(!new)>(c: Codec<T>) { ReadsBack(c) && IsCanonical(c) }

  // ----- Numbers -----

  function ReadLe(b: Bytes, k: nat): Option<(nat, Bytes)> {
    if |b| < k then None else Some((LeNat(b[..k]), b[k..]))
  }

  /** A k-byte little-endian number. */
  function UInt(k: nat): Codec<nat> {
    Codec(n => n < Pow256(k), n => Le(n, k), b => ReadLe(b, k))
  }

  lemma UIntIsOneToOne(k: nat)
    ensures OneToOne(UInt(k))
  {
    var c := UInt(k);
    forall n: nat, rest: Bytes | n < Pow256(k) ensures c.read(c.write(n) + rest) == Some((n, rest)) {
      LeNatLe(n, k);
      assert (Le(n, k) + rest)[..k] == Le(n, k);
    }
    forall b: Bytes | c.read(b).Some?
      ensures c.valid(c.read(b).value.0) && b == c.write(c.read(b).value.0) + c.read(b).value.1
    {
      LeNatBound(b[..k]);
      LeOfLeNat(b[..k]);
    }
  }

  // ----- CompactSize -----

  function WriteSize(n: nat): Bytes {
    if n < 253 then [n] else if n <= 0xffff then [253] + Le(n, 2) else if n <= 0xffff_ffff then [254] + Le(n, 4)
    else [255] + Le(n, 8)
  }

  function SizeOfSize(n: nat): nat {
    if n < 253 then 1 else if n <= 0xffff then 3 else if n <= 0xffff_ffff then 5 else 9
  }

  /** A k-byte size that must not fit the shorter forms. */
  function ReadLong(b: Bytes, k: nat, least: nat): Option<(nat, Bytes)> {
    match ReadLe(b, k)
    case None => None
    case Some((n, rest)) => if n < least || n > MAX_SIZE then None else Some((n, rest))
  }

  function ReadSize(b: Bytes): (r: Option<(nat, Bytes)>)
    ensures r.Some? ==> r.value.0 <= MAX_SIZE
  {
    if b == [] then None
    else if b[0] < 253 then Some((b[0], b[1..]))
    else if b[0] == 253 then ReadLong(b[1..], 2, 253)
    else if b[0] == 254 then ReadLong(b[1..], 4, 0x1_0000)
    else ReadLong(b[1..], 8, 0x1_0000_0000)
  }

  const SIZE := Codec(n => n <= MAX_SIZE, WriteSize, ReadSize)

  lemma Powers()
    ensures Pow256(2) == 0x1_0000 && Pow256(4) == 0x1_0000_0000
  {
    assert Pow256(2) == 0x1_0000;
  }

  lemma LongReadsBack(n: nat, k: nat, least: nat, tag: byte, rest: Bytes)
    requires least <= n <= MAX_SIZE && n < Pow256(k)
    ensures var b := [tag] + Le(n, k) + rest; b != [] && b[0] == tag && ReadLong(b[1..], k, least) == Some((n, rest))
  {
    hide LeNat, Le, Pow256;
    var b := [tag] + Le(n, k) + rest;
    LeNatLe(n, k);
    assert b[1..] == Le(n, k) + rest;
    assert b[1..][..k] == Le(n, k) && b[1..][k..] == rest;
  }

  lemma SizeReadsBack(n: nat, rest: Bytes)
    requires n <= MAX_SIZE
    ensures ReadSize(WriteSize(n) + rest) == Some((n, rest))
  {
    hide ReadLong, Le, Pow256;
    Powers();
    if n < 253 { assert (WriteSize(n) + rest)[1..] == rest; }
    else if n <= 0xffff { LongReadsBack(n, 2, 253, 253, rest); }
    else { LongReadsBack(n, 4, 0x1_0000, 254, rest); }
  }

  lemma LongIsCanonical(b: Bytes, k: nat, least: nat)
    requires ReadLong(b, k, least).Some?
    ensures var (n, rest) := ReadLong(b, k, least).value;
            least <= n <= MAX_SIZE && n < Pow256(k) && b == Le(n, k) + rest
  {
    hide LeNat, Le, Pow256;
    LeNatBound(b[..k]);
    LeOfLeNat(b[..k]);
    assert b == b[..k] + b[k..];
  }

  lemma SizeIsCanonical(b: Bytes)
    requires ReadSize(b).Some?
    ensures var (n, rest) := ReadSize(b).value; n <= MAX_SIZE && b == WriteSize(n) + rest
  {
    hide ReadLong, Le, Pow256;
    Powers();
    assert b == [b[0]] + b[1..];
    if b[0] == 253 { LongIsCanonical(b[1..], 2, 253); }
    else if b[0] == 254 { LongIsCanonical(b[1..], 4, 0x1_0000); }
    else if b[0] == 255 { LongIsCanonical(b[1..], 8, 0x1_0000_0000); }
  }

  /** CompactSize is one-to-one up to the size limit, and takes the bytes GetSizeOfCompactSize says. */
  lemma SizeIsOneToOne()
    ensures OneToOne(SIZE) && forall n: nat :: |WriteSize(n)| == SizeOfSize(n)
  {
    forall n: nat, rest: Bytes | SIZE.valid(n) ensures SIZE.read(SIZE.write(n) + rest) == Some((n, rest)) {
      SizeReadsBack(n, rest);
    }
    forall b: Bytes | SIZE.read(b).Some?
      ensures SIZE.valid(SIZE.read(b).value.0) && b == SIZE.write(SIZE.read(b).value.0) + SIZE.read(b).value.1
    { SizeIsCanonical(b); }
  }

  // ----- Byte strings, pairs, vectors -----

  function ReadFixed(b: Bytes, k: nat): Option<(Bytes, Bytes)> {
    if |b| < k then None else Some((b[..k], b[k..]))
  }

  function Fixed(k: nat): Codec<Bytes> { Codec(v => |v| == k, v => v, b => ReadFixed(b, k)) }

  lemma FixedIsOneToOne(k: nat)
    ensures OneToOne(Fixed(k))
  {
    var c := Fixed(k);
    forall v: Bytes, rest: Bytes | |v| == k ensures c.read(c.write(v) + rest) == Some((v, rest)) {
      assert (v + rest)[..k] == v && (v + rest)[k..] == rest;
    }
  }

  function ReadPair<A, B>(c: Codec<A>, d: Codec<B>, b: Bytes): Option<((A, B), Bytes)> {
    match c.read(b)
    case None => None
    case Some((x, rest)) =>
      match d.read(rest)
      case None => None
      case Some((y, rest)) => Some(((x, y), rest))
  }

  function Pair<A, B>(c: Codec<A>, d: Codec<B>): Codec<(A, B)> {
    Codec((p: (A, B)) => c.valid(p.0) && d.valid(p.1), (p: (A, B)) => c.write(p.0) + d.write(p.1),
        b => ReadPair(c, d, b))
  }

  lemma PairIsOneToOne<A(!new), B(!new)>(c: Codec<A>, d: Codec<B>)
    requires OneToOne(c) && OneToOne(d)
    ensures OneToOne(Pair(c, d))
  {
    var p := Pair(c, d);
    forall v: (A, B), rest: Bytes | p.valid(v) ensures p.read(p.write(v) + rest) == Some((v, rest)) {
      assert p.write(v) + rest == c.write(v.0) + (d.write(v.1) + rest);
      assert c.read(c.write(v.0) + (d.write(v.1) + rest)) == Some((v.0, d.write(v.1) + rest));
    }
    forall b: Bytes | p.read(b).Some?
      ensures p.valid(p.read(b).value.0) && b == p.write(p.read(b).value.0) + p.read(b).value.1
    {
      var rest := c.read(b).value.1;
      assert d.read(rest).Some?;
    }
  }

  function WriteAll<T>(c: Codec<T>, v: seq<T>): Bytes {
    if v == [] then [] else c.write(v[0]) + WriteAll(c, v[1..])
  }

  function ReadAll<T>(c: Codec<T>, n: nat, b: Bytes): (r: Option<(seq<T>, Bytes)>)
    ensures r.Some? ==> |r.value.0| == n
  {
    if n == 0 then Some(([], b)) else
      match c.read(b)
      case None => None
      case Some((x, rest)) =>
        match ReadAll(c, n - 1, rest)
        case None => None
        case Some((v, rest)) => Some(([x] + v, rest))
  }

  function ReadVector<T>(c: Codec<T>, b: Bytes): (r: Option<(seq<T>, Bytes)>)
    ensures r.Some? ==> |r.value.0| <= MAX_SIZE
  {
    match ReadSize(b)
    case None => None
    case Some((n, rest)) => ReadAll(c, n, rest)
  }

  predicate AllValid<T>(c: Codec<T>, v: seq<T>) { forall i :: 0 <= i < |v| ==> c.valid(v[i]) }

  /** A size and that many elements. */
  function Vector<T>(c: Codec<T>): Codec<seq<T>> {
    Codec((v: seq<T>) => |v| <= MAX_SIZE && AllValid(c, v), (v: seq<T>) => WriteSize(|v|) + WriteAll(c, v),
        b => ReadVector(c, b))
  }

  lemma {:induction false} AllReadBack<T(!new)>(c: Codec<T>, v: seq<T>, rest: Bytes)
    requires ReadsBack(c) && AllValid(c, v)
    ensures ReadAll(c, |v|, WriteAll(c, v) + rest) == Some((v, rest))
    decreases |v|
  {
    if v == [] {
      assert WriteAll(c, v) + rest == rest;
    } else {
      AllReadBack(c, v[1..], rest);
      var tail := WriteAll(c, v[1..]) + rest;
      assert WriteAll(c, v) + rest == c.write(v[0]) + tail;
      assert c.read(c.write(v[0]) + tail) == Some((v[0], tail));
      assert v == [v[0]] + v[1..];
    }
  }

  lemma {:induction false} AllCanonical<T(!new)>(c: Codec<T>, n: nat, b: Bytes)
    requires IsCanonical(c) && ReadAll(c, n, b).Some?
    ensures var (v, rest) := ReadAll(c, n, b).value; |v| == n && AllValid(c, v) && b == WriteAll(c, v) + rest
    decreases n
  {
    if n == 0 {
      assert [] + b == b;
    } else {
      var (x, mid) := c.read(b).value;
      AllCanonical(c, n - 1, mid);
      var (v, rest) := ReadAll(c, n - 1, mid).value;
      assert ([x] + v)[1..] == v;
      assert b == c.write(x) + (WriteAll(c, v) + rest);
    }
  }

  lemma VectorIsOneToOne<T(!new)>(c: Codec<T>)
    requires OneToOne(c)
    ensures OneToOne(Vector(c))
  {
    hide ReadSize, WriteSize;
    var d := Vector(c);
    forall v: seq<T>, rest: Bytes | d.valid(v) ensures d.read(d.write(v) + rest) == Some((v, rest)) {
      SizeReadsBack(|v|, WriteAll(c, v) + rest);
      AllReadBack(c, v, rest);
      assert d.write(v) + rest == WriteSize(|v|) + (WriteAll(c, v) + rest);
    }
    forall b: Bytes | d.read(b).Some?
      ensures d.valid(d.read(b).value.0) && b == d.write(d.read(b).value.0) + d.read(b).value.1
    {
      SizeIsCanonical(b);
      var (n, mid) := ReadSize(b).value;
      AllCanonical(c, n, mid);
    }
  }

  function ReadText(b: Bytes): Option<(Bytes, Bytes)> {
    match ReadSize(b)
    case None => None
    case Some((n, rest)) => ReadFixed(rest, n)
  }

  /** A vector of bytes, copied as a whole. */
  const TEXT := Codec((v: Bytes) => |v| <= MAX_SIZE, (v: Bytes) => WriteSize(|v|) + v, ReadText)

  lemma TextIsOneToOne()
    ensures OneToOne(TEXT)
  {
    hide ReadSize, WriteSize;
    forall v: Bytes, rest: Bytes | TEXT.valid(v) ensures TEXT.read(TEXT.write(v) + rest) == Some((v, rest)) {
      SizeReadsBack(|v|, v + rest);
      assert TEXT.write(v) + rest == WriteSize(|v|) + (v + rest);
      assert (v + rest)[..|v|] == v && (v + rest)[|v|..] == rest;
    }
    forall b: Bytes | TEXT.read(b).Some?
      ensures TEXT.valid(TEXT.read(b).value.0) && b == TEXT.write(TEXT.read(b).value.0) + TEXT.read(b).value.1
    {
      SizeIsCanonical(b);
      var (n, mid) := ReadSize(b).value;
      assert mid == mid[..n] + mid[n..];
    }
  }

  // ----- Other types through one already covered -----

  function ReadAs<S, T>(c: Codec<S>, into: S -> T, b: Bytes): Option<(T, Bytes)> {
    match c.read(b)
    case None => None
    case Some((x, rest)) => Some((into(x), rest))
  }

  /** The form of T that S has on the wire. */
  function As<S, T(==)>(c: Codec<S>, into: S -> T, from: T -> S): Codec<T> {
    Codec((v: T) => c.valid(from(v)) && into(from(v)) == v, (v: T) => c.write(from(v)), b => ReadAs(c, into, b))
  }

  lemma AsIsOneToOne<S(!new), T(!new)>(c: Codec<S>, into: S -> T, from: T -> S)
    requires OneToOne(c) && forall x: S :: c.valid(x) ==> from(into(x)) == x
    ensures OneToOne(As(c, into, from))
  {
    var d := As(c, into, from);
    forall v: T, rest: Bytes | d.valid(v) ensures d.read(d.write(v) + rest) == Some((v, rest)) {
      assert c.read(c.write(from(v)) + rest) == Some((from(v), rest));
    }
  }
}
