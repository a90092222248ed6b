/** Bytes, little-endian numbers and the few integer facts shared by every codec. */
module Bytes {
  import opened Bits

  type byte = x: int | 0 <= x < 256
  type Bytes = seq<byte>

  type Hash20 = b: Bytes | |b| == 20 witness seq(20, _ => 0)
  type Hash32 = b: Bytes | |b| == 32 witness seq(32, _ => 0)

  datatype Option<+T> = None | Some(value: T)

  /** The number a byte string denotes, least significant byte first. */
  function LeNat(s: Bytes): nat {
    if s == [] then 0 else s[0] + 256 * LeNat(s[1..])
  }

  /** The shortest little-endian byte string for n; empty for zero. */
  function NatLe(n: nat): Bytes {
    if n == 0 then [] else [n % 256] + NatLe(n / 256)
  }

  /** Exactly k little-endian bytes of n; higher bytes are dropped. */
  function Le(n: nat, k: nat): (s: Bytes)
    ensures |s| == k
  {
    if k == 0 then [] else [n % 256] + Le(n / 256, k - 1)
  }

  function Pow256(k: nat): (p: nat)
    ensures p >= 1
  {
    if k == 0 then 1 else 256 * Pow256(k - 1)
  }

  lemma {:induction false} LeNatLe(n: nat, k: nat)
    requires n < Pow256(k)
    ensures LeNat(Le(n, k)) == n
  {
    if k > 0 { LeNatLe(n / 256, k - 1); }
  }

  lemma {:induction false} LeOfLeNat(s: Bytes)
    ensures Le(LeNat(s), |s|) == s
  {
    if s != [] { LeOfLeNat(s[1..]); }
  }

  lemma {:induction false} LeNatOfNatLe(n: nat)
    ensures LeNat(NatLe(n)) == n
  {
    if n > 0 { LeNatOfNatLe(n / 256); }
  }

  lemma {:induction false} NatLeTop(n: nat)
    requires n > 0
    ensures |NatLe(n)| > 0 && NatLe(n)[|NatLe(n)| - 1] != 0
  {
    if n >= 256 { NatLeTop(n / 256); }
  }

  /** A digit string with a nonzero top digit is the shortest one for its number. */
  lemma {:induction false} NatLeOfLeNat(s: Bytes)
    requires s == [] || s[|s| - 1] != 0
    ensures NatLe(LeNat(s)) == s
  {
    if s != [] {
      NatLeOfLeNat(s[1..]);
      if |s| == 1 {
        assert s[1..] == [];
      } else {
        LeNatPositive(s[1..]);
      }
      assert [s[0]] + s[1..] == s;
    }
  }

  lemma {:induction false} LeNatPositive(s: Bytes)
    ensures LeNat(s) == 0 <==> forall i :: 0 <= i < |s| ==> s[i] == 0
  {
    if s != [] {
      LeNatPositive(s[1..]);
      if LeNat(s) == 0 {
        forall i | 0 <= i < |s| ensures s[i] == 0 {
          if i > 0 { assert s[i] == s[1..][i - 1]; }
        }
      }
    }
  }

  lemma {:induction false} LeNatAppend(s: Bytes, t: Bytes)
    ensures LeNat(s + t) == LeNat(s) + Pow256(|s|) * LeNat(t)
  {
    if s == [] {
      assert s + t == t;
    } else {
      LeNatAppend(s[1..], t);
      assert (s + t)[1..] == s[1..] + t;
      assert 256 * (Pow256(|s| - 1) * LeNat(t)) == Pow256(|s|) * LeNat(t);
    }
  }

  lemma {:induction false} LeNatBound(s: Bytes)
    ensures LeNat(s) < Pow256(|s|)
  {
    if s != [] { LeNatBound(s[1..]); }
  }

  lemma {:induction false} Pow256IsPow2(k: nat)
    ensures Pow256(k) == Pow2(8 * k)
  {
    if k > 0 {
      hide Pow2;
      Pow256IsPow2(k - 1);
      Pow2Add(8, 8 * (k - 1));
      Pow2Of8();
    }
  }

  lemma Pow2Of8()
    ensures Pow2(8) == 256
  {}
}
