/** Regrouping a sequence of digits from one power-of-two base to another. */
module ConvertBits {
  import opened Bits

  /** The number a digit sequence denotes in base 2^w, most significant first. */
  function Num(v: seq<nat>, w: nat): nat {
    if v == [] then 0 else Num(v[..|v| - 1], w) * Pow2(w) + v[|v| - 1]
  }

  predicate Digits(v: seq<nat>, w: nat) { forall i :: 0 <= i < |v| ==> v[i] < Pow2(w) }

  /** out is the digits of v regrouped to `to` bits, filled up with zero bits at the end. */
  predicate Regrouped(v: seq<nat>, from: nat, out: seq<nat>, to: nat) {
    var n, m := |v| * from, |out| * to;
    Digits(out, to) && n <= m < n + to && Num(out, to) == Num(v, from) * Pow2(m - n)
  }

  lemma NumSnoc(v: seq<nat>, x: nat, w: nat)
    ensures Num(v + [x], w) == Num(v, w) * Pow2(w) + x
  {
    assert (v + [x])[..|v|] == v;
  }

  lemma {:induction false} NumIsInjective(v: seq<nat>, v': seq<nat>, w: nat)
    requires |v| == |v'| && Digits(v, w) && Digits(v', w) && Num(v, w) == Num(v', w)
    ensures v == v'
  {
    if v != [] {
      var n := |v| - 1;
      hide Pow2;
      QuotientIsUnique(Pow2(w), Num(v[..n], w), v[n], Num(v'[..n], w), v'[n]);
      NumIsInjective(v[..n], v'[..n], w);
      assert v == v[..n] + [v[n]] && v' == v'[..n] + [v'[n]];
    }
  }

  lemma MulInjective(x: nat, y: nat, p: nat)
    requires p > 0 && x * p == y * p
    ensures x == y
  {
    if x < y { MulMonotone(p, x + 1, y); } else if y < x { MulMonotone(p, y + 1, x); }
  }

  lemma LengthIsUnique(n: nat, a: nat, b: nat, w: nat)
    requires w > 0 && n <= a * w < n + w && n <= b * w < n + w
    ensures a == b
  {
    if a < b { MulMonotone(w, a + 1, b); } else if b < a { MulMonotone(w, b + 1, a); }
  }

  /** A sequence has one regrouping. */
  lemma RegroupingIsUnique(v: seq<nat>, from: nat, a: seq<nat>, b: seq<nat>, to: nat)
    requires to > 0 && Regrouped(v, from, a, to) && Regrouped(v, from, b, to)
    ensures a == b
  {
    hide Pow2, Num;
    LengthIsUnique(|v| * from, |a|, |b|, to);
    NumIsInjective(a, b, to);
  }

  /** To narrower groups, no two sequences share a regrouping. */
  lemma RegroupingIsInjective(a: seq<nat>, b: seq<nat>, from: nat, out: seq<nat>, to: nat)
    requires 0 < to <= from && Digits(a, from) && Digits(b, from)
    requires Regrouped(a, from, out, to) && Regrouped(b, from, out, to)
    ensures a == b
  {
    hide Pow2, Num;
    var m := |out| * to;
    if |a| < |b| { MulMonotone(from, |a| + 1, |b|); } else if |b| < |a| { MulMonotone(from, |b| + 1, |a|); }
    MulInjective(Num(a, from), Num(b, from), Pow2(m - |a| * from));
    NumIsInjective(a, b, from);
  }

  // ----- One digit in, whole groups out -----

  /** The low b bits split into their top `to` and the rest. */
  lemma SplitTop(acc: nat, b: nat, to: nat)
    requires to <= b
    ensures acc % Pow2(b) == (acc / Pow2(b - to)) % Pow2(to) * Pow2(b - to) + acc % Pow2(b - to)
  {
    hide Pow2;
    var p, q := Pow2(b - to), Pow2(to);
    Pow2Add(to, b - to);
    DivMod(acc, p);
    DivMod(acc / p, q);
    var x, r := (acc / p) % q, acc % p;
    MulMonotone(p, x, q - 1);
    assert p * (q - 1) == p * q - p;
    MulMonotone(p, 0, x);
    assert p * (q * ((acc / p) / q) + x) == (q * p) * ((acc / p) / q) + p * x by { Regroup(p, q, (acc / p) / q, x); }
    ModIs(x * p + r, (acc / p) / q, Pow2(b), acc);
  }

  lemma Regroup(p: int, q: int, y: int, x: int)
    ensures p * (q * y + x) == (q * p) * y + p * x
  {
    assert p * (q * y) == (q * p) * y;
  }

  /** Masking keeps the low bits. */
  lemma MaskKeeps(x: nat, b: nat, m: nat)
    requires b <= m
    ensures (x % Pow2(m)) % Pow2(b) == x % Pow2(b)
  {
    hide Pow2;
    var p, q := Pow2(b), Pow2(m - b);
    Pow2Add(b, m - b);
    DivMod(x, p * q);
    DivMod(x % (p * q), p);
    var h, l := x / (p * q), x % (p * q);
    assert (p * q) * h + p * (l / p) == p * (q * h + l / p) by {
      Regroup(p, q, h, l / p);
      assert (q * p) * h == (p * q) * h;
    }
    ModIs(l % p, q * h + l / p, p, x);
  }

  /** Shifting a digit in below the pending bits. */
  lemma ShiftIn(acc: nat, v: nat, b: nat, from: nat)
    requires v < Pow2(from)
    ensures (acc * Pow2(from) + v) % Pow2(b + from) == acc % Pow2(b) * Pow2(from) + v
  {
    hide Pow2;
    var p, f := Pow2(b), Pow2(from);
    Pow2Add(b, from);
    DivMod(acc, p);
    var h, l := acc / p, acc % p;
    MulMonotone(f, l, p - 1);
    MulMonotone(f, 0, l);
    assert f * (p - 1) == f * p - f;
    Regroup(f, p, h, l);
    ModIs(l * f + v, h, p * f, acc * f + v);
  }

  /** The consumed digits are the emitted groups followed by the pending low bits of the accumulator. */
  predicate Pending(v: seq<nat>, from: nat, out: seq<nat>, to: nat, acc: nat, bits: nat) {
    Digits(out, to) && |v| * from == |out| * to + bits
    && Num(v, from) == Num(out, to) * Pow2(bits) + acc % Pow2(bits)
  }

  lemma TakeDigit(v: seq<nat>, x: nat, from: nat, out: seq<nat>, to: nat, acc: nat, bits: nat, acc': nat)
    requires Pending(v, from, out, to, acc, bits) && x < Pow2(from) && 0 < to && bits < to
    requires acc' == (acc * Pow2(from) + x) % Pow2(from + to - 1)
    ensures Pending(v + [x], from, out, to, acc', bits + from)
  {
    hide Pow2, Num;
    NumSnoc(v, x, from);
    ShiftIn(acc, x, bits, from);
    MaskKeeps(acc * Pow2(from) + x, bits + from, from + to - 1);
    Pow2Add(bits, from);
    TakeArith(Num(out, to), Pow2(bits), acc % Pow2(bits), Pow2(from));
  }

  lemma TakeArith(n: int, p: int, l: int, f: int)
    ensures (n * p + l) * f == n * (p * f) + l * f
  {
    assert (n * p) * f == n * (p * f);
  }

  lemma EmitGroup(v: seq<nat>, from: nat, out: seq<nat>, to: nat, acc: nat, bits: nat, x: nat)
    requires to <= bits && Pending(v, from, out, to, acc, bits) && x == (acc / Pow2(bits - to)) % Pow2(to)
    ensures Pending(v, from, out + [x], to, acc, bits - to)
  {
    hide Pow2, Num;
    NumSnoc(out, x, to);
    SplitTop(acc, bits, to);
    Pow2Add(to, bits - to);
    DivMod(acc / Pow2(bits - to), Pow2(to));
    TakeArith(Num(out, to), Pow2(to), x, Pow2(bits - to));
  }

  /** The inner loop: emit groups while there are enough bits. */
  method EmitGroups(ghost v: seq<nat>, ghost from: nat, out0: seq<nat>, to: nat, acc: nat, bits0: nat)
    returns (out: seq<nat>, bits: nat)
    requires to > 0 && Pending(v, from, out0, to, acc, bits0)
    ensures Pending(v, from, out, to, acc, bits) && bits < to
  {
    hide Pow2, Pending;
    out, bits := out0, bits0;
    while bits >= to
      invariant Pending(v, from, out, to, acc, bits)
    {
      bits := bits - to;
      GroupIsNat(acc, Pow2(bits), Pow2(to));
      EmitGroup(v, from, out, to, acc, bits + to, (acc / Pow2(bits)) % Pow2(to));
      out := out + [(acc / Pow2(bits)) % Pow2(to)];
    }
  }

  lemma GroupIsNat(acc: nat, p: nat, q: nat)
    requires p > 0 && q > 0
    ensures (acc / p) % q >= 0
  {
    DivMod(acc / p, q);
  }

  /** v is what padding some sequence of wider digits to `from` bits gives. */
  ghost predicate IsPadded(v: seq<nat>, from: nat, to: nat) { exists b :: Digits(b, to) && Regrouped(b, to, v, from) }

  /** The bits left over after the last whole group, moved to the top of a group. */
  lemma LeftOver(acc: nat, bits: nat, to: nat)
    requires bits < to
    ensures (acc * Pow2(to - bits)) % Pow2(to) == acc % Pow2(bits) * Pow2(to - bits) < Pow2(to)
    ensures acc % Pow2(bits) * Pow2(to - bits) == 0 <==> acc % Pow2(bits) == 0
  {
    hide Pow2;
    var p, f := Pow2(bits), Pow2(to - bits);
    Pow2Add(bits, to - bits);
    DivMod(acc, p);
    Regroup(f, p, acc / p, acc % p);
    MulMonotone(f, 0, acc % p);
    MulMonotone(f, acc % p, p - 1);
    assert f * (p - 1) == f * p - f;
    ModIs(acc % p * f, acc / p, p * f, acc * f);
    if acc % p != 0 { MulAtLeast(f, acc % p); }
  }

  lemma PadEnd(v: seq<nat>, from: nat, out: seq<nat>, to: nat, acc: nat, bits: nat, x: nat)
    requires 0 < bits < to && Pending(v, from, out, to, acc, bits) && x == (acc * Pow2(to - bits)) % Pow2(to)
    ensures Regrouped(v, from, out + [x], to)
  {
    hide Pow2, Num;
    LeftOver(acc, bits, to);
    NumSnoc(out, x, to);
    Pow2Add(bits, to - bits);
    var k, l := Num(out, to), acc % Pow2(bits);
    TakeArith(k, Pow2(bits), l, Pow2(to - bits));
    assert |out + [x]| * to == |out| * to + to;
    assert Num(out + [x], to) == Num(v, from) * Pow2(to - bits);
  }

  lemma NoPadNeeded(v: seq<nat>, from: nat, out: seq<nat>, to: nat, acc: nat)
    requires to > 0 && Pending(v, from, out, to, acc, 0)
    ensures Regrouped(v, from, out, to)
  {
    hide Num;
    ModIs(0, acc, 1, acc);
  }

  /** The final test of the unpadded form accepts exactly the padded images, and has found the preimage. */
  lemma UnpaddedEnd(v: seq<nat>, from: nat, out: seq<nat>, to: nat, acc: nat, bits: nat)
    requires 0 < from <= to && bits < to && Digits(v, from) && Pending(v, from, out, to, acc, bits)
    ensures bits < from && acc % Pow2(bits) == 0 ==> Regrouped(out, to, v, from)
    ensures IsPadded(v, from, to) ==> bits < from && acc % Pow2(bits) == 0
  {
    hide Pow2, Num;
    if IsPadded(v, from, to) {
      var b :| Digits(b, to) && Regrouped(b, to, v, from);
      FloorIsUnique(|v| * from, |out|, |b|, to);
      DivMod(acc, Pow2(bits));
      assert Pow2(bits) * Num(out, to) == Num(out, to) * Pow2(bits)
              && Pow2(bits) * Num(b, to) == Num(b, to) * Pow2(bits);
      QuotientIsUnique(Pow2(bits), Num(out, to), acc % Pow2(bits), Num(b, to), 0);
    }
  }

  lemma FloorIsUnique(n: nat, a: nat, b: nat, w: nat)
    requires a * w <= n < a * w + w && b * w <= n < b * w + w
    ensures a == b
  {
    if a < b { MulMonotone(w, a + 1, b); } else if b < a { MulMonotone(w, b + 1, a); }
  }

  /** out is the whole groups of v's bits: the number without its last bits. */
  predicate Truncated(v: seq<nat>, from: nat, out: seq<nat>, to: nat)
    requires to > 0
  {
    var n := |v| * from;
    Digits(out, to) && |out| == n / to && Num(out, to) == Num(v, from) / Pow2(n % to)
  }

  /** What is left over is short of a digit, and zero. */
  predicate NothingLeft(v: seq<nat>, from: nat, to: nat)
    requires to > 0
  {
    var left := |v| * from % to;
    left < from && Num(v, from) % Pow2(left) == 0
  }

  lemma PendingIsRest(v: seq<nat>, from: nat, out: seq<nat>, to: nat, acc: nat, bits: nat)
    requires bits < to && Pending(v, from, out, to, acc, bits)
    ensures |v| * from % to == bits && Truncated(v, from, out, to) && Num(v, from) % Pow2(bits) == acc % Pow2(bits)
  {
    hide Pow2, Num;
    ModIs(bits, |out|, to, |v| * from);
    DivMod(acc, Pow2(bits));
    ModIs(acc % Pow2(bits), Num(out, to), Pow2(bits), Num(v, from));
  }

  /** ConvertBits. The accumulator and its shift stay below 2^64. */
  method Convert(from: nat, to: nat, pad: bool, input: seq<nat>) returns (ok: bool, out: seq<nat>)
    requires 0 < from && 0 < to && 2 * from + to <= 64 && Digits(input, from)
    ensures pad ==> ok && Regrouped(input, from, out, to)
    ensures !pad ==> ok == NothingLeft(input, from, to) && Truncated(input, from, out, to)
    ensures !pad && from <= to ==> ok == IsPadded(input, from, to)
    ensures !pad && from <= to && ok ==> Digits(out, to) && Regrouped(out, to, input, from)
  {
    hide Pow2, BitOr, Pending, Regrouped, Num, Truncated;
    var acc: nat, bits: nat := 0, 0;
    out := [];
    NothingPending(input[..0], from, to);
    for i := 0 to |input|
      invariant Pending(input[..i], from, out, to, acc, bits) && bits < to
    {
      var x := input[i];
      BitOrDisjoint(x, acc, from);
      DivMod(acc * Pow2(from) + x, Pow2(from + to - 1));
      ghost var acc0 := acc;
      acc := BitOr(acc * Pow2(from), x) % Pow2(from + to - 1);
      TakeDigit(input[..i], x, from, out, to, acc0, bits, acc);
      assert input[..i + 1] == input[..i] + [x];
      out, bits := EmitGroups(input[..i + 1], from, out, to, acc, bits + from);
    }
    assert input[..|input|] == input;
    LeftOver(acc, bits, to);
    if pad {
      if bits != 0 {
        PadEnd(input, from, out, to, acc, bits, (acc * Pow2(to - bits)) % Pow2(to));
        out := out + [(acc * Pow2(to - bits)) % Pow2(to)];
      } else {
        NoPadNeeded(input, from, out, to, acc);
      }
      return true, out;
    }
    if from <= to { UnpaddedEnd(input, from, out, to, acc, bits); }
    PendingDigits(input, from, out, to, acc, bits);
    PendingIsRest(input, from, out, to, acc, bits);
    if bits >= from || (acc * Pow2(to - bits)) % Pow2(to) != 0 { return false, out; }
    return true, out;
  }

  lemma NothingPending(v: seq<nat>, from: nat, to: nat)
    requires v == []
    ensures Pending(v, from, [], to, 0, 0)
  {}

  lemma PendingDigits(v: seq<nat>, from: nat, out: seq<nat>, to: nat, acc: nat, bits: nat)
    requires Pending(v, from, out, to, acc, bits)
    ensures Digits(out, to)
  {}
}
