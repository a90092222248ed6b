/** Little-endian numbers in 32-bit limbs: what carry chains and shifts of limb sequences denote. */
module Limbs {
  import opened Bits

  const B := 0x1_0000_0000

  type Word = x: int | 0 <= x < B

  /** The number a limb sequence denotes. */
  function Val(s: seq<Word>): nat {
    if s == [] then 0 else s[0] + B * Val(s[1..])
  }

  function PowB(n: nat): (p: nat)
    ensures p >= 1
  {
    if n == 0 then 1 else B * PowB(n - 1)
  }

  lemma {:induction false} ValBound(s: seq<Word>)
    ensures Val(s) < PowB(|s|)
  {
    if s != [] { ValBound(s[1..]); }
  }

  lemma {:induction false} ValAppend(s: seq<Word>, t: seq<Word>)
    ensures Val(s + t) == Val(s) + PowB(|s|) * Val(t)
  {
    if s == [] {
      assert s + t == t;
    } else {
      ValAppend(s[1..], t);
      assert (s + t)[1..] == s[1..] + t;
      assert B * (PowB(|s| - 1) * Val(t)) == PowB(|s|) * Val(t);
    }
  }

  lemma Pow2Of32()
    ensures Pow2(32) == B
  {
    assert Pow2(8) == 256;
    Pow2Add(8, 8);
    Pow2Add(16, 16);
  }

  lemma {:induction false} PowBIsPow2(n: nat)
    ensures PowB(n) == Pow2(32 * n)
  {
    if n > 0 {
      hide Pow2;
      PowBIsPow2(n - 1);
      Pow2Add(32, 32 * (n - 1));
      Pow2Of32();
    }
  }

  lemma {:induction false} PowBAdd(m: nat, n: nat)
    ensures PowB(m + n) == PowB(m) * PowB(n)
  {
    if m > 0 {
      PowBAdd(m - 1, n);
      assert B * (PowB(m - 1) * PowB(n)) == PowB(m) * PowB(n);
    }
  }

  // ----- The carry chain of addition and multiplication -----

  lemma ProductBound(x: Word, b: Word)
    ensures 0 <= x * b <= 0xffff_ffff * 0xffff_ffff
  {
    MulMonotone(x, 0, b);
    MulMonotone(x, b, 0xffff_ffff);
  }

  /** A partial sum never leaves 64 bits, and its carry never leaves 32. */
  lemma PartialSumFits(c: Word, p: Word, x: Word, b: Word)
    ensures 0 <= c + p + x * b < 0x1_0000_0000_0000_0000
    ensures 0 <= (c + p + x * b) / B < B
  {
    ProductBound(x, b);
    var product: int := x * b;
    assert 0 <= (c + p + product) / B < B;
  }

  /** Add x times b into p with carry-in c, limb by limb. */
  function MulAdd(p: seq<Word>, b: seq<Word>, x: Word, c: Word): (r: seq<Word>)
    requires |p| == |b|
    ensures |r| == |p|
  {
    if p == [] then [] else
      PartialSumFits(c, p[0], x, b[0]);
      var n := c + p[0] + x * b[0];
      [n % B] + MulAdd(p[1..], b[1..], x, n / B)
  }

  function CarryOut(p: seq<Word>, b: seq<Word>, x: Word, c: Word): Word
    requires |p| == |b|
    decreases |p|
  {
    if p == [] then c else
      PartialSumFits(c, p[0], x, b[0]);
      CarryOut(p[1..], b[1..], x, (c + p[0] + x * b[0]) / B)
  }

  lemma {:induction false} MulAddValue(p: seq<Word>, b: seq<Word>, x: Word, c: Word)
    requires |p| == |b|
    ensures Val(MulAdd(p, b, x, c)) + PowB(|p|) * CarryOut(p, b, x, c) == Val(p) + x * Val(b) + c
    decreases |p|
  {
    if p != [] {
      PartialSumFits(c, p[0], x, b[0]);
      var n := c + p[0] + x * b[0];
      MulAddValue(p[1..], b[1..], x, n / B);
      assert MulAdd(p, b, x, c)[1..] == MulAdd(p[1..], b[1..], x, n / B);
      var rest, co := Val(MulAdd(p[1..], b[1..], x, n / B)), CarryOut(p[1..], b[1..], x, n / B);
      assert Val(MulAdd(p, b, x, c)) == n % B + B * rest && Val(p) == p[0] + B * Val(p[1..])
              && Val(b) == b[0] + B * Val(b[1..]);
      hide Val, MulAdd, CarryOut;
      MulAddStep(n, rest, PowB(|p| - 1), co, Val(p[1..]), x, Val(b[1..]));
      Distribute(x, b[0], Val(b[1..]));
    }
  }

  lemma Distribute(x: int, b: int, v: int)
    ensures x * (b + B * v) == x * b + B * (x * v)
  {}

  lemma MulAddStep(n: int, rest: int, pow: int, co: int, p: int, x: int, b: int)
    requires rest + pow * co == p + x * b + n / B
    ensures n % B + B * rest + (B * pow) * co == n + B * p + B * (x * b)
  {
    assert (B * pow) * co == B * (pow * co);
    assert n == n % B + B * (n / B);
  }

  /** The chain computes the sum modulo the width. */
  lemma MulAddMod(p: seq<Word>, b: seq<Word>, x: Word, c: Word)
    requires |p| == |b|
    ensures Val(MulAdd(p, b, x, c)) == (Val(p) + x * Val(b) + c) % PowB(|p|)
  {
    MulAddValue(p, b, x, c);
    ValBound(MulAdd(p, b, x, c));
    ModIs(Val(MulAdd(p, b, x, c)), CarryOut(p, b, x, c), PowB(|p|), Val(p) + x * Val(b) + c);
  }

  // ----- Complement and increment -----

  function Complement(s: seq<Word>): (r: seq<Word>)
    ensures |r| == |s|
  {
    if s == [] then [] else [B - 1 - s[0]] + Complement(s[1..])
  }

  lemma {:induction false} ComplementValue(s: seq<Word>)
    ensures Val(Complement(s)) == PowB(|s|) - 1 - Val(s)
  {
    if s != [] { ComplementValue(s[1..]); }
  }

  /** Add one: full limbs wrap to zero and pass the one on. */
  function Increment(s: seq<Word>): (r: seq<Word>)
    ensures |r| == |s|
  {
    if s == [] then [] else if s[0] == B - 1 then [0] + Increment(s[1..]) else [s[0] + 1] + s[1..]
  }

  lemma {:induction false} IncrementValue(s: seq<Word>)
    ensures Val(Increment(s)) == if Val(s) == PowB(|s|) - 1 then 0 else Val(s) + 1
  {
    if s != [] {
      ValBound(s[1..]);
      IncrementValue(s[1..]);
    }
  }

  lemma NegateValue(s: seq<Word>)
    ensures Val(Increment(Complement(s))) == if Val(s) == 0 then 0 else PowB(|s|) - Val(s)
  {
    hide Val, PowB, Increment, Complement;
    ComplementValue(s);
    IncrementValue(Complement(s));
  }

  // ----- Comparison -----

  /** The most significant limb in which two numbers differ decides. */
  lemma TopLimbDecides(s: seq<Word>, t: seq<Word>, i: nat)
    requires |s| == |t| && i < |s| && s[i + 1..] == t[i + 1..] && s[i] < t[i]
    ensures Val(s) < Val(t)
  {
    var p, high := PowB(i), Val(s[i + 1..]);
    ValAppend(s[..i], s[i..]);
    ValAppend(t[..i], t[i..]);
    assert s[..i] + s[i..] == s && t[..i] + t[i..] == t;
    assert s[i..][1..] == s[i + 1..] && t[i..][1..] == t[i + 1..];
    ValBound(s[..i]);
    assert Val(s[i..]) + 1 <= Val(t[i..]);
    MulMonotone(p, Val(s[i..]) + 1, Val(t[i..]));
    assert p * (Val(s[i..]) + 1) == p * Val(s[i..]) + p;
  }

  // ----- Shifts by less than a limb -----

  lemma WordSplits(s: nat)
    requires s <= 32
    ensures Pow2(s) * Pow2(32 - s) == B
  {
    Pow2Add(s, 32 - s);
    Pow2Of32();
  }

  /** A limb shifted left: what stays in the limb and what moves to the next. */
  function Low(x: Word, s: nat): Word { (x * Pow2(s)) % B }

  function High(x: Word, s: nat): nat
    requires s <= 32
  {
    QuotientIsNat(x, Pow2(32 - s));
    x / Pow2(32 - s)
  }

  lemma ShiftParts(x: Word, s: nat)
    requires s < 32
    ensures x * Pow2(s) == Low(x, s) + B * High(x, s)
    ensures Low(x, s) == (x % Pow2(32 - s)) * Pow2(s) && 0 <= High(x, s) < Pow2(s) <= B - Low(x, s)
  {
    hide Pow2;
    WordSplits(s);
    var m, w := Pow2(s), Pow2(32 - s);
    DivMod(x, w);
    var q, r := x / w, x % w;
    PartsArith(x, m, w, q, r);
    ModIs(r * m, q, B, x * m);
  }

  lemma PartsArith(x: nat, m: nat, w: nat, q: int, r: int)
    requires m * w == B && x < B && x == w * q + r && 0 <= r < w && m >= 1
    ensures x * m == r * m + B * q && 0 <= r * m <= B - m && 0 <= q < m
  {
    calc { x * m; (w * q + r) * m; (w * q) * m + r * m; (m * w) * q + r * m; }
    MulMonotone(m, r, w - 1);
    assert m * (w - 1) == m * w - m;
    if q < 0 { MulMonotone(w, q, -1); }
    if q >= m { MulMonotone(w, m, q); }
  }

  /** Shift a limb sequence left by s < 32 bits with carry-in c, dropping what leaves the top. */
  function ShiftUp(a: seq<Word>, s: nat, c: nat): (r: seq<Word>)
    requires s < 32 && c < Pow2(s)
    ensures |r| == |a|
  {
    if a == [] then [] else
      ShiftParts(a[0], s);
      [Low(a[0], s) + c] + ShiftUp(a[1..], s, High(a[0], s))
  }

  function Zeros(n: nat): (r: seq<Word>)
    ensures |r| == n && forall i :: 0 <= i < n ==> r[i] == 0
  {
    if n == 0 then [] else [0] + Zeros(n - 1)
  }

  lemma {:induction false} ZerosValue(n: nat)
    ensures Val(Zeros(n)) == 0
  {
    if n > 0 { ZerosValue(n - 1); }
  }

  lemma Pow2IsWord(s: nat)
    requires s < 32
    ensures Pow2(s) < B
  {
    Pow2Monotone(s, 31);
    Pow2Of32();
  }

  /** Shifting is multiplying by a power of two: the same carry chain. */
  lemma {:induction false} ShiftUpIsMulAdd(a: seq<Word>, s: nat, c: nat)
    requires s < 32 && c < Pow2(s) < B
    ensures ShiftUp(a, s, c) == MulAdd(Zeros(|a|), a, Pow2(s), c)
    decreases |a|
  {
    if a != [] {
      hide Pow2;
      ShiftParts(a[0], s);
      var n := c + 0 + Pow2(s) * a[0];
      ModIs(Low(a[0], s) + c, High(a[0], s), B, n);
      ShiftUpIsMulAdd(a[1..], s, High(a[0], s));
      assert Zeros(|a|)[1..] == Zeros(|a| - 1);
    }
  }

  // ----- Shifts by any amount -----

  /** operator<<=: k whole limbs and s more bits. */
  function ShiftLeft(a: seq<Word>, k: nat, s: nat): (r: seq<Word>)
    requires s < 32
    ensures |r| == |a|
  {
    if k >= |a| then Zeros(|a|) else Zeros(k) + ShiftUp(a[..|a| - k], s, 0)
  }

  lemma ShiftLeftArith(v: int, r: int, co: int, pk: int, pwk: int, x: int, y: int, m: int)
    requires r + pwk * co == x * m && v == x + pwk * y
    ensures v * (m * pk) == pk * r + (pk * pwk) * (co + y * m)
  {
    calc {
      v * (m * pk);
      (v * m) * pk;
      ((x + pwk * y) * m) * pk;
      (x * m + (pwk * y) * m) * pk;
      (r + pwk * co + pwk * (y * m)) * pk;
      (r + pwk * (co + y * m)) * pk;
      pk * r + pk * (pwk * (co + y * m));
      pk * r + (pk * pwk) * (co + y * m);
    }
  }

  lemma ShiftLeftParts(a: seq<Word>, k: nat, s: nat) returns (r: nat, co: nat)
    requires s < 32 && k < |a|
    ensures Val(ShiftLeft(a, k, s)) == PowB(k) * r
    ensures r + PowB(|a| - k) * co == Val(a[..|a| - k]) * Pow2(s)
  {
    hide Pow2, PowB, Val, ShiftUp, MulAdd, CarryOut, Zeros;
    var n := |a| - k;
    Pow2IsWord(s);
    ShiftUpIsMulAdd(a[..n], s, 0);
    MulAddValue(Zeros(n), a[..n], Pow2(s), 0);
    ZerosValue(n);
    ZerosValue(k);
    r, co := Val(ShiftUp(a[..n], s, 0)), CarryOut(Zeros(n), a[..n], Pow2(s), 0);
    ValAppend(Zeros(k), ShiftUp(a[..n], s, 0));
  }

  lemma ShiftLeftMod(a: seq<Word>, k: nat, s: nat)
    requires s < 32 && k < |a|
    ensures Val(ShiftLeft(a, k, s)) == (Val(a) * (Pow2(s) * PowB(k))) % PowB(|a|)
  {
    hide Pow2, PowB, Val, ShiftLeft;
    var n := |a| - k;
    var r, co := ShiftLeftParts(a, k, s);
    ValAppend(a[..n], a[n..]);
    assert a[..n] + a[n..] == a;
    PowBAdd(k, n);
    ShiftLeftArith(Val(a), r, co, PowB(k), PowB(n), Val(a[..n]), Val(a[n..]), Pow2(s));
    ValBound(ShiftLeft(a, k, s));
    ModIs(PowB(k) * r, co + Val(a[n..]) * Pow2(s), PowB(|a|), Val(a) * (Pow2(s) * PowB(k)));
  }

  /** operator<<= multiplies by a power of two, modulo the width. */
  lemma ShiftLeftValue(a: seq<Word>, shift: nat)
    ensures Val(ShiftLeft(a, shift / 32, shift % 32)) == (Val(a) * Pow2(shift)) % PowB(|a|)
  {
    hide Val, ShiftLeft, Pow2, PowB;
    var k, s := shift / 32, shift % 32;
    PowBIsPow2(k);
    Pow2Add(s, 32 * k);
    if k < |a| {
      ShiftLeftMod(a, k, s);
    } else {
      ZerosValue(|a|);
      ShiftAllOut(a, k, s);
      PowBAdd(|a|, k - |a|);
      var q := Val(a) * (Pow2(s) * PowB(k - |a|));
      MulReorder(Val(a), Pow2(s), PowB(|a|), PowB(k - |a|));
      ModIs(0, q, PowB(|a|), Val(a) * Pow2(shift));
    }
  }

  lemma ShiftAllOut(a: seq<Word>, k: nat, s: nat)
    requires s < 32 && k >= |a|
    ensures ShiftLeft(a, k, s) == Zeros(|a|)
  {}

  lemma MulReorder(v: int, m: int, p: int, q: int)
    ensures v * (m * (p * q)) == p * (v * (m * q))
  {
    calc { v * (m * (p * q)); v * (p * (m * q)); (v * p) * (m * q); (p * v) * (m * q); p * (v * (m * q)); }
  }

  /** Shift right by s < 32 bits, dropping what leaves the bottom. */
  function ShiftDown(a: seq<Word>, s: nat): (r: seq<Word>)
    requires s < 32
    ensures |r| == |a|
  {
    if a == [] then [] else
      var next := if |a| > 1 then a[1] else 0;
      DownParts(a[0], next, s);
      [a[0] / Pow2(s) + (next % Pow2(s)) * Pow2(32 - s)] + ShiftDown(a[1..], s)
  }

  lemma DownParts(x: Word, next: Word, s: nat)
    requires s < 32
    ensures 0 <= x / Pow2(s) < Pow2(32 - s)
    ensures 0 <= x / Pow2(s) + (next % Pow2(s)) * Pow2(32 - s) < B
  {
    hide Pow2;
    WordSplits(s);
    var m, w := Pow2(s), Pow2(32 - s);
    DivMod(x, m);
    DivMod(next, m);
    var q, r := x / m, next % m;
    if q < 0 { MulMonotone(m, q, -1); }
    if q >= w { MulMonotone(m, w, q); }
    MulMonotone(w, 0, r);
    MulMonotone(w, r, m - 1);
    assert w * (m - 1) == w * m - w;
  }

  lemma {:induction false} ShiftDownValue(a: seq<Word>, s: nat)
    requires s < 32
    ensures Val(ShiftDown(a, s)) * Pow2(s) + (if a == [] then 0 else a[0] % Pow2(s)) == Val(a)
  {
    if a != [] {
      hide Pow2;
      ShiftDownValue(a[1..], s);
      WordSplits(s);
      var next := if |a| > 1 then a[1] else 0;
      DownParts(a[0], next, s);
      DivMod(a[0], Pow2(s));
      assert ShiftDown(a, s)[1..] == ShiftDown(a[1..], s);
      if |a| == 1 { ModIs(0, 0, Pow2(s), 0); }
      DownArith(a[0] / Pow2(s), a[0] % Pow2(s), next % Pow2(s), Pow2(s), Pow2(32 - s), Val(ShiftDown(a[1..], s)));
    }
  }

  lemma DownArith(q: int, r: int, n: int, m: int, w: int, rest: int)
    requires m * w == B
    ensures (q + n * w + B * rest) * m + r == (m * q + r) + B * (rest * m + n)
  {
    calc {
      (q + n * w + B * rest) * m + r;
      q * m + (n * w) * m + (B * rest) * m + r;
      m * q + n * (m * w) + B * (rest * m) + r;
    }
  }

  /** operator>>=. */
  function ShiftRight(a: seq<Word>, k: nat, s: nat): (r: seq<Word>)
    requires s < 32
    ensures |r| == |a|
  {
    if k >= |a| then Zeros(|a|) else ShiftDown(a[k..], s) + Zeros(k)
  }

  lemma ShiftRightParts(a: seq<Word>, k: nat, s: nat) returns (r: nat, low: nat)
    requires s < 32 && k < |a|
    ensures Val(a) == low + PowB(k) * (Val(ShiftRight(a, k, s)) * Pow2(s) + r)
    ensures low < PowB(k) && r < Pow2(s)
  {
    hide Pow2, PowB, Val, ShiftDown, Zeros;
    ShiftDownValue(a[k..], s);
    ValAppend(a[..k], a[k..]);
    assert a[..k] + a[k..] == a;
    ValAppend(ShiftDown(a[k..], s), Zeros(k));
    ZerosValue(k);
    ValBound(a[..k]);
    DivMod(a[k], Pow2(s));
    r, low := a[k..][0] % Pow2(s), Val(a[..k]);
  }

  lemma ShiftRightDiv(a: seq<Word>, k: nat, s: nat)
    requires s < 32 && k < |a|
    ensures Val(ShiftRight(a, k, s)) == Val(a) / (PowB(k) * Pow2(s))
  {
    hide Pow2, PowB, Val, ShiftRight;
    var r, low := ShiftRightParts(a, k, s);
    var d := Val(ShiftRight(a, k, s));
    RightArith(low, PowB(k), d, Pow2(s), r);
    ModIs(low + PowB(k) * r, d, PowB(k) * Pow2(s), Val(a));
  }

  lemma RightArith(low: int, p: int, d: int, m: int, r: int)
    requires 0 <= low < p && 0 <= r < m
    ensures low + p * (d * m + r) == low + p * r + (p * m) * d && 0 <= low + p * r < p * m
  {
    calc { p * (d * m + r); p * (d * m) + p * r; (p * m) * d + p * r; }
    MulMonotone(p, 0, r);
    MulMonotone(p, r, m - 1);
    assert p * (m - 1) == p * m - p;
  }

  /** operator>>= divides by a power of two. */
  lemma ShiftRightValue(a: seq<Word>, shift: nat)
    ensures Val(ShiftRight(a, shift / 32, shift % 32)) == Val(a) / Pow2(shift)
  {
    hide Val, ShiftRight, Pow2, PowB;
    var k, s := shift / 32, shift % 32;
    PowBIsPow2(k);
    Pow2Add(32 * k, s);
    if k < |a| {
      ShiftRightDiv(a, k, s);
    } else {
      ZerosValue(|a|);
      ShiftAllAway(a, k, s);
      ValBound(a);
      PowBIsPow2(|a|);
      Pow2Monotone(32 * |a|, shift);
      ModIs(Val(a), 0, Pow2(shift), Val(a));
    }
  }

  lemma ShiftAllAway(a: seq<Word>, k: nat, s: nat)
    requires s < 32 && k >= |a|
    ensures ShiftRight(a, k, s) == Zeros(|a|)
  {}
}
