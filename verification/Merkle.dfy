/** The Merkle root of a block: the level-by-level loop, the tree it computes, and what the root
    commits to. The node hash is a parameter. */
module Merkle {
  import opened Bits

  // ----- Levels -----

  /** One level up: hash neighbours in pairs, the last one with itself if it has no neighbour. */
  function Level<T>(h: (T, T) -> T, xs: seq<T>): seq<T> {
    if xs == [] then []
    else if |xs| == 1 then [h(xs[0], xs[0])]
    else [h(xs[0], xs[1])] + Level(h, xs[2..])
  }

  lemma {:induction false} LevelAt<T>(h: (T, T) -> T, xs: seq<T>)
    ensures |Level(h, xs)| == (|xs| + 1) / 2
    ensures forall i :: 0 <= i < |Level(h, xs)|
                        ==> Level(h, xs)[i] == h(xs[2 * i], if 2 * i + 1 < |xs| then xs[2 * i + 1] else xs[2 * i])
  {
    if |xs| > 1 { LevelAt(h, xs[2..]); }
  }

  function Root<T>(h: (T, T) -> T, xs: seq<T>): T
    requires xs != []
    decreases |xs|
  {
    LevelAt(h, xs);
    if |xs| == 1 then xs[0] else Root(h, Level(h, xs))
  }

  lemma RootOfTwo<T>(h: (T, T) -> T, a: T, b: T)
    ensures Root(h, [a, b]) == h(a, b)
  {
    assert Level(h, [a, b]) == [h(a, b)];
  }

  /** Left before right, and an odd one with itself. */
  lemma SmallRoots<T>(h: (T, T) -> T, a: T, b: T, c: T, d: T)
    ensures Root(h, [a]) == a && Root(h, [a, b]) == h(a, b)
    ensures Root(h, [a, b, c]) == h(h(a, b), h(c, c)) && Root(h, [a, b, c, d]) == h(h(a, b), h(c, d))
  {
    RootOfTwo(h, a, b);
    RootOfTwo(h, h(a, b), h(c, c));
    RootOfTwo(h, h(a, b), h(c, d));
    assert [a, b, c][2..] == [c] && Level(h, [a, b, c]) == [h(a, b), h(c, c)];
    assert [a, b, c, d][2..] == [c, d] && Level(h, [c, d]) == [h(c, d)];
    assert Level(h, [a, b, c, d]) == [h(a, b), h(c, d)];
  }

  predicate HasEqualPair<T(==)>(v: seq<T>) { exists pos :: 0 <= pos < |v| / 2 && v[2 * pos] == v[2 * pos + 1] }

  /** ComputeMerkleRoot: double the last hash of an odd level, overwrite the level from the front with
      the hashes of its pairs, shrink, repeat. An empty list has the null hash as its root. The test for equal
      neighbours stands behind the flag it would set, which is never set. */
  method ComputeMerkleRoot<T(==)>(h: (T, T) -> T, hashes: seq<T>, nullHash: T) returns (root: T, mutated: bool)
    ensures root == if hashes == [] then nullHash else Root(h, hashes)
    ensures !mutated
  {
    var v := hashes;
    mutated := false;
    while |v| > 1
      invariant !mutated
      invariant hashes == [] <==> v == []
      invariant hashes != [] ==> Root(h, v) == Root(h, hashes)
      decreases |v|
    {
      ghost var level := v;
      LevelAt(h, level);
      if mutated && HasEqualPair(v) { mutated := true; }
      if |v| % 2 == 1 { v := v + [v[|v| - 1]]; }
      ghost var padded := v;
      var next := |v| / 2;
      var out := 0;
      while out < next
        invariant 0 <= out <= next && |v| == |padded| == 2 * next
        invariant forall i :: 0 <= i < out ==> v[i] == h(padded[2 * i], padded[2 * i + 1])
        invariant forall i :: 2 * out <= i < |v| ==> v[i] == padded[i]
      {
        v := v[out := h(v[2 * out], v[2 * out + 1])];
        out := out + 1;
      }
      v := v[..next];
      assert v == Level(h, level);
    }
    root := if v == [] then nullHash else v[0];
  }

  // ----- The tree -----

  /** The root of the tree of height d over xs: left half, right half, or the left half twice where
      nothing is left for the right. */
  function TreeRoot<T>(h: (T, T) -> T, xs: seq<T>, d: nat): T
    requires 1 <= |xs| <= Pow2(d)
    decreases d
  {
    if d == 0 then xs[0]
    else if |xs| <= Pow2(d - 1) then
      var r := TreeRoot(h, xs, d - 1);
      h(r, r)
    else h(TreeRoot(h, xs[..Pow2(d - 1)], d - 1), TreeRoot(h, xs[Pow2(d - 1)..], d - 1))
  }

  lemma LevelSplits<T>(h: (T, T) -> T, xs: seq<T>, k: nat)
    requires 2 * k <= |xs|
    ensures |Level(h, xs)| == (|xs| + 1) / 2 && |Level(h, xs[..2 * k])| == k
    ensures Level(h, xs)[..k] == Level(h, xs[..2 * k]) && Level(h, xs)[k..] == Level(h, xs[2 * k..])
  {
    LevelAt(h, xs);
    LevelAt(h, xs[..2 * k]);
    LevelAt(h, xs[2 * k..]);
  }

  lemma {:induction false} TreeOfLevel<T>(h: (T, T) -> T, xs: seq<T>, d: nat)
    requires 1 <= |xs| <= Pow2(d + 1)
    ensures |Level(h, xs)| == (|xs| + 1) / 2
    ensures TreeRoot(h, xs, d + 1) == TreeRoot(h, Level(h, xs), d)
  {
    LevelAt(h, xs);
    if d > 0 {
      var half := Pow2(d);
      if |xs| <= half {
        TreeOfLevel(h, xs, d - 1);
      } else {
        LevelSplits(h, xs, Pow2(d - 1));
        TreeOfLevel(h, xs[..half], d - 1);
        TreeOfLevel(h, xs[half..], d - 1);
      }
    }
  }

  /** The least height whose tree has room for n leaves. */
  function Height(n: nat): (d: nat)
    requires n >= 1
    ensures n <= Pow2(d) && (d == 0 || Pow2(d - 1) < n)
  {
    if n == 1 then 0 else 1 + Height((n + 1) / 2)
  }

  /** The loop's root is the root of the tree. */
  lemma {:induction false} RootIsTreeRoot<T>(h: (T, T) -> T, xs: seq<T>)
    requires xs != []
    ensures Root(h, xs) == TreeRoot(h, xs, Height(|xs|))
    decreases |xs|
  {
    if |xs| > 1 {
      LevelAt(h, xs);
      RootIsTreeRoot(h, Level(h, xs));
      TreeOfLevel(h, xs, Height((|xs| + 1) / 2));
    }
  }

  // ----- Commitment -----

  ghost predicate Distinct<T>(xs: seq<T>) {
    forall i, j :: 0 <= i < j < |xs| ==> xs[i] != xs[j]
  }

  /** What the second member of a pair is at the end of an odd level. */
  function Mate<T>(xs: seq<T>, i: nat): T
    requires 2 * i < |xs|
  {
    if 2 * i + 1 < |xs| then xs[2 * i + 1] else xs[2 * i]
  }

  /** The pairs hashed for one level. */
  function PairsOf<T>(xs: seq<T>): (r: seq<(T, T)>)
    ensures |r| == (|xs| + 1) / 2 && forall i :: 0 <= i < |r| ==> r[i] == (xs[2 * i], Mate(xs, i))
  {
    seq((|xs| + 1) / 2, i requires 0 <= i < (|xs| + 1) / 2 => (xs[2 * i], Mate(xs, i)))
  }

  /** All pairs hashed on the way to the root. */
  function Hashed<T>(h: (T, T) -> T, xs: seq<T>): seq<(T, T)>
    decreases |xs|
  {
    LevelAt(h, xs);
    if |xs| <= 1 then [] else PairsOf(xs) + Hashed(h, Level(h, xs))
  }

  /** No two different pairs among these have the same hash. */
  ghost predicate InjectiveOn<T>(h: (T, T) -> T, pairs: seq<(T, T)>) {
    forall i, j :: 0 <= i < |pairs| && 0 <= j < |pairs| && h(pairs[i].0, pairs[i].1) == h(pairs[j].0, pairs[j].1)
                   ==> pairs[i] == pairs[j]
  }

  /** Equal hashes of pairs among these mean equal pairs. */
  lemma SamePair<T>(h: (T, T) -> T, all: seq<(T, T)>, p: (T, T), q: (T, T))
    requires InjectiveOn(h, all) && p in all && q in all && h(p.0, p.1) == h(q.0, q.1)
    ensures p == q
  {
    var i :| 0 <= i < |all| && all[i] == p;
    var j :| 0 <= j < |all| && all[j] == q;
    assert h(all[i].0, all[i].1) == h(all[j].0, all[j].1);
  }

  /** Every pair hashed for this list's tree is among these. */
  ghost predicate Covers<T>(h: (T, T) -> T, all: seq<(T, T)>, xs: seq<T>) {
    forall p :: p in Hashed(h, xs) ==> p in all
  }

  lemma CoversLevel<T>(h: (T, T) -> T, all: seq<(T, T)>, xs: seq<T>)
    requires |xs| > 1 && Covers(h, all, xs)
    ensures Covers(h, all, Level(h, xs)) && |Level(h, xs)| == (|xs| + 1) / 2
    ensures forall i :: 0 <= i < |Level(h, xs)| ==>
              (xs[2 * i], Mate(xs, i)) in all && Level(h, xs)[i] == h(xs[2 * i], Mate(xs, i))
  {
    LevelAt(h, xs);
    var ps := PairsOf(xs);
    assert forall p :: p in ps ==> p in Hashed(h, xs);
    assert forall p :: p in Hashed(h, Level(h, xs)) ==> p in Hashed(h, xs);
    forall i | 0 <= i < |Level(h, xs)| ensures (xs[2 * i], Mate(xs, i)) in all { assert ps[i] in ps; }
  }

  lemma LevelIsDistinct<T>(h: (T, T) -> T, all: seq<(T, T)>, xs: seq<T>)
    requires InjectiveOn(h, all) && Covers(h, all, xs) && Distinct(xs) && |xs| > 1
    ensures Distinct(Level(h, xs))
  {
    hide InjectiveOn, Covers;
    CoversLevel(h, all, xs);
    var ys := Level(h, xs);
    forall i, j | 0 <= i < j < |ys| ensures ys[i] != ys[j] {
      assert xs[2 * i] != xs[2 * j];
      if ys[i] == ys[j] { SamePair(h, all, (xs[2 * i], Mate(xs, i)), (xs[2 * j], Mate(xs, j))); }
    }
  }

  /** Duplicate-free lists with the same level above them are the same list: only an odd list and its doubled form
      could agree otherwise. */
  lemma LevelDetermines<T>(h: (T, T) -> T, all: seq<(T, T)>, xs: seq<T>, ys: seq<T>)
    requires InjectiveOn(h, all) && Covers(h, all, xs) && Covers(h, all, ys)
    requires Distinct(xs) && Distinct(ys) && |xs| > 1 && |ys| > 1 && Level(h, xs) == Level(h, ys)
    ensures xs == ys
  {
    hide InjectiveOn, Covers;
    CoversLevel(h, all, xs);
    CoversLevel(h, all, ys);
    var n := |Level(h, xs)|;
    forall i | 0 <= i < n
      ensures xs[2 * i] == ys[2 * i] && (2 * i + 1 < |xs| <==> 2 * i + 1 < |ys|)
      ensures 2 * i + 1 < |xs| ==> xs[2 * i + 1] == ys[2 * i + 1]
    {
      SamePair(h, all, (xs[2 * i], Mate(xs, i)), (ys[2 * i], Mate(ys, i)));
      assert 2 * i + 1 < |xs| ==> xs[2 * i] != xs[2 * i + 1];
      assert 2 * i + 1 < |ys| ==> ys[2 * i] != ys[2 * i + 1];
    }
    assert 2 * (n - 1) + 1 < |xs| <==> 2 * (n - 1) + 1 < |ys|;
    forall k | 0 <= k < |xs| ensures xs[k] == ys[k] {
      var i := k / 2;
      assert k == 2 * i || k == 2 * i + 1;
    }
  }

  /** xs is ys or one of the levels above it, up to the root. */
  ghost predicate IsLevelOf<T>(h: (T, T) -> T, xs: seq<T>, ys: seq<T>)
    decreases |ys|
  {
    LevelAt(h, ys);
    xs == ys || (|ys| > 1 && IsLevelOf(h, xs, Level(h, ys)))
  }

  lemma {:induction false} BelowLevels<T>(h: (T, T) -> T, all: seq<(T, T)>, xs: seq<T>, ys: seq<T>)
    requires InjectiveOn(h, all) && Covers(h, all, xs) && Covers(h, all, ys)
    requires Distinct(xs) && Distinct(ys) && |xs| > 1 && |ys| > 1 && IsLevelOf(h, Level(h, xs), Level(h, ys))
    ensures IsLevelOf(h, xs, ys)
    decreases |ys|
  {
    hide InjectiveOn, Covers, Distinct;
    LevelAt(h, ys);
    if Level(h, xs) == Level(h, ys) { LevelDetermines(h, all, xs, ys); } else {
      CoversLevel(h, all, ys);
      LevelIsDistinct(h, all, ys);
      BelowLevels(h, all, xs, Level(h, ys));
    }
  }

  lemma {:induction false} RootIsLevel<T>(h: (T, T) -> T, xs: seq<T>)
    requires xs != []
    ensures IsLevelOf(h, [Root(h, xs)], xs)
    decreases |xs|
  {
    LevelAt(h, xs);
    if |xs| == 1 { assert [Root(h, xs)] == xs; } else { RootIsLevel(h, Level(h, xs)); }
  }

  lemma {:induction false} RootsNest<T>(h: (T, T) -> T, all: seq<(T, T)>, xs: seq<T>, ys: seq<T>)
    requires InjectiveOn(h, all) && Covers(h, all, xs) && Covers(h, all, ys)
    requires Distinct(xs) && Distinct(ys) && xs != [] && ys != [] && Root(h, xs) == Root(h, ys)
    ensures IsLevelOf(h, xs, ys) || IsLevelOf(h, ys, xs)
    decreases |xs| + |ys|
  {
    hide InjectiveOn, Covers, Distinct, IsLevelOf;
    if |xs| == 1 {
      RootIsLevel(h, ys);
      assert xs == [Root(h, ys)];
    } else if |ys| == 1 {
      RootIsLevel(h, xs);
      assert ys == [Root(h, xs)];
    } else {
      CoversLevel(h, all, xs);
      CoversLevel(h, all, ys);
      LevelIsDistinct(h, all, xs);
      LevelIsDistinct(h, all, ys);
      RootsNest(h, all, Level(h, xs), Level(h, ys));
      if IsLevelOf(h, Level(h, xs), Level(h, ys)) { BelowLevels(h, all, xs, ys); } else { BelowLevels(h, all, ys, xs); }
    }
  }

  /** Two different pairs hashed for these two roots have the same hash. */
  ghost predicate Collide<T(!new)>(h: (T, T) -> T, xs: seq<T>, ys: seq<T>) {
    exists p, q :: p in Hashed(h, xs) + Hashed(h, ys) && q in Hashed(h, xs) + Hashed(h, ys)
                   && p != q && h(p.0, p.1) == h(q.0, q.1)
  }

  lemma NoCollision<T(!new)>(h: (T, T) -> T, xs: seq<T>, ys: seq<T>)
    requires !Collide(h, xs, ys)
    ensures InjectiveOn(h, Hashed(h, xs) + Hashed(h, ys))
    ensures Covers(h, Hashed(h, xs) + Hashed(h, ys), xs) && Covers(h, Hashed(h, xs) + Hashed(h, ys), ys)
  {
    hide Hashed;
    var all := Hashed(h, xs) + Hashed(h, ys);
    forall i, j | 0 <= i < |all| && 0 <= j < |all| && h(all[i].0, all[i].1) == h(all[j].0, all[j].1)
      ensures all[i] == all[j]
    {
      assert all[i] in all && all[j] in all;
    }
  }

  /** Of two duplicate-free lists with equal roots one is a level of the other's tree, or the trees hold a collision. */
  lemma EqualRootsNest<T(!new)>(h: (T, T) -> T, xs: seq<T>, ys: seq<T>)
    requires Distinct(xs) && Distinct(ys) && xs != [] && ys != [] && Root(h, xs) == Root(h, ys)
    ensures IsLevelOf(h, xs, ys) || IsLevelOf(h, ys, xs) || Collide(h, xs, ys)
  {
    hide Distinct, IsLevelOf, Collide, Hashed, InjectiveOn, Covers;
    if !Collide(h, xs, ys) {
      NoCollision(h, xs, ys);
      RootsNest(h, Hashed(h, xs) + Hashed(h, ys), xs, ys);
    }
  }

  /** The first of these leaves is the hash of a pair of the other tree. */
  ghost predicate IsNode<T>(h: (T, T) -> T, x: T, ys: seq<T>) {
    exists i :: 0 <= i < |Hashed(h, ys)| && x == h(Hashed(h, ys)[i].0, Hashed(h, ys)[i].1)
  }

  lemma FirstIsNode<T>(h: (T, T) -> T, ys: seq<T>)
    requires |ys| > 1
    ensures Level(h, ys) != [] && IsNode(h, Level(h, ys)[0], ys)
  {
    LevelAt(h, ys);
    assert Hashed(h, ys)[0] == PairsOf(ys)[0];
  }

  lemma NodeOfLevel<T>(h: (T, T) -> T, x: T, ys: seq<T>)
    requires |ys| > 1 && IsNode(h, x, Level(h, ys))
    ensures IsNode(h, x, ys)
  {
    LevelAt(h, ys);
    var ps, qs := PairsOf(ys), Hashed(h, Level(h, ys));
    assert Hashed(h, ys) == ps + qs;
    hide Hashed, Level, PairsOf;
    var i :| 0 <= i < |qs| && x == h(qs[i].0, qs[i].1);
    assert (ps + qs)[|ps| + i] == qs[i];
  }

  lemma {:induction false} UpperLevelIsNode<T>(h: (T, T) -> T, xs: seq<T>, ys: seq<T>)
    requires xs != [] && IsLevelOf(h, xs, ys) && xs != ys
    ensures IsNode(h, xs[0], ys)
    decreases |ys|
  {
    hide IsNode;
    LevelAt(h, ys);
    if xs == Level(h, ys) { FirstIsNode(h, ys); } else {
      UpperLevelIsNode(h, xs, Level(h, ys));
      NodeOfLevel(h, xs[0], ys);
    }
  }

  /** Commitment, for every node hash: two duplicate-free lists with equal roots are the same list, or their trees
      hold two different pairs with one hash, or the first leaf of one is a node hash of the other. */
  lemma RootCommits<T(!new)>(h: (T, T) -> T, xs: seq<T>, ys: seq<T>)
    requires Distinct(xs) && Distinct(ys) && xs != [] && ys != []
    ensures Root(h, xs) == Root(h, ys) && xs != ys
            ==> Collide(h, xs, ys) || IsNode(h, xs[0], ys) || IsNode(h, ys[0], xs)
  {
    hide Distinct, IsLevelOf, Collide, IsNode;
    if Root(h, xs) == Root(h, ys) && xs != ys {
      EqualRootsNest(h, xs, ys);
      if IsLevelOf(h, xs, ys) { UpperLevelIsNode(h, xs, ys); }
      else if IsLevelOf(h, ys, xs) { UpperLevelIsNode(h, ys, xs); }
    }
  }

  /** Without the distinctness test the commitment fails: doubling the last of three leaves keeps the
      root. */
  lemma RepetitionBreaksCommitment<T>(h: (T, T) -> T, a: T, b: T, c: T)
    ensures Root(h, [a, b, c]) == Root(h, [a, b, c, c]) && [a, b, c] != [a, b, c, c]
  {
    assert [a, b, c][2..] == [c] && [a, b, c, c][2..] == [c, c];
    assert Level(h, [a, b, c]) == [h(a, b)] + Level(h, [c]) == [h(a, b), h(c, c)];
    assert [c, c][2..] == [];
    assert Level(h, [a, b, c, c]) == [h(a, b)] + Level(h, [c, c]) == [h(a, b), h(c, c)];
  }
}
