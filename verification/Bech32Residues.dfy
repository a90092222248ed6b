/** The three congruences between the distances of four errors, over the integers. */
module Bech32Residues {
  import opened SmallNumbers
  import opened Bech32Clash
  import opened Bech32Distances

  lemma Shift33(q: int, r: int)
    ensures (33 * q + r) % 33 == r % 33
  {}

  lemma ReduceFirst(a: nat, b: nat)
    ensures (a % 33 + b) % 33 == (a + b) % 33
  {
    Shift33(a / 33, a % 33 + b);
  }

  // ----- The tables as integers -----

  lemma Mod33Cases(x: Num)
    ensures x < 33 ==> Mod33(x) == x
    ensures !(x < 33) && x < 66 ==> Mod33(x) == Minus(x, 33) && 33 <= x
  {}

  lemma Mod33Is(x: Num)
    requires Down(x) < 66
    ensures Down(Mod33(x)) == Down(x) % 33
  {
    hide Down, Mod33, Minus;
    Literals();
    Mod33Cases(x);
    NumLess(x, 33);
    NumLess(x, 66);
    if !(x < 33) { DownSubtracts(33, x); }
  }

  lemma Residues(n: Num)
    ensures n < 89 ==> Half(n) < 33 && Slope(n) < 33 && Offset(n) < 33
  {}

  lemma HalfNext(n: Num)
    requires n < 88
    ensures Half(Plus(n, 1)) == Mod33(Plus(Half(n), 17))
  {}

  lemma SlopeNext(n: Num)
    requires n < 88
    ensures Slope(Plus(n, 1)) == Mod33(Plus(Slope(n), 25))
  {}

  lemma FirstResidues()
    ensures Half(0) == 0 && Slope(0) == 0
  {}

  lemma SmallResidues(n: nat)
    requires n <= 88
    ensures Down(Half(Up(n))) < 33 && Down(Slope(Up(n))) < 33 && Down(Offset(Up(n))) < 33
  {
    hide Up, Down, Half, Slope, Offset;
    var x := Up(n);
    Literals();
    UpLess(n, 89);
    Residues(x);
    NumLess(Half(x), 33);
    NumLess(Slope(x), 33);
    NumLess(Offset(x), 33);
  }

  lemma NextResidue(t: nat, a: nat, x: Num, c: Num)
    requires Down(x) == t % 33 && Down(c) == a <= 32
    ensures Down(Mod33(Plus(x, c))) == (t + a) % 33
  {
    hide *;
    NumAdd(x, c);
    Mod33Is(Plus(x, c));
    ReduceFirst(t, a);
  }

  lemma {:induction false} HalfIs(n: nat)
    requires n <= 88
    ensures Down(Half(Up(n))) == 17 * n % 33
  {
    hide *;
    Literals();
    FirstResidues();
    if n == 0 { UpNext(0); } else {
      HalfIs(n - 1);
      UpLess(n - 1, 88);
      UpNext(n - 1);
      HalfNext(Up(n - 1));
      NextResidue(17 * (n - 1), 17, Half(Up(n - 1)), 17);
    }
  }

  lemma {:induction false} SlopeIs(n: nat)
    requires n <= 88
    ensures Down(Slope(Up(n))) == 25 * n % 33
  {
    hide *;
    Literals();
    FirstResidues();
    if n == 0 { UpNext(0); } else {
      SlopeIs(n - 1);
      UpLess(n - 1, 88);
      UpNext(n - 1);
      SlopeNext(Up(n - 1));
      NextResidue(25 * (n - 1), 25, Slope(Up(n - 1)), 25);
    }
  }

  function Residue(a: int): int { a % 33 }

  predicate Congruent(a: int, b: int) { Residue(a) == Residue(b) }

  lemma BothCongruent(a: int, b: int, c: int)
    requires Congruent(a, c) && Congruent(b, c)
    ensures Congruent(a, b)
  {}

  /** The class of 1 + e^n, less 17 n. */
  function Off(n: nat): nat { Down(Offset(Up(n))) }

  lemma GapCases(x: Num)
    ensures ClassOf(x) == Mod33(Plus(Half(x), Offset(x)))
  {}

  lemma GapParts(n: nat)
    requires n <= 88
    ensures Gap(n) == (17 * n % 33 + Off(n)) % 33
  {
    hide Up, Plus, Down, Half, Mod33, Offset, Slope, ClassOf;
    var x := Up(n);
    SmallResidues(n);
    HalfIs(n);
    GapCases(x);
    NumAdd(Half(x), Offset(x));
    Mod33Is(Plus(Half(x), Offset(x)));
  }

  lemma GapIs(n: nat)
    requires n <= 88
    ensures Congruent(Gap(n), 17 * n + Off(n))
  {
    hide Gap, Off;
    GapParts(n);
    ReduceFirst(17 * n, Off(n));
  }

  // ----- From congruences to the search -----

  lemma SameCases(a: Num, b: Num)
    ensures Same(a, b) <==> a == b || Plus(a, 33) == b || Plus(a, 66) == b || a == Plus(b, 33) || a == Plus(b, 66)
  {}

  lemma SameIs(a: Num, b: Num)
    requires Down(a) <= 64 && Down(b) <= 96 && Congruent(Down(a), Down(b))
    ensures Same(a, b)
  {
    hide Same, Down, Plus;
    Literals();
    SameCases(a, b);
    var x, y := Down(a), Down(b);
    assert y == x || y == x + 33 || y == x + 66 || x == y + 33;
    if y == x { NumLess(a, b); }
    else if y == x + 33 { NumAdd(a, 33); NumLess(Plus(a, 33), b); }
    else if y == x + 66 { NumAdd(a, 66); NumLess(Plus(a, 66), b); }
    else { NumAdd(b, 33); NumLess(Plus(b, 33), a); }
  }

  /** The two sides of a congruence in the tables. */
  function Left(a: nat, b: nat): Num { Plus(Offset(Up(a)), Offset(Up(b))) }
  function Right(n: nat, c: nat, d: nat): Num { Plus(Plus(Slope(Up(n)), Offset(Up(c))), Offset(Up(d))) }

  lemma LeftIs(a: nat, b: nat)
    requires a <= 88 && b <= 88
    ensures Down(Left(a, b)) == Off(a) + Off(b) <= 64
  {
    hide Up, Down, Plus, Offset, Slope;
    SmallResidues(a);
    SmallResidues(b);
    NumAdd(Offset(Up(a)), Offset(Up(b)));
  }

  lemma RightIs(n: nat, c: nat, d: nat)
    requires n <= 88 && c <= 88 && d <= 88
    ensures Down(Right(n, c, d)) <= 96 && Congruent(Down(Right(n, c, d)), 25 * n + Off(c) + Off(d))
  {
    hide Up, Down, Plus, Offset, Slope;
    SmallResidues(c);
    SmallResidues(d);
    SmallResidues(n);
    SlopeIs(n);
    ThreeSmall(Slope(Up(n)), Offset(Up(c)), Offset(Up(d)));
    ReduceFirst(25 * n, Off(c) + Off(d));
  }

  lemma ThreeSmall(x: Num, y: Num, z: Num)
    requires Down(x) < 33 && Down(y) < 33 && Down(z) < 33
    ensures Down(Plus(Plus(x, y), z)) == Down(x) + Down(y) + Down(z)
  {
    hide Down, Plus;
    NumAdd(x, y);
    NumAdd(Plus(x, y), z);
  }

  lemma SidesAreSame(a: nat, b: nat, n: nat, c: nat, d: nat)
    requires a <= 88 && b <= 88 && n <= 88 && c <= 88 && d <= 88
    requires Congruent(Off(a) + Off(b), 25 * n + Off(c) + Off(d))
    ensures Same(Left(a, b), Right(n, c, d))
  {
    hide *;
    LeftIs(a, b);
    RightIs(n, c, d);
    BothCongruent(Off(a) + Off(b), Down(Right(n, c, d)), 25 * n + Off(c) + Off(d));
    SameIs(Left(a, b), Right(n, c, d));
  }

  lemma AllApart(i: nat, j: nat, k: nat)
    requires 1 <= i < j < k <= 88
    ensures !Clash(Up(i), Up(j), Up(k))
  {
    hide Up, Down, Clash;
    Literals();
    DownUp(j);
    DownUp(k);
    UpLess(i, 1);
    UpLess(i, Up(j));
    UpLess(j, Up(k));
    UpLess(k, 89);
    InRange(Up(i));
    InRange(Up(k));
    NoClash(Up(i), Up(j), Up(k));
  }

  lemma SidesDiffer(i: nat, j: nat, k: nat)
    requires 1 <= i < j < k <= 88
    ensures !(Same(Left(j, k), Right(i, j - i, k - i)) && Same(Left(i, k), Right(j, j - i, k - j))
              && Same(Left(i, j), Right(k, k - i, k - j)))
  {
    hide Up, Minus, Plus, Offset, Slope, Same;
    UpSubtracts(i, j);
    UpSubtracts(i, k);
    UpSubtracts(j, k);
    AllApart(i, j, k);
  }

  /** No places at distances i < j < k from a first one satisfy all three congruences. */
  lemma NoCongruences(i: nat, j: nat, k: nat)
    requires 1 <= i < j < k <= 88
    ensures !(Congruent(Off(j) + Off(k), 25 * i + Off(j - i) + Off(k - i))
              && Congruent(Off(i) + Off(k), 25 * j + Off(j - i) + Off(k - j))
              && Congruent(Off(i) + Off(j), 25 * k + Off(k - i) + Off(k - j)))
  {
    hide *;
    SidesDiffer(i, j, k);
    if Congruent(Off(j) + Off(k), 25 * i + Off(j - i) + Off(k - i))
       && Congruent(Off(i) + Off(k), 25 * j + Off(j - i) + Off(k - j))
       && Congruent(Off(i) + Off(j), 25 * k + Off(k - i) + Off(k - j)) {
      SidesAreSame(j, k, i, j - i, k - i);
      SidesAreSame(i, k, j, j - i, k - j);
      SidesAreSame(i, j, k, k - i, k - j);
    }
  }
}
