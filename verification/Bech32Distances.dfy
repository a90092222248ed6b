/** The classes of 1 + e^n for n up to 88, from tables of powers. */
module Bech32Distances {
  import opened GF1024
  import opened GF1024Order
  import opened SmallNumbers
  import opened Bech32Clash
  import opened Bech32Classes

  // ----- Tables of powers -----

  /** e^n. */
  function PowerOfE(n: Num): Elem {
    if n & 64 == 0 then
      if n & 32 == 0 then
        if n & 16 == 0 then
          if n & 8 == 0 then
            if n & 4 == 0 then
              if n & 2 == 0 then if n & 1 == 0 then 1 else 2 else if n & 1 == 0 then 4 else 8
            else
              if n & 2 == 0 then if n & 1 == 0 then 16 else 32 else if n & 1 == 0 then 64 else 128
          else
            if n & 4 == 0 then
              if n & 2 == 0 then if n & 1 == 0 then 256 else 512 else if n & 1 == 0 then 291 else 582
            else
              if n & 2 == 0 then if n & 1 == 0 then 431 else 862 else if n & 1 == 0 then 927 else 541
        else
          if n & 8 == 0 then
            if n & 4 == 0 then
              if n & 2 == 0 then if n & 1 == 0 then 281 else 562 else if n & 1 == 0 then 327 else 654
            else
              if n & 2 == 0 then if n & 1 == 0 then 63 else 126 else if n & 1 == 0 then 252 else 504
          else
            if n & 4 == 0 then
              if n & 2 == 0 then if n & 1 == 0 then 1008 else 707 else if n & 1 == 0 then 165 else 330
            else
              if n & 2 == 0 then if n & 1 == 0 then 660 else 11 else if n & 1 == 0 then 22 else 44
      else
        if n & 16 == 0 then
          if n & 8 == 0 then
            if n & 4 == 0 then
              if n & 2 == 0 then if n & 1 == 0 then 88 else 176 else if n & 1 == 0 then 352 else 704
            else
              if n & 2 == 0 then if n & 1 == 0 then 163 else 326 else if n & 1 == 0 then 652 else 59
          else
            if n & 4 == 0 then
              if n & 2 == 0 then if n & 1 == 0 then 118 else 236 else if n & 1 == 0 then 472 else 944
            else
              if n & 2 == 0 then if n & 1 == 0 then 579 else 421 else if n & 1 == 0 then 842 else 951
        else
          if n & 8 == 0 then
            if n & 4 == 0 then
              if n & 2 == 0 then if n & 1 == 0 then 589 else 441 else if n & 1 == 0 then 882 else 967
            else
              if n & 2 == 0 then if n & 1 == 0 then 685 else 121 else if n & 1 == 0 then 242 else 484
          else
            if n & 4 == 0 then
              if n & 2 == 0 then if n & 1 == 0 then 968 else 691 else if n & 1 == 0 then 69 else 138
            else
              if n & 2 == 0 then if n & 1 == 0 then 276 else 552 else if n & 1 == 0 then 371 else 742
    else
      if n & 32 == 0 then
        if n & 16 == 0 then
          if n & 8 == 0 then
            if n & 4 == 0 then
              if n & 2 == 0 then if n & 1 == 0 then 239 else 478 else if n & 1 == 0 then 956 else 603
            else
              if n & 2 == 0 then if n & 1 == 0 then 405 else 810 else if n & 1 == 0 then 887 else 973
          else
            if n & 4 == 0 then
              if n & 2 == 0 then if n & 1 == 0 then 697 else 81 else if n & 1 == 0 then 162 else 324
            else
              if n & 2 == 0 then if n & 1 == 0 then 648 else 51 else if n & 1 == 0 then 102 else 204
        else
          if n & 8 == 0 then
            if n & 4 == 0 then
              if n & 2 == 0 then if n & 1 == 0 then 408 else 816 else if n & 1 == 0 then 835 else 933
            else
              if n & 2 == 0 then if n & 1 == 0 then 617 else 497 else if n & 1 == 0 then 994 else 743
          else
            if n & 4 == 0 then
              if n & 2 == 0 then if n & 1 == 0 then 237 else 0 else if n & 1 == 0 then 0 else 0
            else
              0
      else
        0
  }

  /** e^(32 n). */
  function PowerOfE32(n: Num): Elem {
    if n & 64 == 0 then
      if n & 32 == 0 then
        if n & 16 == 0 then
          if n & 8 == 0 then
            if n & 4 == 0 then
              if n & 2 == 0 then if n & 1 == 0 then 1 else 88 else if n & 1 == 0 then 239 else 185
            else
              if n & 2 == 0 then if n & 1 == 0 then 838 else 966 else if n & 1 == 0 then 1021 else 48
          else
            if n & 4 == 0 then
              if n & 2 == 0 then if n & 1 == 0 then 485 else 703 else if n & 1 == 0 then 634 else 501
            else
              if n & 2 == 0 then if n & 1 == 0 then 540 else 1007 else if n & 1 == 0 then 35 else 430
        else
          if n & 8 == 0 then
            if n & 4 == 0 then
              if n & 2 == 0 then if n & 1 == 0 then 539 else 615 else if n & 1 == 0 then 686 else 641
            else
              if n & 2 == 0 then if n & 1 == 0 then 143 else 883 else if n & 1 == 0 then 795 else 529
          else
            if n & 4 == 0 then
              if n & 2 == 0 then if n & 1 == 0 then 23 else 299 else if n & 1 == 0 then 792 else 761
            else
              if n & 2 == 0 then if n & 1 == 0 then 294 else 224 else if n & 1 == 0 then 1009 else 912
      else
        if n & 16 == 0 then
          if n & 8 == 0 then
            if n & 4 == 0 then
              if n & 2 == 0 then if n & 1 == 0 then 2 else 176 else if n & 1 == 0 then 478 else 370
            else
              if n & 2 == 0 then if n & 1 == 0 then 943 else 687 else if n & 1 == 0 then 729 else 96
          else
            if n & 4 == 0 then
              if n & 2 == 0 then if n & 1 == 0 then 970 else 93 else if n & 1 == 0 then 471 else 1002
            else
              if n & 2 == 0 then if n & 1 == 0 then 283 else 765 else if n & 1 == 0 then 70 else 860
        else
          if n & 8 == 0 then
            if n & 4 == 0 then
              if n & 2 == 0 then if n & 1 == 0 then 277 else 493 else if n & 1 == 0 then 127 else 33
            else
              if n & 2 == 0 then if n & 1 == 0 then 286 else 965 else if n & 1 == 0 then 789 else 257
          else
            if n & 4 == 0 then
              if n & 2 == 0 then if n & 1 == 0 then 46 else 598 else if n & 1 == 0 then 787 else 209
            else
              if n & 2 == 0 then if n & 1 == 0 then 588 else 448 else if n & 1 == 0 then 705 else 515
    else
      if n & 32 == 0 then
        if n & 16 == 0 then
          if n & 8 == 0 then
            if n & 4 == 0 then
              if n & 2 == 0 then if n & 1 == 0 then 4 else 352 else if n & 1 == 0 then 956 else 740
            else
              if n & 2 == 0 then if n & 1 == 0 then 637 else 125 else if n & 1 == 0 then 145 else 192
          else
            if n & 4 == 0 then
              if n & 2 == 0 then if n & 1 == 0 then 695 else 186 else if n & 1 == 0 then 942 else 759
            else
              if n & 2 == 0 then if n & 1 == 0 then 566 else 217 else if n & 1 == 0 then 140 else 923
        else
          if n & 8 == 0 then
            if n & 4 == 0 then
              if n & 2 == 0 then if n & 1 == 0 then 554 else 986 else if n & 1 == 0 then 254 else 66
            else
              if n & 2 == 0 then if n & 1 == 0 then 572 else 681 else if n & 1 == 0 then 777 else 514
          else
            if n & 4 == 0 then
              if n & 2 == 0 then if n & 1 == 0 then 92 else 0 else if n & 1 == 0 then 0 else 0
            else
              0
      else
        0
  }

  /** theta^n. */
  function PowerOfTheta(n: Num): Elem {
    if n & 64 == 0 then
      if n & 32 == 0 then
        if n & 16 == 0 then
          if n & 8 == 0 then
            if n & 4 == 0 then
              if n & 2 == 0 then if n & 1 == 0 then 1 else 44 else if n & 1 == 0 then 371 else 874
            else
              if n & 2 == 0 then if n & 1 == 0 then 144 else 76 else if n & 1 == 0 then 150 else 164
          else
            if n & 4 == 0 then
              if n & 2 == 0 then if n & 1 == 0 then 671 else 414 else if n & 1 == 0 then 511 else 54
            else
              if n & 2 == 0 then if n & 1 == 0 then 651 else 1006 else if n & 1 == 0 then 684 else 905
        else
          if n & 8 == 0 then
            if n & 4 == 0 then
              if n & 2 == 0 then if n & 1 == 0 then 909 else 829 else if n & 1 == 0 then 978 else 287
            else
              if n & 2 == 0 then if n & 1 == 0 then 863 else 623 else if n & 1 == 0 then 55 else 679
          else
            if n & 4 == 0 then
              if n & 2 == 0 then if n & 1 == 0 then 669 else 454 else if n & 1 == 0 then 793 else 961
            else
              if n & 2 == 0 then if n & 1 == 0 then 939 else 886 else if n & 1 == 0 then 896 else 705
      else
        if n & 16 == 0 then
          if n & 8 == 0 then
            if n & 4 == 0 then
              if n & 2 == 0 then if n & 1 == 0 then 912 else 0 else if n & 1 == 0 then 0 else 0
            else
              0
          else
            0
        else
          0
    else
      0
  }

  // ----- Multiplication without recursion -----

  function Turn(x: Elem): Elem { (x << 1) ^ (if x & 512 != 0 then 0x123 else 0) }

  /** x if y has the bit. */
  function Part(y: Elem, bit: Elem, x: Elem): Elem { if y & bit != 0 then x else 0 }

  function Five(a: Elem, b: Elem, c: Elem, d: Elem, e: Elem): Elem { a ^ b ^ c ^ d ^ e }

  function Product(x: Elem, y: Elem): Elem {
    var x1 := Turn(x);
    var x2 := Turn(x1);
    var x3 := Turn(x2);
    var x4 := Turn(x3);
    var x5 := Turn(x4);
    var x6 := Turn(x5);
    var x7 := Turn(x6);
    var x8 := Turn(x7);
    Xor(Five(Part(y, 1, x), Part(y, 2, x1), Part(y, 4, x2), Part(y, 8, x3), Part(y, 16, x4)),
        Five(Part(y, 32, x5), Part(y, 64, x6), Part(y, 128, x7), Part(y, 256, x8), Part(y, 512, Turn(x8))))
  }

  lemma TurnIs(x: Elem)
    ensures TimesE(x) == Turn(x)
  {}

  lemma PartIs(x: Elem, y: Elem)
    ensures Pick(BitAt(y, 0), x) == Part(y, 1, x) && Pick(BitAt(y, 1), x) == Part(y, 2, x)
    ensures Pick(BitAt(y, 2), x) == Part(y, 4, x) && Pick(BitAt(y, 3), x) == Part(y, 8, x)
    ensures Pick(BitAt(y, 4), x) == Part(y, 16, x) && Pick(BitAt(y, 5), x) == Part(y, 32, x)
    ensures Pick(BitAt(y, 6), x) == Part(y, 64, x) && Pick(BitAt(y, 7), x) == Part(y, 128, x)
    ensures Pick(BitAt(y, 8), x) == Part(y, 256, x) && Pick(BitAt(y, 9), x) == Part(y, 512, x)
  {}

  /** The bits of y from k on. */
  lemma FromBit(x: Elem, y: Elem, k: nat)
    requires k < 10
    ensures MulFrom(x, y, k) == Xor(Pick(BitAt(y, k), x), MulFrom(Turn(x), y, k + 1)) && MulFrom(x, y, 10) == 0
  {
    hide Xor, Pick, BitAt, TimesE, Turn;
    TurnIs(x);
  }

  lemma FiveIs(a: Elem, b: Elem, c: Elem, d: Elem, e: Elem, rest: Elem)
    ensures Xor(a, Xor(b, Xor(c, Xor(d, Xor(e, rest))))) == Xor(Five(a, b, c, d, e), rest)
  {}

  lemma MulIs(x: Elem, y: Elem)
    ensures Mul(x, y) == Product(x, y)
  {
    hide Turn, MulFrom, Pick, BitAt, Part, Xor, Five;
    var x1 := Turn(x);
    var x2 := Turn(x1);
    var x3 := Turn(x2);
    var x4 := Turn(x3);
    var x5 := Turn(x4);
    var x6 := Turn(x5);
    var x7 := Turn(x6);
    var x8 := Turn(x7);
    var x9 := Turn(x8);
    FromBit(x, y, 0);
    FromBit(x1, y, 1);
    FromBit(x2, y, 2);
    FromBit(x3, y, 3);
    FromBit(x4, y, 4);
    FromBit(x5, y, 5);
    FromBit(x6, y, 6);
    FromBit(x7, y, 7);
    FromBit(x8, y, 8);
    FromBit(x9, y, 9);
    FromBit(Turn(x9), y, 9);
    PartIs(x, y);
    PartIs(x1, y);
    PartIs(x2, y);
    PartIs(x3, y);
    PartIs(x4, y);
    PartIs(x5, y);
    PartIs(x6, y);
    PartIs(x7, y);
    PartIs(x8, y);
    PartIs(x9, y);
    FiveIs(Part(y, 32, x5), Part(y, 64, x6), Part(y, 128, x7), Part(y, 256, x8), Part(y, 512, x9), 0);
    FiveIs(Part(y, 1, x), Part(y, 2, x1), Part(y, 4, x2), Part(y, 8, x3), Part(y, 16, x4), MulFrom(x5, y, 5));
    XorZero(Five(Part(y, 32, x5), Part(y, 64, x6), Part(y, 128, x7), Part(y, 256, x8), Part(y, 512, x9)));
  }

  // ----- Step by step -----

  lemma NextPower(n: Num) requires n < 88 ensures PowerOfE(Plus(n, 1)) == Product(PowerOfE(n), 2) {}

  lemma NextPowerA(n: Num) requires n < 22 ensures PowerOfE32(Plus(n, 1)) == Product(88, PowerOfE32(n)) {}
  lemma NextPowerB(n: Num) requires 22 <= n < 44 ensures PowerOfE32(Plus(n, 1)) == Product(88, PowerOfE32(n)) {}
  lemma NextPowerC(n: Num) requires 44 <= n < 66 ensures PowerOfE32(Plus(n, 1)) == Product(88, PowerOfE32(n)) {}
  lemma NextPowerD(n: Num) requires 66 <= n < 88 ensures PowerOfE32(Plus(n, 1)) == Product(88, PowerOfE32(n)) {}

  lemma NextRootA(n: Num) requires n < 16 ensures PowerOfTheta(Plus(n, 1)) == Product(44, PowerOfTheta(n)) {}
  lemma NextRootB(n: Num) requires 16 <= n < 32 ensures PowerOfTheta(Plus(n, 1)) == Product(44, PowerOfTheta(n)) {}

  lemma {:induction false} PowerIs(n: nat)
    requires n <= 88
    ensures Pow(E1, n) == PowerOfE(Up(n))
  {
    hide Plus, Down, Mul, Product, PowerOfE;
    Literals();
    if n == 0 { FirstPowers(); } else {
      PowerIs(n - 1);
      UpLess(n - 1, 88);
      NextPower(Up(n - 1));
      MulIs(Pow(E1, n - 1), E1);
    }
  }

  lemma FirstPowers()
    ensures PowerOfE(0) == ONE && PowerOfE32(0) == ONE && PowerOfTheta(0) == ONE
  {}

  lemma {:induction false} Power32Is(n: nat)
    requires n <= 88
    ensures Pow(E32, n) == PowerOfE32(Up(n))
  {
    hide Plus, Down, Mul, Product, PowerOfE32;
    Literals();
    if n == 0 { FirstPowers(); } else {
      Power32Is(n - 1);
      var x := Up(n - 1);
      UpLess(n - 1, 22);
      UpLess(n - 1, 44);
      UpLess(n - 1, 66);
      UpLess(n - 1, 88);
      if n - 1 < 22 { NextPowerA(x); } else if n - 1 < 44 { NextPowerB(x); }
      else if n - 1 < 66 { NextPowerC(x); } else { NextPowerD(x); }
      MulCommutes(Pow(E32, n - 1), E32);
      MulIs(E32, Pow(E32, n - 1));
    }
  }

  lemma {:induction false} ThetaIs(n: nat)
    requires n <= 32
    ensures Pow(THETA, n) == PowerOfTheta(Up(n))
  {
    hide Plus, Down, Mul, Product, PowerOfTheta;
    Literals();
    if n == 0 { FirstPowers(); } else {
      ThetaIs(n - 1);
      var x := Up(n - 1);
      UpLess(n - 1, 16);
      UpLess(n - 1, 32);
      if n - 1 < 16 { NextRootA(x); } else { NextRootB(x); }
      MulCommutes(Pow(THETA, n - 1), THETA);
      MulIs(THETA, Pow(THETA, n - 1));
    }
  }

  // ----- The class of 1 + e^n -----

  function Mod33(a: Num): Num { if a >= 99 then a - 99 else if a >= 66 then a - 66 else if a >= 33 then a - 33 else a }

  /** 17 n modulo 33. */
  function Half(n: Num): Num { if n & 1 == 0 then Mod33(n >> 1) else Mod33((n >> 1) + 17) }

  function ClassOf(n: Num): Num { Mod33(Half(n) + Offset(n)) }

  predicate Fits(n: Num) { PowerOfE32(n) ^ 1 == Product(PowerOfTheta(ClassOf(n)), PowerOfE(n) ^ 1) }

  lemma Fits01(n: Num) requires 1 <= n <= 5 ensures Fits(n) {}
  lemma Fits06(n: Num) requires 6 <= n <= 10 ensures Fits(n) {}
  lemma Fits11(n: Num) requires 11 <= n <= 15 ensures Fits(n) {}
  lemma Fits16(n: Num) requires 16 <= n <= 20 ensures Fits(n) {}
  lemma Fits21(n: Num) requires 21 <= n <= 25 ensures Fits(n) {}
  lemma Fits26(n: Num) requires 26 <= n <= 30 ensures Fits(n) {}
  lemma Fits31(n: Num) requires 31 <= n <= 35 ensures Fits(n) {}
  lemma Fits36(n: Num) requires 36 <= n <= 40 ensures Fits(n) {}
  lemma Fits41(n: Num) requires 41 <= n <= 45 ensures Fits(n) {}
  lemma Fits46(n: Num) requires 46 <= n <= 50 ensures Fits(n) {}
  lemma Fits51(n: Num) requires 51 <= n <= 52 ensures Fits(n) {}
  lemma Fits53(n: Num) requires 53 <= n <= 56 ensures Fits(n) {}
  lemma Fits57(n: Num) requires 57 <= n <= 60 ensures Fits(n) {}
  lemma Fits61(n: Num) requires 61 <= n <= 65 ensures Fits(n) {}
  lemma Fits66(n: Num) requires 66 <= n <= 70 ensures Fits(n) {}
  lemma Fits71(n: Num) requires 71 <= n <= 75 ensures Fits(n) {}
  lemma Fits76(n: Num) requires 76 <= n <= 80 ensures Fits(n) {}
  lemma Fits81(n: Num) requires 81 <= n <= 85 ensures Fits(n) {}
  lemma Fits86(n: Num) requires 86 <= n <= 88 ensures Fits(n) {}

  lemma AllFit(n: Num)
    requires 1 <= n <= 88
    ensures Fits(n)
  {
    hide Fits;
    if n <= 5 { Fits01(n); }
    else if n <= 10 { Fits06(n); }
    else if n <= 15 { Fits11(n); }
    else if n <= 20 { Fits16(n); }
    else if n <= 25 { Fits21(n); }
    else if n <= 30 { Fits26(n); }
    else if n <= 35 { Fits31(n); }
    else if n <= 40 { Fits36(n); }
    else if n <= 45 { Fits41(n); }
    else if n <= 50 { Fits46(n); }
    else if n <= 52 { Fits51(n); }
    else if n <= 56 { Fits53(n); }
    else if n <= 60 { Fits57(n); }
    else if n <= 65 { Fits61(n); }
    else if n <= 70 { Fits66(n); }
    else if n <= 75 { Fits71(n); }
    else if n <= 80 { Fits76(n); }
    else if n <= 85 { Fits81(n); }
    else { Fits86(n); }
  }

  lemma ClassIsSmall(n: Num)
    ensures n < 89 ==> ClassOf(n) < 33
  {}

  /** The class of 1 + e^n as a number. */
  function Gap(n: nat): (g: nat)
    requires n < 128
  {
    Down(ClassOf(Up(n)))
  }

  lemma FitsHere(n: nat)
    requires 1 <= n <= 88
    ensures Fits(Up(n)) && Gap(n) <= 32 && Up(Gap(n)) == ClassOf(Up(n))
  {
    hide Up, Down, Fits, ClassOf;
    Literals();
    UpLess(n, 1);
    UpLess(n, 89);
    InRange(Up(n));
    AllFit(Up(n));
    ClassIsSmall(Up(n));
    NumLess(ClassOf(Up(n)), 33);
    UpDown(ClassOf(Up(n)));
  }

  lemma InRange(x: Num)
    ensures !(x < 1) <==> 1 <= x
    ensures x < 89 <==> x <= 88
  {}

  lemma FitsIs(x: Num)
    ensures Fits(x) ==> Xor(ONE, PowerOfE32(x)) == Product(PowerOfTheta(ClassOf(x)), Xor(ONE, PowerOfE(x)))
  {
    hide Product, PowerOfE, PowerOfE32, PowerOfTheta, ClassOf;
  }

  lemma ClassOfGap(n: nat)
    requires 1 <= n <= 88
    ensures HasClass(Xor(ONE, Pow(E1, n)), Gap(n))
  {
    hide Up, Gap, Xor, Fits, Mul, Product, Frob, Pow, PowerOfE, PowerOfE32, PowerOfTheta, ClassOf;
    FrobAdds(ONE, Pow(E1, n));
    FrobOfOne();
    FrobOfPower(E1, n);
    FrobOfE();
    PowerIs(n);
    Power32Is(n);
    FitsHere(n);
    FitsIs(Up(n));
    ThetaIs(Gap(n));
    MulIs(Pow(THETA, Gap(n)), Xor(ONE, Pow(E1, n)));
  }
}
