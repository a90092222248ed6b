/** The distances between four errors that could cancel would have to satisfy three congruences modulo 33 at once; no
    three distances up to 88 do. */
module Bech32Clash {
  import opened SmallNumbers

  /** Congruent modulo 33, for sums of two and of three residues. */
  predicate Same(a: Num, b: Num) { a == b || a + 33 == b || a + 66 == b || a == b + 33 || a == b + 66 }

  /** The class of 1 + e^n, less 17 n. */
  function Offset(n: Num): Num {
    if n & 64 == 0 then
      if n & 32 == 0 then
        if n & 16 == 0 then
          if n & 8 == 0 then
            if n & 4 == 0 then
              if n & 2 == 0 then if n & 1 == 0 then 0 else 5 else if n & 1 == 0 then 10 else 3
            else
              if n & 2 == 0 then if n & 1 == 0 then 20 else 29 else if n & 1 == 0 then 6 else 18
          else
            if n & 4 == 0 then
              if n & 2 == 0 then if n & 1 == 0 then 7 else 14 else if n & 1 == 0 then 25 else 12
            else
              if n & 2 == 0 then if n & 1 == 0 then 12 else 3 else if n & 1 == 0 then 3 else 30
        else
          if n & 8 == 0 then
            if n & 4 == 0 then
              if n & 2 == 0 then if n & 1 == 0 then 14 else 27 else if n & 1 == 0 then 28 else 22
            else
              if n & 2 == 0 then if n & 1 == 0 then 17 else 22 else if n & 1 == 0 then 24 else 19
          else
            if n & 4 == 0 then
              if n & 2 == 0 then if n & 1 == 0 then 24 else 10 else if n & 1 == 0 then 6 else 1
            else
              if n & 2 == 0 then if n & 1 == 0 then 6 else 14 else if n & 1 == 0 then 27 else 0
      else
        if n & 16 == 0 then
          if n & 8 == 0 then
            if n & 4 == 0 then
              if n & 2 == 0 then if n & 1 == 0 then 28 else 0 else if n & 1 == 0 then 21 else 3
            else
              if n & 2 == 0 then if n & 1 == 0 then 23 else 16 else if n & 1 == 0 then 11 else 16
          else
            if n & 4 == 0 then
              if n & 2 == 0 then if n & 1 == 0 then 1 else 18 else if n & 1 == 0 then 11 else 3
            else
              if n & 2 == 0 then if n & 1 == 0 then 15 else 25 else if n & 1 == 0 then 5 else 18
        else
          if n & 8 == 0 then
            if n & 4 == 0 then
              if n & 2 == 0 then if n & 1 == 0 then 15 else 17 else if n & 1 == 0 then 20 else 19
            else
              if n & 2 == 0 then if n & 1 == 0 then 12 else 26 else if n & 1 == 0 then 2 else 14
          else
            if n & 4 == 0 then
              if n & 2 == 0 then if n & 1 == 0 then 12 else 25 else if n & 1 == 0 then 28 else 29
            else
              if n & 2 == 0 then if n & 1 == 0 then 21 else 30 else if n & 1 == 0 then 0 else 6
    else
      if n & 32 == 0 then
        if n & 16 == 0 then
          if n & 8 == 0 then
            if n & 4 == 0 then
              if n & 2 == 0 then if n & 1 == 0 then 23 else 12 else if n & 1 == 0 then 0 else 32
            else
              if n & 2 == 0 then if n & 1 == 0 then 9 else 20 else if n & 1 == 0 then 6 else 12
          else
            if n & 4 == 0 then
              if n & 2 == 0 then if n & 1 == 0 then 13 else 28 else if n & 1 == 0 then 32 else 32
            else
              if n & 2 == 0 then if n & 1 == 0 then 22 else 31 else if n & 1 == 0 then 32 else 2
        else
          if n & 8 == 0 then
            if n & 4 == 0 then
              if n & 2 == 0 then if n & 1 == 0 then 2 else 23 else if n & 1 == 0 then 3 else 28
            else
              if n & 2 == 0 then if n & 1 == 0 then 22 else 4 else if n & 1 == 0 then 6 else 3
          else
            if n & 4 == 0 then
              if n & 2 == 0 then if n & 1 == 0 then 30 else 0 else if n & 1 == 0 then 0 else 0
            else
              0
      else
        0
  }

  /** 25 n modulo 33. */
  function Slope(n: Num): Num {
    if n & 64 == 0 then
      if n & 32 == 0 then
        if n & 16 == 0 then
          if n & 8 == 0 then
            if n & 4 == 0 then
              if n & 2 == 0 then if n & 1 == 0 then 0 else 25 else if n & 1 == 0 then 17 else 9
            else
              if n & 2 == 0 then if n & 1 == 0 then 1 else 26 else if n & 1 == 0 then 18 else 10
          else
            if n & 4 == 0 then
              if n & 2 == 0 then if n & 1 == 0 then 2 else 27 else if n & 1 == 0 then 19 else 11
            else
              if n & 2 == 0 then if n & 1 == 0 then 3 else 28 else if n & 1 == 0 then 20 else 12
        else
          if n & 8 == 0 then
            if n & 4 == 0 then
              if n & 2 == 0 then if n & 1 == 0 then 4 else 29 else if n & 1 == 0 then 21 else 13
            else
              if n & 2 == 0 then if n & 1 == 0 then 5 else 30 else if n & 1 == 0 then 22 else 14
          else
            if n & 4 == 0 then
              if n & 2 == 0 then if n & 1 == 0 then 6 else 31 else if n & 1 == 0 then 23 else 15
            else
              if n & 2 == 0 then if n & 1 == 0 then 7 else 32 else if n & 1 == 0 then 24 else 16
      else
        if n & 16 == 0 then
          if n & 8 == 0 then
            if n & 4 == 0 then
              if n & 2 == 0 then if n & 1 == 0 then 8 else 0 else if n & 1 == 0 then 25 else 17
            else
              if n & 2 == 0 then if n & 1 == 0 then 9 else 1 else if n & 1 == 0 then 26 else 18
          else
            if n & 4 == 0 then
              if n & 2 == 0 then if n & 1 == 0 then 10 else 2 else if n & 1 == 0 then 27 else 19
            else
              if n & 2 == 0 then if n & 1 == 0 then 11 else 3 else if n & 1 == 0 then 28 else 20
        else
          if n & 8 == 0 then
            if n & 4 == 0 then
              if n & 2 == 0 then if n & 1 == 0 then 12 else 4 else if n & 1 == 0 then 29 else 21
            else
              if n & 2 == 0 then if n & 1 == 0 then 13 else 5 else if n & 1 == 0 then 30 else 22
          else
            if n & 4 == 0 then
              if n & 2 == 0 then if n & 1 == 0 then 14 else 6 else if n & 1 == 0 then 31 else 23
            else
              if n & 2 == 0 then if n & 1 == 0 then 15 else 7 else if n & 1 == 0 then 32 else 24
    else
      if n & 32 == 0 then
        if n & 16 == 0 then
          if n & 8 == 0 then
            if n & 4 == 0 then
              if n & 2 == 0 then if n & 1 == 0 then 16 else 8 else if n & 1 == 0 then 0 else 25
            else
              if n & 2 == 0 then if n & 1 == 0 then 17 else 9 else if n & 1 == 0 then 1 else 26
          else
            if n & 4 == 0 then
              if n & 2 == 0 then if n & 1 == 0 then 18 else 10 else if n & 1 == 0 then 2 else 27
            else
              if n & 2 == 0 then if n & 1 == 0 then 19 else 11 else if n & 1 == 0 then 3 else 28
        else
          if n & 8 == 0 then
            if n & 4 == 0 then
              if n & 2 == 0 then if n & 1 == 0 then 20 else 12 else if n & 1 == 0 then 4 else 29
            else
              if n & 2 == 0 then if n & 1 == 0 then 21 else 13 else if n & 1 == 0 then 5 else 30
          else
            if n & 4 == 0 then
              if n & 2 == 0 then if n & 1 == 0 then 22 else 0 else if n & 1 == 0 then 0 else 0
            else
              0
      else
        0
  }

  /** Offset(a) + Offset(b) is 25 n + Offset(c) + Offset(d) modulo 33. */
  predicate Balanced(a: Num, b: Num, n: Num, c: Num, d: Num) {
    Same(Plus(Offset(a), Offset(b)), Plus(Plus(Slope(n), Offset(c)), Offset(d)))
  }

  predicate Clash(i: Num, j: Num, k: Num) {
    Balanced(j, k, i, Minus(j, i), Minus(k, i)) &&
    Balanced(i, k, j, Minus(j, i), Minus(k, j)) &&
    Balanced(i, j, k, Minus(k, i), Minus(k, j))
  }

  // ----- All of them, in boxes -----

  lemma Box000(i: Num, j: Num, k: Num) requires i == 1 && j <= 12 && i < j < k <= 88 ensures !Clash(i, j, k) {}
  lemma Box001(i: Num, j: Num, k: Num) requires i == 1 && 12 < j <= 25 && i < j < k <= 88 ensures !Clash(i, j, k) {}
  lemma Box002(i: Num, j: Num, k: Num) requires i == 1 && 25 < j <= 42 && i < j < k <= 88 ensures !Clash(i, j, k) {}
  lemma Box003(i: Num, j: Num, k: Num) requires i == 1 && 42 < j && i < j < k <= 88 ensures !Clash(i, j, k) {}
  lemma Box004(i: Num, j: Num, k: Num) requires i == 2 && j <= 13 && i < j < k <= 88 ensures !Clash(i, j, k) {}
  lemma Box005(i: Num, j: Num, k: Num) requires i == 2 && 13 < j <= 26 && i < j < k <= 88 ensures !Clash(i, j, k) {}
  lemma Box006(i: Num, j: Num, k: Num) requires i == 2 && 26 < j <= 43 && i < j < k <= 88 ensures !Clash(i, j, k) {}
  lemma Box007(i: Num, j: Num, k: Num) requires i == 2 && 43 < j && i < j < k <= 88 ensures !Clash(i, j, k) {}
  lemma Box008(i: Num, j: Num, k: Num) requires i == 3 && j <= 14 && i < j < k <= 88 ensures !Clash(i, j, k) {}
  lemma Box009(i: Num, j: Num, k: Num) requires i == 3 && 14 < j <= 27 && i < j < k <= 88 ensures !Clash(i, j, k) {}
  lemma Box010(i: Num, j: Num, k: Num) requires i == 3 && 27 < j <= 44 && i < j < k <= 88 ensures !Clash(i, j, k) {}
  lemma Box011(i: Num, j: Num, k: Num) requires i == 3 && 44 < j && i < j < k <= 88 ensures !Clash(i, j, k) {}
  lemma Box012(i: Num, j: Num, k: Num) requires i == 4 && j <= 15 && i < j < k <= 88 ensures !Clash(i, j, k) {}
  lemma Box013(i: Num, j: Num, k: Num) requires i == 4 && 15 < j <= 28 && i < j < k <= 88 ensures !Clash(i, j, k) {}
  lemma Box014(i: Num, j: Num, k: Num) requires i == 4 && 28 < j <= 45 && i < j < k <= 88 ensures !Clash(i, j, k) {}
  lemma Box015(i: Num, j: Num, k: Num) requires i == 4 && 45 < j && i < j < k <= 88 ensures !Clash(i, j, k) {}
  lemma Box016(i: Num, j: Num, k: Num) requires i == 5 && j <= 16 && i < j < k <= 88 ensures !Clash(i, j, k) {}
  lemma Box017(i: Num, j: Num, k: Num) requires i == 5 && 16 < j <= 29 && i < j < k <= 88 ensures !Clash(i, j, k) {}
  lemma Box018(i: Num, j: Num, k: Num) requires i == 5 && 29 < j <= 46 && i < j < k <= 88 ensures !Clash(i, j, k) {}
  lemma Box019(i: Num, j: Num, k: Num) requires i == 5 && 46 < j && i < j < k <= 88 ensures !Clash(i, j, k) {}
  lemma Box020(i: Num, j: Num, k: Num) requires i == 6 && j <= 17 && i < j < k <= 88 ensures !Clash(i, j, k) {}
  lemma Box021(i: Num, j: Num, k: Num) requires i == 6 && 17 < j <= 30 && i < j < k <= 88 ensures !Clash(i, j, k) {}
  lemma Box022(i: Num, j: Num, k: Num) requires i == 6 && 30 < j <= 47 && i < j < k <= 88 ensures !Clash(i, j, k) {}
  lemma Box023(i: Num, j: Num, k: Num) requires i == 6 && 47 < j && i < j < k <= 88 ensures !Clash(i, j, k) {}
  lemma Box024(i: Num, j: Num, k: Num) requires i == 7 && j <= 18 && i < j < k <= 88 ensures !Clash(i, j, k) {}
  lemma Box025(i: Num, j: Num, k: Num) requires i == 7 && 18 < j <= 31 && i < j < k <= 88 ensures !Clash(i, j, k) {}
  lemma Box026(i: Num, j: Num, k: Num) requires i == 7 && 31 < j <= 48 && i < j < k <= 88 ensures !Clash(i, j, k) {}
  lemma Box027(i: Num, j: Num, k: Num) requires i == 7 && 48 < j && i < j < k <= 88 ensures !Clash(i, j, k) {}
  lemma Box028(i: Num, j: Num, k: Num) requires i == 8 && j <= 18 && i < j < k <= 88 ensures !Clash(i, j, k) {}
  lemma Box029(i: Num, j: Num, k: Num) requires i == 8 && 18 < j <= 30 && i < j < k <= 88 ensures !Clash(i, j, k) {}
  lemma Box030(i: Num, j: Num, k: Num) requires i == 8 && 30 < j <= 46 && i < j < k <= 88 ensures !Clash(i, j, k) {}
  lemma Box031(i: Num, j: Num, k: Num) requires i == 8 && 46 < j && i < j < k <= 88 ensures !Clash(i, j, k) {}
  lemma Box032(i: Num, j: Num, k: Num) requires i == 9 && j <= 19 && i < j < k <= 88 ensures !Clash(i, j, k) {}
  lemma Box033(i: Num, j: Num, k: Num) requires i == 9 && 19 < j <= 31 && i < j < k <= 88 ensures !Clash(i, j, k) {}
  lemma Box034(i: Num, j: Num, k: Num) requires i == 9 && 31 < j <= 47 && i < j < k <= 88 ensures !Clash(i, j, k) {}
  lemma Box035(i: Num, j: Num, k: Num) requires i == 9 && 47 < j && i < j < k <= 88 ensures !Clash(i, j, k) {}
  lemma Box036(i: Num, j: Num, k: Num) requires i == 10 && j <= 20 && i < j < k <= 88 ensures !Clash(i, j, k) {}
  lemma Box037(i: Num, j: Num, k: Num) requires i == 10 && 20 < j <= 32 && i < j < k <= 88 ensures !Clash(i, j, k) {}
  lemma Box038(i: Num, j: Num, k: Num) requires i == 10 && 32 < j <= 48 && i < j < k <= 88 ensures !Clash(i, j, k) {}
  lemma Box039(i: Num, j: Num, k: Num) requires i == 10 && 48 < j && i < j < k <= 88 ensures !Clash(i, j, k) {}
  lemma Box040(i: Num, j: Num, k: Num) requires i == 11 && j <= 25 && i < j < k <= 88 ensures !Clash(i, j, k) {}
  lemma Box041(i: Num, j: Num, k: Num) requires i == 11 && 25 < j <= 43 && i < j < k <= 88 ensures !Clash(i, j, k) {}
  lemma Box042(i: Num, j: Num, k: Num) requires i == 11 && 43 < j && i < j < k <= 88 ensures !Clash(i, j, k) {}
  lemma Box043(i: Num, j: Num, k: Num) requires i == 12 && j <= 26 && i < j < k <= 88 ensures !Clash(i, j, k) {}
  lemma Box044(i: Num, j: Num, k: Num) requires i == 12 && 26 < j <= 44 && i < j < k <= 88 ensures !Clash(i, j, k) {}
  lemma Box045(i: Num, j: Num, k: Num) requires i == 12 && 44 < j && i < j < k <= 88 ensures !Clash(i, j, k) {}
  lemma Box046(i: Num, j: Num, k: Num) requires i == 13 && j <= 26 && i < j < k <= 88 ensures !Clash(i, j, k) {}
  lemma Box047(i: Num, j: Num, k: Num) requires i == 13 && 26 < j <= 43 && i < j < k <= 88 ensures !Clash(i, j, k) {}
  lemma Box048(i: Num, j: Num, k: Num) requires i == 13 && 43 < j && i < j < k <= 88 ensures !Clash(i, j, k) {}
  lemma Box049(i: Num, j: Num, k: Num) requires i == 14 && j <= 27 && i < j < k <= 88 ensures !Clash(i, j, k) {}
  lemma Box050(i: Num, j: Num, k: Num) requires i == 14 && 27 < j <= 44 && i < j < k <= 88 ensures !Clash(i, j, k) {}
  lemma Box051(i: Num, j: Num, k: Num) requires i == 14 && 44 < j && i < j < k <= 88 ensures !Clash(i, j, k) {}
  lemma Box052(i: Num, j: Num, k: Num) requires i == 15 && j <= 28 && i < j < k <= 88 ensures !Clash(i, j, k) {}
  lemma Box053(i: Num, j: Num, k: Num) requires i == 15 && 28 < j <= 45 && i < j < k <= 88 ensures !Clash(i, j, k) {}
  lemma Box054(i: Num, j: Num, k: Num) requires i == 15 && 45 < j && i < j < k <= 88 ensures !Clash(i, j, k) {}
  lemma Box055(i: Num, j: Num, k: Num) requires i == 16 && j <= 29 && i < j < k <= 88 ensures !Clash(i, j, k) {}
  lemma Box056(i: Num, j: Num, k: Num) requires i == 16 && 29 < j <= 46 && i < j < k <= 88 ensures !Clash(i, j, k) {}
  lemma Box057(i: Num, j: Num, k: Num) requires i == 16 && 46 < j && i < j < k <= 88 ensures !Clash(i, j, k) {}
  lemma Box058(i: Num, j: Num, k: Num) requires i == 17 && j <= 30 && i < j < k <= 88 ensures !Clash(i, j, k) {}
  lemma Box059(i: Num, j: Num, k: Num) requires i == 17 && 30 < j <= 47 && i < j < k <= 88 ensures !Clash(i, j, k) {}
  lemma Box060(i: Num, j: Num, k: Num) requires i == 17 && 47 < j && i < j < k <= 88 ensures !Clash(i, j, k) {}
  lemma Box061(i: Num, j: Num, k: Num) requires i == 18 && j <= 31 && i < j < k <= 88 ensures !Clash(i, j, k) {}
  lemma Box062(i: Num, j: Num, k: Num) requires i == 18 && 31 < j <= 48 && i < j < k <= 88 ensures !Clash(i, j, k) {}
  lemma Box063(i: Num, j: Num, k: Num) requires i == 18 && 48 < j && i < j < k <= 88 ensures !Clash(i, j, k) {}
  lemma Box064(i: Num, j: Num, k: Num) requires i == 19 && j <= 31 && i < j < k <= 88 ensures !Clash(i, j, k) {}
  lemma Box065(i: Num, j: Num, k: Num) requires i == 19 && 31 < j <= 47 && i < j < k <= 88 ensures !Clash(i, j, k) {}
  lemma Box066(i: Num, j: Num, k: Num) requires i == 19 && 47 < j && i < j < k <= 88 ensures !Clash(i, j, k) {}
  lemma Box067(i: Num, j: Num, k: Num) requires i == 20 && j <= 32 && i < j < k <= 88 ensures !Clash(i, j, k) {}
  lemma Box068(i: Num, j: Num, k: Num) requires i == 20 && 32 < j <= 48 && i < j < k <= 88 ensures !Clash(i, j, k) {}
  lemma Box069(i: Num, j: Num, k: Num) requires i == 20 && 48 < j && i < j < k <= 88 ensures !Clash(i, j, k) {}
  lemma Box070(i: Num, j: Num, k: Num) requires i == 21 && j <= 33 && i < j < k <= 88 ensures !Clash(i, j, k) {}
  lemma Box071(i: Num, j: Num, k: Num) requires i == 21 && 33 < j <= 49 && i < j < k <= 88 ensures !Clash(i, j, k) {}
  lemma Box072(i: Num, j: Num, k: Num) requires i == 21 && 49 < j && i < j < k <= 88 ensures !Clash(i, j, k) {}
  lemma Box073(i: Num, j: Num, k: Num) requires i == 22 && j <= 34 && i < j < k <= 88 ensures !Clash(i, j, k) {}
  lemma Box074(i: Num, j: Num, k: Num) requires i == 22 && 34 < j <= 50 && i < j < k <= 88 ensures !Clash(i, j, k) {}
  lemma Box075(i: Num, j: Num, k: Num) requires i == 22 && 50 < j && i < j < k <= 88 ensures !Clash(i, j, k) {}
  lemma Box076(i: Num, j: Num, k: Num) requires i == 23 && j <= 35 && i < j < k <= 88 ensures !Clash(i, j, k) {}
  lemma Box077(i: Num, j: Num, k: Num) requires i == 23 && 35 < j <= 50 && i < j < k <= 88 ensures !Clash(i, j, k) {}
  lemma Box078(i: Num, j: Num, k: Num) requires i == 23 && 50 < j && i < j < k <= 88 ensures !Clash(i, j, k) {}
  lemma Box079(i: Num, j: Num, k: Num) requires i == 24 && j <= 35 && i < j < k <= 88 ensures !Clash(i, j, k) {}
  lemma Box080(i: Num, j: Num, k: Num) requires i == 24 && 35 < j <= 50 && i < j < k <= 88 ensures !Clash(i, j, k) {}
  lemma Box081(i: Num, j: Num, k: Num) requires i == 24 && 50 < j && i < j < k <= 88 ensures !Clash(i, j, k) {}
  lemma Box082(i: Num, j: Num, k: Num) requires i == 25 && j <= 43 && i < j < k <= 88 ensures !Clash(i, j, k) {}
  lemma Box083(i: Num, j: Num, k: Num) requires i == 25 && 43 < j && i < j < k <= 88 ensures !Clash(i, j, k) {}
  lemma Box084(i: Num, j: Num, k: Num) requires i == 26 && j <= 44 && i < j < k <= 88 ensures !Clash(i, j, k) {}
  lemma Box085(i: Num, j: Num, k: Num) requires i == 26 && 44 < j && i < j < k <= 88 ensures !Clash(i, j, k) {}
  lemma Box086(i: Num, j: Num, k: Num) requires i == 27 && j <= 45 && i < j < k <= 88 ensures !Clash(i, j, k) {}
  lemma Box087(i: Num, j: Num, k: Num) requires i == 27 && 45 < j && i < j < k <= 88 ensures !Clash(i, j, k) {}
  lemma Box088(i: Num, j: Num, k: Num) requires i == 28 && j <= 45 && i < j < k <= 88 ensures !Clash(i, j, k) {}
  lemma Box089(i: Num, j: Num, k: Num) requires i == 28 && 45 < j && i < j < k <= 88 ensures !Clash(i, j, k) {}
  lemma Box090(i: Num, j: Num, k: Num) requires i == 29 && j <= 46 && i < j < k <= 88 ensures !Clash(i, j, k) {}
  lemma Box091(i: Num, j: Num, k: Num) requires i == 29 && 46 < j && i < j < k <= 88 ensures !Clash(i, j, k) {}
  lemma Box092(i: Num, j: Num, k: Num) requires i == 30 && j <= 47 && i < j < k <= 88 ensures !Clash(i, j, k) {}
  lemma Box093(i: Num, j: Num, k: Num) requires i == 30 && 47 < j && i < j < k <= 88 ensures !Clash(i, j, k) {}
  lemma Box094(i: Num, j: Num, k: Num) requires i == 31 && j <= 47 && i < j < k <= 88 ensures !Clash(i, j, k) {}
  lemma Box095(i: Num, j: Num, k: Num) requires i == 31 && 47 < j && i < j < k <= 88 ensures !Clash(i, j, k) {}
  lemma Box096(i: Num, j: Num, k: Num) requires i == 32 && j <= 48 && i < j < k <= 88 ensures !Clash(i, j, k) {}
  lemma Box097(i: Num, j: Num, k: Num) requires i == 32 && 48 < j && i < j < k <= 88 ensures !Clash(i, j, k) {}
  lemma Box098(i: Num, j: Num, k: Num) requires i == 33 && j <= 49 && i < j < k <= 88 ensures !Clash(i, j, k) {}
  lemma Box099(i: Num, j: Num, k: Num) requires i == 33 && 49 < j && i < j < k <= 88 ensures !Clash(i, j, k) {}
  lemma Box100(i: Num, j: Num, k: Num) requires i == 34 && j <= 50 && i < j < k <= 88 ensures !Clash(i, j, k) {}
  lemma Box101(i: Num, j: Num, k: Num) requires i == 34 && 50 < j && i < j < k <= 88 ensures !Clash(i, j, k) {}
  lemma Box102(i: Num, j: Num, k: Num) requires i == 35 && j <= 50 && i < j < k <= 88 ensures !Clash(i, j, k) {}
  lemma Box103(i: Num, j: Num, k: Num) requires i == 35 && 50 < j && i < j < k <= 88 ensures !Clash(i, j, k) {}
  lemma Box104(i: Num, j: Num, k: Num) requires i == 36 && j <= 51 && i < j < k <= 88 ensures !Clash(i, j, k) {}
  lemma Box105(i: Num, j: Num, k: Num) requires i == 36 && 51 < j && i < j < k <= 88 ensures !Clash(i, j, k) {}
  lemma Box106(i: Num, j: Num, k: Num) requires i == 37 && j <= 52 && i < j < k <= 88 ensures !Clash(i, j, k) {}
  lemma Box107(i: Num, j: Num, k: Num) requires i == 37 && 52 < j && i < j < k <= 88 ensures !Clash(i, j, k) {}
  lemma Box108(i: Num, j: Num, k: Num) requires i == 38 && j <= 52 && i < j < k <= 88 ensures !Clash(i, j, k) {}
  lemma Box109(i: Num, j: Num, k: Num) requires i == 38 && 52 < j && i < j < k <= 88 ensures !Clash(i, j, k) {}
  lemma Box110(i: Num, j: Num, k: Num) requires i == 39 && j <= 53 && i < j < k <= 88 ensures !Clash(i, j, k) {}
  lemma Box111(i: Num, j: Num, k: Num) requires i == 39 && 53 < j && i < j < k <= 88 ensures !Clash(i, j, k) {}
  lemma Box112(i: Num, j: Num, k: Num) requires i == 40 && j <= 54 && i < j < k <= 88 ensures !Clash(i, j, k) {}
  lemma Box113(i: Num, j: Num, k: Num) requires i == 40 && 54 < j && i < j < k <= 88 ensures !Clash(i, j, k) {}
  lemma Box114(i: Num, j: Num, k: Num) requires i == 41 && j <= 54 && i < j < k <= 88 ensures !Clash(i, j, k) {}
  lemma Box115(i: Num, j: Num, k: Num) requires i == 41 && 54 < j && i < j < k <= 88 ensures !Clash(i, j, k) {}
  lemma Box116(i: Num, j: Num, k: Num) requires i == 42 && j <= 55 && i < j < k <= 88 ensures !Clash(i, j, k) {}
  lemma Box117(i: Num, j: Num, k: Num) requires i == 42 && 55 < j && i < j < k <= 88 ensures !Clash(i, j, k) {}
  lemma Box118(i: Num, j: Num, k: Num) requires i == 43 && i < j < k <= 88 ensures !Clash(i, j, k) {}
  lemma Box119(i: Num, j: Num, k: Num) requires i == 44 && i < j < k <= 88 ensures !Clash(i, j, k) {}
  lemma Box120(i: Num, j: Num, k: Num) requires i == 45 && i < j < k <= 88 ensures !Clash(i, j, k) {}
  lemma Box121(i: Num, j: Num, k: Num) requires i == 46 && i < j < k <= 88 ensures !Clash(i, j, k) {}
  lemma Box122(i: Num, j: Num, k: Num) requires i == 47 && i < j < k <= 88 ensures !Clash(i, j, k) {}
  lemma Box123(i: Num, j: Num, k: Num) requires i == 48 && i < j < k <= 88 ensures !Clash(i, j, k) {}
  lemma Box124(i: Num, j: Num, k: Num) requires i == 49 && i < j < k <= 88 ensures !Clash(i, j, k) {}
  lemma Box125(i: Num, j: Num, k: Num) requires i == 50 && i < j < k <= 88 ensures !Clash(i, j, k) {}
  lemma Box126(i: Num, j: Num, k: Num) requires i == 51 && i < j < k <= 88 ensures !Clash(i, j, k) {}
  lemma Box127(i: Num, j: Num, k: Num) requires i == 52 && i < j < k <= 88 ensures !Clash(i, j, k) {}
  lemma Box128(i: Num, j: Num, k: Num) requires i == 53 && i < j < k <= 88 ensures !Clash(i, j, k) {}
  lemma Box129(i: Num, j: Num, k: Num) requires i == 54 && i < j < k <= 88 ensures !Clash(i, j, k) {}
  lemma Box130(i: Num, j: Num, k: Num) requires i == 55 && i < j < k <= 88 ensures !Clash(i, j, k) {}
  lemma Box131(i: Num, j: Num, k: Num) requires 56 <= i <= 57 && i < j < k <= 88 ensures !Clash(i, j, k) {}
  lemma Box132(i: Num, j: Num, k: Num) requires 58 <= i <= 59 && i < j < k <= 88 ensures !Clash(i, j, k) {}
  lemma Box133(i: Num, j: Num, k: Num) requires 60 <= i <= 61 && i < j < k <= 88 ensures !Clash(i, j, k) {}
  lemma Box134(i: Num, j: Num, k: Num) requires 62 <= i <= 64 && i < j < k <= 88 ensures !Clash(i, j, k) {}
  lemma Box135(i: Num, j: Num, k: Num) requires 65 <= i <= 68 && i < j < k <= 88 ensures !Clash(i, j, k) {}
  lemma Box136(i: Num, j: Num, k: Num) requires 69 <= i <= 77 && i < j < k <= 88 ensures !Clash(i, j, k) {}
  lemma Box137(i: Num, j: Num, k: Num) requires 78 <= i <= 86 && i < j < k <= 88 ensures !Clash(i, j, k) {}

  // ----- Finding the box -----

  lemma Rows1(i: Num, j: Num, k: Num)
    requires 1 <= i <= 4 && i < j < k <= 88
    ensures !Clash(i, j, k)
  {
    hide Clash;
    if i == 1 && j <= 12 { Box000(i, j, k); }
    else if i == 1 && j <= 25 { Box001(i, j, k); }
    else if i == 1 && j <= 42 { Box002(i, j, k); }
    else if i == 1 { Box003(i, j, k); }
    else if i == 2 && j <= 13 { Box004(i, j, k); }
    else if i == 2 && j <= 26 { Box005(i, j, k); }
    else if i == 2 && j <= 43 { Box006(i, j, k); }
    else if i == 2 { Box007(i, j, k); }
    else if i == 3 && j <= 14 { Box008(i, j, k); }
    else if i == 3 && j <= 27 { Box009(i, j, k); }
    else if i == 3 && j <= 44 { Box010(i, j, k); }
    else if i == 3 { Box011(i, j, k); }
    else if i == 4 && j <= 15 { Box012(i, j, k); }
    else if i == 4 && j <= 28 { Box013(i, j, k); }
    else if i == 4 && j <= 45 { Box014(i, j, k); }
    else { Box015(i, j, k); }
  }

  lemma Rows5(i: Num, j: Num, k: Num)
    requires 5 <= i <= 8 && i < j < k <= 88
    ensures !Clash(i, j, k)
  {
    hide Clash;
    if i == 5 && j <= 16 { Box016(i, j, k); }
    else if i == 5 && j <= 29 { Box017(i, j, k); }
    else if i == 5 && j <= 46 { Box018(i, j, k); }
    else if i == 5 { Box019(i, j, k); }
    else if i == 6 && j <= 17 { Box020(i, j, k); }
    else if i == 6 && j <= 30 { Box021(i, j, k); }
    else if i == 6 && j <= 47 { Box022(i, j, k); }
    else if i == 6 { Box023(i, j, k); }
    else if i == 7 && j <= 18 { Box024(i, j, k); }
    else if i == 7 && j <= 31 { Box025(i, j, k); }
    else if i == 7 && j <= 48 { Box026(i, j, k); }
    else if i == 7 { Box027(i, j, k); }
    else if i == 8 && j <= 18 { Box028(i, j, k); }
    else if i == 8 && j <= 30 { Box029(i, j, k); }
    else if i == 8 && j <= 46 { Box030(i, j, k); }
    else { Box031(i, j, k); }
  }

  lemma Rows9(i: Num, j: Num, k: Num)
    requires 9 <= i <= 12 && i < j < k <= 88
    ensures !Clash(i, j, k)
  {
    hide Clash;
    if i == 9 && j <= 19 { Box032(i, j, k); }
    else if i == 9 && j <= 31 { Box033(i, j, k); }
    else if i == 9 && j <= 47 { Box034(i, j, k); }
    else if i == 9 { Box035(i, j, k); }
    else if i == 10 && j <= 20 { Box036(i, j, k); }
    else if i == 10 && j <= 32 { Box037(i, j, k); }
    else if i == 10 && j <= 48 { Box038(i, j, k); }
    else if i == 10 { Box039(i, j, k); }
    else if i == 11 && j <= 25 { Box040(i, j, k); }
    else if i == 11 && j <= 43 { Box041(i, j, k); }
    else if i == 11 { Box042(i, j, k); }
    else if i == 12 && j <= 26 { Box043(i, j, k); }
    else if i == 12 && j <= 44 { Box044(i, j, k); }
    else { Box045(i, j, k); }
  }

  lemma Rows13(i: Num, j: Num, k: Num)
    requires 13 <= i <= 17 && i < j < k <= 88
    ensures !Clash(i, j, k)
  {
    hide Clash;
    if i == 13 && j <= 26 { Box046(i, j, k); }
    else if i == 13 && j <= 43 { Box047(i, j, k); }
    else if i == 13 { Box048(i, j, k); }
    else if i == 14 && j <= 27 { Box049(i, j, k); }
    else if i == 14 && j <= 44 { Box050(i, j, k); }
    else if i == 14 { Box051(i, j, k); }
    else if i == 15 && j <= 28 { Box052(i, j, k); }
    else if i == 15 && j <= 45 { Box053(i, j, k); }
    else if i == 15 { Box054(i, j, k); }
    else if i == 16 && j <= 29 { Box055(i, j, k); }
    else if i == 16 && j <= 46 { Box056(i, j, k); }
    else if i == 16 { Box057(i, j, k); }
    else if i == 17 && j <= 30 { Box058(i, j, k); }
    else if i == 17 && j <= 47 { Box059(i, j, k); }
    else { Box060(i, j, k); }
  }

  lemma Rows18(i: Num, j: Num, k: Num)
    requires 18 <= i <= 22 && i < j < k <= 88
    ensures !Clash(i, j, k)
  {
    hide Clash;
    if i == 18 && j <= 31 { Box061(i, j, k); }
    else if i == 18 && j <= 48 { Box062(i, j, k); }
    else if i == 18 { Box063(i, j, k); }
    else if i == 19 && j <= 31 { Box064(i, j, k); }
    else if i == 19 && j <= 47 { Box065(i, j, k); }
    else if i == 19 { Box066(i, j, k); }
    else if i == 20 && j <= 32 { Box067(i, j, k); }
    else if i == 20 && j <= 48 { Box068(i, j, k); }
    else if i == 20 { Box069(i, j, k); }
    else if i == 21 && j <= 33 { Box070(i, j, k); }
    else if i == 21 && j <= 49 { Box071(i, j, k); }
    else if i == 21 { Box072(i, j, k); }
    else if i == 22 && j <= 34 { Box073(i, j, k); }
    else if i == 22 && j <= 50 { Box074(i, j, k); }
    else { Box075(i, j, k); }
  }

  lemma Rows23(i: Num, j: Num, k: Num)
    requires 23 <= i <= 28 && i < j < k <= 88
    ensures !Clash(i, j, k)
  {
    hide Clash;
    if i == 23 && j <= 35 { Box076(i, j, k); }
    else if i == 23 && j <= 50 { Box077(i, j, k); }
    else if i == 23 { Box078(i, j, k); }
    else if i == 24 && j <= 35 { Box079(i, j, k); }
    else if i == 24 && j <= 50 { Box080(i, j, k); }
    else if i == 24 { Box081(i, j, k); }
    else if i == 25 && j <= 43 { Box082(i, j, k); }
    else if i == 25 { Box083(i, j, k); }
    else if i == 26 && j <= 44 { Box084(i, j, k); }
    else if i == 26 { Box085(i, j, k); }
    else if i == 27 && j <= 45 { Box086(i, j, k); }
    else if i == 27 { Box087(i, j, k); }
    else if i == 28 && j <= 45 { Box088(i, j, k); }
    else { Box089(i, j, k); }
  }

  lemma Rows29(i: Num, j: Num, k: Num)
    requires 29 <= i <= 35 && i < j < k <= 88
    ensures !Clash(i, j, k)
  {
    hide Clash;
    if i == 29 && j <= 46 { Box090(i, j, k); }
    else if i == 29 { Box091(i, j, k); }
    else if i == 30 && j <= 47 { Box092(i, j, k); }
    else if i == 30 { Box093(i, j, k); }
    else if i == 31 && j <= 47 { Box094(i, j, k); }
    else if i == 31 { Box095(i, j, k); }
    else if i == 32 && j <= 48 { Box096(i, j, k); }
    else if i == 32 { Box097(i, j, k); }
    else if i == 33 && j <= 49 { Box098(i, j, k); }
    else if i == 33 { Box099(i, j, k); }
    else if i == 34 && j <= 50 { Box100(i, j, k); }
    else if i == 34 { Box101(i, j, k); }
    else if i == 35 && j <= 50 { Box102(i, j, k); }
    else { Box103(i, j, k); }
  }

  lemma Rows36(i: Num, j: Num, k: Num)
    requires 36 <= i <= 42 && i < j < k <= 88
    ensures !Clash(i, j, k)
  {
    hide Clash;
    if i == 36 && j <= 51 { Box104(i, j, k); }
    else if i == 36 { Box105(i, j, k); }
    else if i == 37 && j <= 52 { Box106(i, j, k); }
    else if i == 37 { Box107(i, j, k); }
    else if i == 38 && j <= 52 { Box108(i, j, k); }
    else if i == 38 { Box109(i, j, k); }
    else if i == 39 && j <= 53 { Box110(i, j, k); }
    else if i == 39 { Box111(i, j, k); }
    else if i == 40 && j <= 54 { Box112(i, j, k); }
    else if i == 40 { Box113(i, j, k); }
    else if i == 41 && j <= 54 { Box114(i, j, k); }
    else if i == 41 { Box115(i, j, k); }
    else if i == 42 && j <= 55 { Box116(i, j, k); }
    else { Box117(i, j, k); }
  }

  lemma Rows43(i: Num, j: Num, k: Num)
    requires 43 <= i <= 57 && i < j < k <= 88
    ensures !Clash(i, j, k)
  {
    hide Clash;
    if i == 43 { Box118(i, j, k); }
    else if i == 44 { Box119(i, j, k); }
    else if i == 45 { Box120(i, j, k); }
    else if i == 46 { Box121(i, j, k); }
    else if i == 47 { Box122(i, j, k); }
    else if i == 48 { Box123(i, j, k); }
    else if i == 49 { Box124(i, j, k); }
    else if i == 50 { Box125(i, j, k); }
    else if i == 51 { Box126(i, j, k); }
    else if i == 52 { Box127(i, j, k); }
    else if i == 53 { Box128(i, j, k); }
    else if i == 54 { Box129(i, j, k); }
    else if i == 55 { Box130(i, j, k); }
    else { Box131(i, j, k); }
  }

  lemma Rows58(i: Num, j: Num, k: Num)
    requires 58 <= i <= 86 && i < j < k <= 88
    ensures !Clash(i, j, k)
  {
    hide Clash;
    if i <= 59 { Box132(i, j, k); }
    else if i <= 61 { Box133(i, j, k); }
    else if i <= 64 { Box134(i, j, k); }
    else if i <= 68 { Box135(i, j, k); }
    else if i <= 77 { Box136(i, j, k); }
    else { Box137(i, j, k); }
  }

  /** No three distances up to 88 satisfy all three congruences. */
  lemma NoClash(i: Num, j: Num, k: Num)
    requires 1 <= i < j < k <= 88
    ensures !Clash(i, j, k)
  {
    hide Clash;
    if i <= 4 { Rows1(i, j, k); }
    else if i <= 8 { Rows5(i, j, k); }
    else if i <= 12 { Rows9(i, j, k); }
    else if i <= 17 { Rows13(i, j, k); }
    else if i <= 22 { Rows18(i, j, k); }
    else if i <= 28 { Rows23(i, j, k); }
    else if i <= 35 { Rows29(i, j, k); }
    else if i <= 42 { Rows36(i, j, k); }
    else if i <= 57 { Rows43(i, j, k); }
    else { Rows58(i, j, k); }
  }
}
