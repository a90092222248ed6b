/** Seven-bit numbers, and the integers they stand for. */
module SmallNumbers {

  type Num = bv7

  // Arithmetic is kept behind functions: the proofs about integers never see the bits.
  function Plus(x: Num, y: Num): Num { x + y }
  function Minus(x: Num, y: Num): Num { x - y }

  /** The sum does not wrap around. */
  predicate Fine(x: Num, y: Num) { x <= x + y }

  function Down(x: Num): nat { if x == 0 then 0 else Down(x - 1) + 1 }

  function Up(n: nat): Num { if n == 0 then 0 else Plus(Up(n - 1), 1) }

  lemma UpNext(n: nat)
    ensures Up(n + 1) == Plus(Up(n), 1) && Up(0) == 0
  {}

  lemma Unfold(x: Num)
    ensures x != 0 ==> Down(x) == Down(Minus(x, 1)) + 1
    ensures Down(0) == 0
  {}

  lemma PlusZero(x: Num)
    ensures Plus(x, 0) == x && Fine(x, 0)
  {}

  lemma OneLess(x: Num, y: Num)
    requires y != 0 && Fine(x, y)
    ensures Plus(x, Minus(y, 1)) == Minus(Plus(x, y), 1) && Fine(x, Minus(y, 1)) && Plus(x, y) != 0 && Minus(y, 1) < y
  {}

  lemma {:induction false} DownAdds(x: Num, y: Num)
    requires Fine(x, y)
    ensures Down(Plus(x, y)) == Down(x) + Down(y)
    decreases y
  {
    hide *;
    Unfold(y);
    if y == 0 { PlusZero(x); } else {
      OneLess(x, y);
      DownAdds(x, Minus(y, 1));
      Unfold(Plus(x, y));
    }
  }

  lemma Between(x: Num, y: Num)
    ensures x <= y ==> Fine(x, Minus(y, x)) && Plus(x, Minus(y, x)) == y
    ensures Minus(y, x) == 0 <==> x == y
    ensures x < y || y < x || x == y
  {}

  lemma DownSubtracts(x: Num, y: Num)
    requires x <= y
    ensures Down(Minus(y, x)) == Down(y) - Down(x)
  {
    hide Plus, Minus, Fine, Down;
    Between(x, y);
    DownAdds(x, Minus(y, x));
  }

  lemma OneWay(x: Num, y: Num)
    requires x < y
    ensures Down(x) < Down(y)
  {
    hide Plus, Minus, Fine, Down;
    Between(x, y);
    DownAdds(x, Minus(y, x));
    Unfold(Minus(y, x));
  }

  lemma NumLess(x: Num, y: Num)
    ensures x < y <==> Down(x) < Down(y)
    ensures x == y <==> Down(x) == Down(y)
  {
    hide Down, Minus, Fine, Plus;
    Between(x, y);
    if x < y { OneWay(x, y); }
    if y < x { OneWay(y, x); }
  }

  lemma {:induction false} UpDown(x: Num)
    ensures Up(Down(x)) == x
    decreases x
  {
    hide Plus, Minus, Fine, Down;
    Unfold(x);
    if x != 0 {
      PlusZero(0);
      OneLess(0, x);
      UpDown(Minus(x, 1));
      OneBack(x);
    }
  }

  lemma OneBack(x: Num)
    ensures Plus(Minus(x, 1), 1) == x && (x != 127 ==> Fine(x, 1)) && (x < 127 || x == 127)
  {}

  lemma Doubles(x: Num)
    requires x < 64
    ensures Down(Plus(x, x)) == 2 * Down(x)
  {
    hide Down;
    DownAdds(x, x);
  }

  lemma Sums()
    ensures Minus(1, 1) == 0 && Plus(1, 1) == 2 && Plus(2, 2) == 4 && Plus(4, 4) == 8 && Plus(8, 8) == 16
    ensures Plus(16, 16) == 32 && Plus(32, 32) == 64 && Plus(16, 1) == 17 && Plus(16, 4) == 20 && Plus(20, 2) == 22
    ensures Plus(17, 8) == 25 && Plus(32, 1) == 33 && Plus(22, 22) == 44 && Plus(33, 33) == 66 && Plus(44, 44) == 88
    ensures Plus(88, 1) == 89 && Plus(64, 32) == 96 && Plus(96, 16) == 112 && Plus(112, 8) == 120
    ensures Plus(120, 4) == 124 && Plus(124, 2) == 126 && Plus(126, 1) == 127
  {}

  lemma NoWrap()
    ensures Fine(16, 1) && Fine(16, 4) && Fine(20, 2) && Fine(17, 8) && Fine(32, 1) && Fine(88, 1) && Fine(64, 32)
    ensures Fine(96, 16) && Fine(112, 8) && Fine(120, 4) && Fine(124, 2) && Fine(126, 1)
  {}

  lemma Literals()
    ensures Down(0) == 0 && Down(1) == 1 && Down(16) == 16 && Down(17) == 17 && Down(22) == 22 && Down(25) == 25
    ensures Down(32) == 32 && Down(33) == 33 && Down(44) == 44 && Down(66) == 66 && Down(88) == 88 && Down(89) == 89
    ensures Down(127) == 127
  {
    hide Plus, Minus, Fine, Down;
    Sums();
    NoWrap();
    Unfold(1);
    Doubles(1);
    Doubles(2);
    Doubles(4);
    Doubles(8);
    Doubles(16);
    Doubles(32);
    DownAdds(16, 1);
    DownAdds(16, 4);
    DownAdds(20, 2);
    DownAdds(17, 8);
    DownAdds(32, 1);
    Doubles(22);
    Doubles(33);
    Doubles(44);
    DownAdds(88, 1);
    DownAdds(64, 32);
    DownAdds(96, 16);
    DownAdds(112, 8);
    DownAdds(120, 4);
    DownAdds(124, 2);
    DownAdds(126, 1);
  }

  lemma {:induction false} DownUp(n: nat)
    requires n < 128
    ensures Down(Up(n)) == n
  {
    hide Plus, Minus, Fine, Down;
    Literals();
    if n > 0 {
      DownUp(n - 1);
      OneBack(Up(n - 1));
      DownAdds(Up(n - 1), 1);
    }
  }

  lemma DownFits(x: Num)
    ensures Down(x) < 128
  {
    hide Down, Up;
    Literals();
    OneBack(x);
    NumLess(x, 127);
  }

  lemma UpLess(n: nat, b: Num)
    requires n < 128
    ensures Up(n) < b <==> n < Down(b)
  {
    hide Up, Down;
    DownUp(n);
    NumLess(Up(n), b);
  }

  lemma NumAdd(x: Num, y: Num)
    requires Down(x) + Down(y) < 128
    ensures Down(Plus(x, y)) == Down(x) + Down(y)
  {
    hide Down, Up, Fine, Plus;
    DownFits(Minus(127, x));
    Literals();
    OneBack(x);
    DownSubtracts(x, 127);
    NumLess(Minus(127, x), y);
    NoOverflow(x, y);
    DownAdds(x, y);
  }

  lemma NoOverflow(x: Num, y: Num)
    ensures !(Minus(127, x) < y) ==> Fine(x, y)
  {}

  lemma UpSubtracts(i: nat, j: nat)
    requires i <= j < 128
    ensures Up(j - i) == Minus(Up(j), Up(i))
  {
    hide Up, Down, Minus;
    DownUp(i);
    DownUp(j);
    UpLess(j, Up(i));
    NotLess(Up(i), Up(j));
    DownSubtracts(Up(i), Up(j));
    UpDown(Minus(Up(j), Up(i)));
  }

  lemma NotLess(x: Num, y: Num)
    ensures !(y < x) <==> x <= y
  {}
}
