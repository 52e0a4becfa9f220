/** A set of generator operators as the bits of a number. */
module PresenceBits {
  import opened CInt

  /** Whether bit `i` is set. */
  predicate BitAt(x: nat, i: nat)
  {
    if i == 0 then x % 2 == 1 else BitAt(x / 2, i - 1)
  }

  function SetBit(x: nat, i: nat): nat
  {
    if i == 0 then x + 1 - x % 2 else 2 * SetBit(x / 2, i - 1) + x % 2
  }

  /** How many bits are set. */
  function Ones(x: nat): nat
  {
    if x == 0 then 0 else x % 2 + Ones(x / 2)
  }

  /** How many of the bits below `n` are set. */
  function OnesBelow(x: nat, n: nat): nat
  {
    if n == 0 then 0 else OnesBelow(x, n - 1) + if BitAt(x, n - 1) then 1 else 0
  }

  /** x & (x - 1): the lowest set bit is cleared. */
  function ClearLowest(x: nat): nat
    requires x > 0
  {
    if x % 2 == 1 then x - 1 else 2 * ClearLowest(x / 2)
  }

  predicate Fits(x: nat, n: nat)
  {
    if n == 0 then x == 0 else Fits(x / 2, n - 1)
  }

  lemma {:induction false} SetBitMeaning(x: nat, i: nat, j: nat)
    ensures BitAt(SetBit(x, i), j) <==> j == i || BitAt(x, j)
  {
    if i > 0 {
      var y := SetBit(x / 2, i - 1);
      assert SetBit(x, i) / 2 == y && SetBit(x, i) % 2 == x % 2;
      if j > 0 {
        SetBitMeaning(x / 2, i - 1, j - 1);
      }
    } else {
      assert SetBit(x, 0) / 2 == x / 2;
    }
  }

  lemma {:induction false} SetBitOnes(x: nat, i: nat)
    requires !BitAt(x, i)
    ensures Ones(SetBit(x, i)) == Ones(x) + 1
  {
    if i > 0 {
      var y := SetBit(x / 2, i - 1);
      SetBitOnes(x / 2, i - 1);
      SetBitHalves(x, i);
      PositiveBits(y);
    }
  }

  lemma SetBitHalves(x: nat, i: nat)
    requires i > 0
    ensures SetBit(x, i) / 2 == SetBit(x / 2, i - 1) && SetBit(x, i) % 2 == x % 2
  {
  }

  lemma PositiveBits(y: nat)
    ensures Ones(y) > 0 ==> y > 0
  {
  }

  lemma {:induction false} SetBitFits(x: nat, i: nat, n: nat)
    requires Fits(x, n) && i < n
    ensures Fits(SetBit(x, i), n)
  {
    if i > 0 {
      SetBitFits(x / 2, i - 1, n - 1);
      assert SetBit(x, i) / 2 == SetBit(x / 2, i - 1);
    } else {
      assert SetBit(x, 0) / 2 == x / 2;
    }
  }

  /** Clearing the lowest bit leaves one bit fewer. */
  lemma {:induction false} ClearLowestOnes(x: nat)
    requires x > 0
    ensures ClearLowest(x) < x && Ones(ClearLowest(x)) == Ones(x) - 1
  {
    if x % 2 == 1 {
      assert (x - 1) / 2 == x / 2 && (x - 1) % 2 == 0;
    } else {
      var y := ClearLowest(x / 2);
      ClearLowestOnes(x / 2);
      assert 2 * y / 2 == y && 2 * y % 2 == 0;
    }
  }

  /** Counts bits by clearing them one by one. */
  method PopCount(x: nat) returns (count: nat)
    ensures count == Ones(x)
  {
    var value := x;
    count := 0;
    while value != 0
      invariant count + Ones(value) == Ones(x)
    {
      ClearLowestOnes(value);
      value := ClearLowest(value);
      count := count + 1;
    }
  }

  lemma {:induction false} OnesBelowShift(x: nat, n: nat)
    requires n > 0
    ensures OnesBelow(x, n) == x % 2 + OnesBelow(x / 2, n - 1)
  {
    if n > 1 {
      OnesBelowShift(x, n - 1);
    }
  }

  lemma {:induction false} OnesBelowAll(x: nat, n: nat)
    requires Fits(x, n)
    ensures OnesBelow(x, n) == Ones(x)
  {
    if n > 0 {
      OnesBelowShift(x, n);
      OnesBelowAll(x / 2, n - 1);
    }
  }

  lemma {:induction false} OnesBelowMonotone(x: nat, m: nat, n: nat)
    requires m <= n
    ensures OnesBelow(x, m) <= OnesBelow(x, n)
  {
    if m < n {
      OnesBelowMonotone(x, m, n - 1);
    }
  }

  lemma {:induction false} FitsBound(x: nat, n: nat)
    ensures Fits(x, n) <==> x < Pow2(n)
  {
    if n > 0 {
      FitsBound(x / 2, n - 1);
    }
  }

  lemma Pow2Word()
    ensures Pow2(64) == TWO_64
  {
    assert Pow2(8) == 0x100;
    Pow2Add(8, 8);
    assert Pow2(16) == 0x1_0000;
    Pow2Add(16, 16);
    assert Pow2(32) == TWO_32;
    Pow2Add(32, 32);
  }
}
