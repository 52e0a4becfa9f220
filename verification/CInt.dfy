/** Fixed-width unsigned ranges and the C operators whose meaning differs from Dafny's. */
module CInt {

  const TWO_16: int := 0x1_0000
  const TWO_32: int := 0x1_0000_0000
  const TWO_64: int := 0x1_0000_0000_0000_0000

  type U8 = x: int | 0 <= x < 0x100
  type U16 = x: int | 0 <= x < 0x1_0000
  type U32 = x: int | 0 <= x < 0x1_0000_0000

  /** Assignment to a narrower unsigned type keeps the low bits. */
  function ToU16(x: int): U16 { x % 0x1_0000 }

  function ToU32(x: int): U32 { x % 0x1_0000_0000 }

  /** C's signed division truncates toward zero. */
  function TruncDiv(a: int, b: int): int
    requires b > 0
  {
    if a >= 0 then a / b else -((-a) / b)
  }

  /** C's remainder takes the sign of the dividend. */
  function TruncMod(a: int, b: int): int
    requires b > 0
  {
    a - b * TruncDiv(a, b)
  }

  lemma MulMonotone(a: int, b: int, c: int)
    requires a <= b && 0 <= c
    ensures a * c <= b * c
  {
    assert (b - a) * c >= 0;
  }

  lemma MulCancel(a: int, b: int, c: int)
    requires a * c < b * c && 0 <= c
    ensures a < b
  {
    if b <= a {
      MulMonotone(b, a, c);
    }
  }

  /** A quotient is determined by the interval it spans. */
  lemma DivUnique(a: int, b: int, q: int)
    requires b > 0 && b * q <= a < b * q + b
    ensures a / b == q
  {
    var p := a / b;
    assert b * p <= a < b * p + b;
    if p < q {
      MulMonotone(p + 1, q, b);
    } else if q < p {
      MulMonotone(q + 1, p, b);
    }
  }

  lemma DivMonotone(a: int, c: int, b: int)
    requires b > 0 && a <= c
    ensures a / b <= c / b
  {
    var p, q := a / b, c / b;
    assert b * p <= a && c < b * q + b;
    if p > q {
      MulMonotone(q + 1, p, b);
    }
  }

  lemma DivBounds(a: int, b: int)
    requires b > 0
    ensures b * (a / b) <= a < b * (a / b) + b
    ensures a >= 0 ==> a / b >= 0
  {
    var q := a / b;
    if a >= 0 && q < 0 {
      MulMonotone(q + 1, 0, b);
    }
  }

  lemma TruncDivBounds(a: int, b: int)
    requires b > 0
    ensures a >= 0 ==> b * TruncDiv(a, b) <= a < b * TruncDiv(a, b) + b
    ensures a < 0 ==> b * TruncDiv(a, b) - b < a <= b * TruncDiv(a, b)
    ensures a >= 0 ==> TruncDiv(a, b) >= 0
    ensures a <= 0 ==> TruncDiv(a, b) <= 0
  {
    if a >= 0 {
      DivBounds(a, b);
    } else {
      DivBounds(-a, b);
      var q := (-a) / b;
      assert b * -q == -(b * q);
    }
  }

  lemma TruncDivMonotone(a: int, c: int, b: int)
    requires b > 0 && a <= c
    ensures TruncDiv(a, b) <= TruncDiv(c, b)
  {
    if a >= 0 {
      DivMonotone(a, c, b);
    } else if c >= 0 {
      TruncDivBounds(a, b);
      TruncDivBounds(c, b);
    } else {
      DivMonotone(-c, -a, b);
    }
  }

  lemma ModShift(x: int, k: int, n: int)
    requires n > 0
    ensures (x + n * k) % n == x % n
  {
    var q := x / n;
    assert x == n * q + x % n;
    assert x + n * k == n * (q + k) + x % n;
    DivUnique(x + n * k, n, q + k);
  }

  /** Reducing one summand first does not change the reduced sum. */
  lemma ModAdd(a: int, b: int, n: int)
    requires n > 0
    ensures (a % n + b) % n == (a + b) % n
  {
    ModShift(a % n + b, a / n, n);
    assert a == n * (a / n) + a % n;
  }

  lemma WrapAdd(a: int, b: int)
    ensures ToU32(ToU32(a) + b) == ToU32(a + b) == ToU32(a + ToU32(b))
  {
    ModAdd(a, b, TWO_32);
    ModAdd(b, a, TWO_32);
  }

  lemma ModSucc(x: int, n: int)
    requires n > 0
    ensures (x + 1) % n == if x % n == n - 1 then 0 else x % n + 1
  {
    var q, r := x / n, x % n;
    assert x == n * q + r;
    if r == n - 1 {
      DivUnique(x + 1, n, q + 1);
    } else {
      DivUnique(x + 1, n, q);
    }
  }

  lemma MultipleMod(k: int, n: int)
    requires n > 0
    ensures (n * k) % n == 0
  {
    ModShift(0, k, n);
  }

  /** Equal remainders mean a difference of whole cycles. */
  lemma SameRemainder(a: int, b: int, n: int)
    requires n > 0
    ensures a % n == b % n <==> (b - a) % n == 0
  {
    var p, q, d := a / n, b / n, (b - a) / n;
    if a % n == b % n {
      Difference(a, b, p, q, n);
      MultipleMod(q - p, n);
    }
    if (b - a) % n == 0 {
      assert b == a + n * d;
      ModShift(a, d, n);
    }
  }

  lemma Difference(a: int, b: int, p: int, q: int, n: int)
    requires n > 0 && p == a / n && q == b / n && a % n == b % n
    ensures b - a == n * (q - p)
  {
    assert a == n * p + a % n && b == n * q + b % n;
    assert n * (q - p) == n * q - n * p;
  }

  lemma WrapSub(a: int, b: int)
    ensures ToU32(ToU32(a) - ToU32(b)) == ToU32(a - b)
  {
    var x := a / TWO_32 - b / TWO_32;
    assert a == TWO_32 * (a / TWO_32) + ToU32(a) && b == TWO_32 * (b / TWO_32) + ToU32(b);
    assert a - b == (ToU32(a) - ToU32(b)) + TWO_32 * x;
    ModShift(ToU32(a) - ToU32(b), x, TWO_32);
  }

  function Pow2(n: nat): (p: nat)
    ensures p >= 1
  {
    if n == 0 then 1 else 2 * Pow2(n - 1)
  }

  lemma Pow2Add(m: nat, n: nat)
    ensures Pow2(m + n) == Pow2(m) * Pow2(n)
  {
    if m != 0 {
      Pow2Add(m - 1, n);
      assert 2 * (Pow2(m - 1) * Pow2(n)) == (2 * Pow2(m - 1)) * Pow2(n);
    }
  }

  function Min(a: int, b: int): int { if b < a then b else a }
}
