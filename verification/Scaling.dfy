/**
 Fixed-point multiplication by a power of two with a Q24 exponent, and the pitch computation
 built on it. The exact result is a rounded rational; the code works with a quotient and a
 residual in 64 bits.
 */
module Scaling {
  import opened CInt

  const U32_MAX: int := 0xffff_ffff
  const Q24: int := 0x100_0000

  /** Fractional parts of 2^(i/256) in Q32. */
  type ExpTable = seq<int>

  ghost predicate TableOk(t: ExpTable)
  {
    && |t| == 256 && t[0] == 0
    && (forall i, j | 0 <= i < j < 256 :: t[i] < t[j])
    && t[255] + 0x8000 < TWO_32
  }

  // ---- The exact value --------------------------------------------------------------------

  function RoundHalfUp(n: nat, d: nat): nat
    requires d > 0
  {
    (2 * n + d) / (2 * d)
  }

  /** n * 2^octave / d, rounded half up. */
  function Exact(n: nat, d: nat, octave: int): nat
    requires d > 0
  {
    if octave >= 0 then RoundHalfUp(n * Pow2(octave), d) else RoundHalfUp(n, d * Pow2(-octave))
  }

  function Saturate(x: nat, minimum: U32): U32
  {
    if x < minimum then minimum else if x > U32_MAX then U32_MAX else x
  }

  /** Value of the table at position k of 0..256. */
  function Anchor(t: ExpTable, k: int): int
    requires |t| == 256 && 0 <= k <= 256
  {
    if k == 256 then 2 * TWO_32 else TWO_32 + t[k]
  }

  /** 2^(fraction / 2^24) in Q32, by linear interpolation. */
  function Ratio(t: ExpTable, fraction: int): int
    requires |t| == 256 && 0 <= fraction < Q24
  {
    var k := fraction / 0x1_0000;
    Anchor(t, k) + Interpolate(Anchor(t, k + 1) - Anchor(t, k), fraction % 0x1_0000)
  }

  function Interpolate(gap: int, x: int): int
  {
    (gap * x + 0x8000) / 0x1_0000
  }

  function Octave(e: int): int { e / Q24 }

  function Fraction(e: int): int { e % Q24 }

  /** The exact value, except that a product beyond 64 bits or an octave of 63 or more saturates. */
  function ScaledAt(t: ExpTable, multiplier: nat, divisor: nat, fraction: int, octave: int, minimum: U32): U32
    requires |t| == 256 && divisor > 0 && 0 <= fraction < Q24
  {
    var n := multiplier * Ratio(t, fraction);
    if n < 0 || n >= TWO_64 || octave >= 63 then U32_MAX
    else Saturate(Exact(n, TWO_32 * divisor, octave), minimum)
  }

  function Scaled(t: ExpTable, multiplier: nat, divisor: nat, e: int, minimum: U32): U32
    requires |t| == 256 && divisor > 0
  {
    ScaledAt(t, multiplier, divisor, Fraction(e), Octave(e), minimum)
  }

  /** The octave the code works with: a downward shift is cut to 32 bits. */
  function CodedOctave(octave: int): int
  {
    var shift: int := ToU32(-octave);
    if octave >= 0 then octave else -shift
  }

  /** Where that leaves a shift of zero, the code also shifts by 2^32-1, which C does not define. */
  predicate Defined(e: int) { Octave(e) >= 0 || ToU32(-Octave(e)) != 0 }

  /** What the code returns. */
  function Coded(t: ExpTable, multiplier: nat, divisor: nat, e: int, minimum: U32): U32
    requires |t| == 256 && divisor > 0
  {
    ScaledAt(t, multiplier, divisor, Fraction(e), CodedOctave(Octave(e)), minimum)
  }

  /** Down to an octave of -2^32 nothing is cut. */
  lemma CodedIsScaled(t: ExpTable, multiplier: nat, divisor: nat, e: int, minimum: U32)
    requires |t| == 256 && divisor > 0 && Octave(e) > -TWO_32
    ensures Defined(e) && Coded(t, multiplier, divisor, e, minimum) == Scaled(t, multiplier, divisor, e, minimum)
  {
    hide ScaledAt;
  }

  // ---- Rounding facts ---------------------------------------------------------------------

  lemma DivScale(a: nat, b: nat, k: nat)
    requires b > 0 && k > 0
    ensures (k * a) / (k * b) == a / b
  {
    DivBounds(a, b);
    var q := a / b;
    MulMonotone(b * q, a, k);
    MulMonotone(a + 1, b * q + b, k);
    assert k * a < k * (b * q + b);
    assert (k * b) * q == k * (b * q);
    assert k * (b * q + b) == (k * b) * q + k * b;
    DivUnique(k * a, k * b, q);
  }

  lemma RoundScale(n: nat, d: nat, k: nat)
    requires d > 0 && k > 0
    ensures RoundHalfUp(k * n, k * d) == RoundHalfUp(n, d)
  {
    DivScale(2 * n + d, 2 * d, k);
    assert k * (2 * n + d) == 2 * (k * n) + k * d;
    assert k * (2 * d) == 2 * (k * d);
  }

  lemma RoundMonotone(m: nat, n: nat, d: nat)
    requires d > 0 && m <= n
    ensures RoundHalfUp(m, d) <= RoundHalfUp(n, d)
  {
    DivMonotone(2 * m + d, 2 * n + d, 2 * d);
  }

  /** Rounding from a quotient and a residual. */
  lemma RoundFromResidual(q: nat, r: nat, d: nat)
    requires r < d
    ensures RoundHalfUp(q * d + r, d) == q + (if 2 * r >= d then 1 else 0)
  {
    var up := if 2 * r >= d then 1 else 0;
    var a := 2 * (q * d + r) + d;
    assert (2 * d) * (q + up) == 2 * (q * d) + 2 * d * up;
    assert 2 * d * up == if up == 1 then 2 * d else 0;
    DivUnique(a, 2 * d, q + up);
  }

  /** A remainder below the inner divisor cannot reach the outer quotient. */
  lemma NestedDiv(s: nat, r: nat, d: nat, p: nat)
    requires r < d && p > 0
    ensures (d * s + r) / (d * p) == s / p
  {
    DivBounds(s, p);
    var k := s / p;
    MulMonotone(p * k, s, d);
    MulMonotone(s + 1, p * k + p, d);
    assert (p * k) * d == (d * p) * k;
    assert (p * k + p) * d == (d * p) * k + d * p;
    assert s * d == d * s && (s + 1) * d == d * s + d;
    DivUnique(d * s + r, d * p, k);
  }

  lemma HalfUpDigit(q: nat, half: nat)
    requires half > 0
    ensures (q + half) / (2 * half) == q / (2 * half) + (if q % (2 * half) >= half then 1 else 0)
  {
    var p := 2 * half;
    var k := q / p;
    assert q == p * k + q % p;
    if q % p >= half {
      assert p * (k + 1) == p * k + p;
      DivUnique(q + half, p, k + 1);
    } else {
      DivUnique(q + half, p, k);
    }
  }

  /** Shifting a quotient right discards a residual that cannot change the rounding. */
  lemma RoundShifted(q: nat, r: nat, d: nat, half: nat)
    requires r < d && half > 0
    ensures RoundHalfUp(q * d + r, d * (2 * half)) == Digit(q, half)
  {
    HalfUpDigit(q, half);
    NestedDiv(q + half, 2 * r, 2 * d, 2 * half);
    assert (2 * d) * (q + half) == 2 * (q * d) + d * (2 * half);
    assert (2 * d) * (2 * half) == 2 * (d * (2 * half));
  }

  /** Doubling the number and lowering the octave by one change nothing. */
  lemma ExactShift(n: nat, d: nat, o: int)
    requires d > 0
    ensures Exact(2 * n, d, o - 1) == Exact(n, d, o)
  {
    if o >= 1 {
      assert (2 * n) * Pow2(o - 1) == n * (2 * Pow2(o - 1)) == n * Pow2(o);
    } else {
      RoundScale(n, d * Pow2(-o), 2);
      assert d * Pow2(-o + 1) == 2 * (d * Pow2(-o));
      assert o == 0 ==> n * Pow2(0) == n && d * Pow2(0) == d;
    }
  }

  lemma ExactMonotone(m: nat, n: nat, d: nat, o: int)
    requires d > 0 && m <= n
    ensures Exact(m, d, o) <= Exact(n, d, o)
  {
    if o >= 0 {
      MulMonotone(m, n, Pow2(o));
      RoundMonotone(m * Pow2(o), n * Pow2(o), d);
    } else {
      RoundMonotone(m, n, d * Pow2(-o));
    }
  }

  lemma {:induction false} ExactOctaves(n: nat, d: nat, o: int, p: int)
    requires d > 0 && o <= p
    ensures Exact(n, d, o) <= Exact(n, d, p)
    decreases p - o
  {
    if o < p {
      ExactMonotone(n, 2 * n, d, o);
      ExactShift(n, d, o + 1);
      ExactOctaves(n, d, o + 1, p);
    }
  }

  // ---- The ratio --------------------------------------------------------------------------

  lemma AnchorMonotone(t: ExpTable, j: int, k: int)
    requires TableOk(t) && 0 <= j <= k <= 256
    ensures Anchor(t, j) <= Anchor(t, k)
  {
    if k == 256 && j < 256 {
      assert j < 255 ==> t[j] < t[255];
    }
  }

  /** Interpolated ratios rise with the fraction, inside a cell and across cells. */
  lemma RatioMonotone(t: ExpTable, f: int, g: int)
    requires TableOk(t) && 0 <= f <= g < Q24
    ensures Ratio(t, f) <= Ratio(t, g)
  {
    hide Interpolate;
    var j, k := f / 0x1_0000, g / 0x1_0000;
    var x, y := f % 0x1_0000, g % 0x1_0000;
    AnchorMonotone(t, j, j + 1);
    AnchorMonotone(t, k, k + 1);
    var gap, gap' := Anchor(t, j + 1) - Anchor(t, j), Anchor(t, k + 1) - Anchor(t, k);
    if j == k {
      InterpolateMonotone(gap, x, y);
    } else {
      InterpolateBounds(gap, x);
      InterpolateBounds(gap', y);
      AnchorMonotone(t, j + 1, k);
    }
  }

  lemma InterpolateMonotone(gap: nat, x: int, y: int)
    requires x <= y
    ensures Interpolate(gap, x) <= Interpolate(gap, y)
  {
    MulMonotone(x, y, gap);
  }

  lemma InterpolateBounds(gap: nat, x: nat)
    requires x <= 0xffff
    ensures 0 <= Interpolate(gap, x) <= gap
  {
    MulMonotone(x, 0xffff, gap);
    MulMonotone(0, x, gap);
  }

  /** Inside the last cell the value stays below its right end. */
  lemma InterpolateBelow(gap: nat, x: nat)
    requires x <= 0xffff && gap > 0x8000
    ensures Interpolate(gap, x) < gap
  {
    MulMonotone(x, 0xffff, gap);
  }

  lemma RatioPositive(t: ExpTable, fraction: int)
    requires TableOk(t) && 0 <= fraction < Q24
    ensures TWO_32 <= Ratio(t, fraction) < 2 * TWO_32
  {
    hide Interpolate;
    var k, x := fraction / 0x1_0000, fraction % 0x1_0000;
    AnchorMonotone(t, 0, k);
    AnchorMonotone(t, k, k + 1);
    var gap := Anchor(t, k + 1) - Anchor(t, k);
    InterpolateBounds(gap, x);
    if k == 255 {
      InterpolateBelow(gap, x);
    } else {
      assert t[k + 1] <= t[255];
    }
  }

  /** The ratio is the point of the chord between two neighbouring anchors, rounded to the nearest
      integer; at an anchor it is that anchor. */
  lemma RatioIsChord(t: ExpTable, fraction: int)
    requires TableOk(t) && 0 <= fraction < Q24
    ensures var k, x := fraction / 0x1_0000, fraction % 0x1_0000;
            && Anchor(t, k) <= Ratio(t, fraction) <= Anchor(t, k + 1)
            && -0x8000 <= (Anchor(t, k + 1) - Anchor(t, k)) * x - 0x1_0000 * (Ratio(t, fraction) - Anchor(t, k)) < 0x8000
            && (x == 0 ==> Ratio(t, fraction) == Anchor(t, k))
  {
    var k, x := fraction / 0x1_0000, fraction % 0x1_0000;
    AnchorMonotone(t, k, k + 1);
    var gap := Anchor(t, k + 1) - Anchor(t, k);
    InterpolateBounds(gap, x);
    DivBounds(gap * x + 0x8000, 0x1_0000);
  }

  // ---- The general form -------------------------------------------------------------------

  /** C's split of a signed exponent into a floor octave and a fraction. */
  method SplitExponent(e: int) returns (octave: int, fraction: int)
    ensures octave == Octave(e) && fraction == Fraction(e)
  {
    octave, fraction := TruncDiv(e, Q24), TruncMod(e, Q24);
    if fraction < 0 {
      fraction := fraction + Q24;
      octave := octave - 1;
    }
    DivUnique(e, Q24, octave);
  }

  method InterpolateRatio(t: ExpTable, fraction: int) returns (ratio: int)
    requires TableOk(t) && 0 <= fraction < Q24
    ensures ratio == Ratio(t, fraction) && TWO_32 <= ratio < 2 * TWO_32
  {
    RatioPositive(t, fraction);
    var tableIndex, interpolation := fraction / 0x1_0000, fraction % 0x1_0000;
    var lower := TWO_32 + t[tableIndex];
    var upper := if tableIndex == 255 then 2 * TWO_32 else TWO_32 + t[tableIndex + 1];
    ratio := lower + ((upper - lower) * interpolation + 0x8000) / 0x1_0000;
  }

  lemma TwiceProduct(q: nat, d: nat)
    ensures (q * 2) * d == 2 * (q * d) && (q * 2 + 1) * d == 2 * (q * d) + d
  {
  }

  lemma Doubled(n: nat, shift: nat, octave: nat)
    requires shift < octave
    ensures n * Pow2(octave) >= 2 * (n * Pow2(shift))
  {
    Pow2Add(octave - shift, shift);
    var big, a := Pow2(octave - shift), n * Pow2(shift);
    assert big == 2 * Pow2(octave - shift - 1);
    MulExchange(n, big, Pow2(shift));
    MulMonotone(2, big, a);
  }

  lemma MulExchange(a: int, b: int, c: int)
    ensures a * (b * c) == b * (a * c)
  {
  }

  /** A quotient that no longer fits after doubling means the exact value saturates. */
  lemma DoublingSaturates(n: nat, d: nat, octave: nat, shift: nat, q: nat, r: nat)
    requires d > 0 && shift < octave && n * Pow2(shift) >= q * d + r && q >= 0x8000_0000
    ensures Exact(n, d, octave) > U32_MAX
  {
    hide Pow2, RoundHalfUp;
    Doubled(n, shift, octave);
    MulMonotone(0x8000_0000, q, d);
    RoundMonotone(TWO_32 * d, n * Pow2(octave), d);
    RoundFromResidual(TWO_32, 0, d);
  }

  /** The k-th residual can be doubled in 64 bits. */
  ghost predicate Doubles(n: nat, d: nat, k: nat)
    requires d > 0
  {
    (n * Pow2(k)) % d < 0x8000_0000_0000_0000
  }

  /** No doubled residual leaves 64 bits. */
  ghost predicate NoWrap(n: nat, d: nat, octave: int)
    requires d > 0
  {
    forall k | 0 <= k <= octave :: Doubles(n, d, k)
  }

  lemma SmallDivisorDoubles(n: nat, d: nat, octave: int)
    requires 0 < d <= 0x8000_0000_0000_0000
    ensures NoWrap(n, d, octave)
  {
  }

  lemma ResidualDoubles(n: nat, d: nat, k: nat, q: nat, r: nat)
    requires n * Pow2(k) == q * d + r && r < d
    ensures Doubles(n, d, k) <==> r < 0x8000_0000_0000_0000
  {
    DivUnique(q * d + r, d, q);
  }

  /** A doubling that wraps makes the pair stand for too small a number, and it stays too small. */
  lemma WrapLoses(t: nat, q: nat, r: nat, d: nat)
    requires d < TWO_64 && r < d && q * d + r <= t && r >= 0x8000_0000_0000_0000
    ensures 0 <= 2 * r - TWO_64 < d && (2 * q) * d + (2 * r - TWO_64) + d < 2 * t
  {
  }

  /** A number too small by more than the divisor rounds to less. */
  lemma RoundsLess(m: nat, n: nat, d: nat)
    requires d > 0 && m + d < n
    ensures RoundHalfUp(m, d) < RoundHalfUp(n, d)
  {
    RoundMonotone(m + d, n, d);
    DivUnique(2 * (m + d) + d, 2 * d, RoundHalfUp(m, d) + 1);
  }

  /** One doubling in 64 bits. */
  method DoubleResidual(q: nat, r: nat, d: nat) returns (q': nat, r': nat)
    requires r < d < TWO_64 && q <= U32_MAX / 2
    ensures r' < d && q' <= U32_MAX
    ensures r < 0x8000_0000_0000_0000 ==> q' * d + r' == 2 * (q * d + r)
    ensures r >= 0x8000_0000_0000_0000 ==> q' == 2 * q && r' == 2 * r - TWO_64
  {
    TwiceProduct(q, d);
    q', r' := q * 2, (r * 2) % TWO_64;
    assert r' == if r < 0x8000_0000_0000_0000 then r * 2 else r * 2 - TWO_64;
    if r' >= d {
      r' := r' - d;
      q' := q' + 1;
    }
  }

  lemma StartDoubling(n: nat)
    ensures n * Pow2(0) == n
  {
  }

  lemma OneMoreDoubling(n: nat, k: nat)
    ensures n * Pow2(k + 1) == 2 * (n * Pow2(k))
  {
  }

  /** The code's last rounding, from a pair that stands for the true number. */
  lemma RoundsRight(n: nat, d: nat, octave: nat, q: nat, r: nat)
    requires r < d < TWO_64 && n * Pow2(octave) == q * d + r
    ensures var up := if (r * 2) % TWO_64 >= d then 1 else 0;
            && Exact(n, d, octave) == q + (if 2 * r >= d then 1 else 0)
            && q + up <= Exact(n, d, octave) && (q + up == Exact(n, d, octave) <==> Doubles(n, d, octave))
  {
    hide RoundHalfUp, Doubles, Pow2;
    RoundFromResidual(q, r, d);
    ResidualDoubles(n, d, octave, q, r);
  }

  /** And from a pair that stands for too small a number. */
  lemma RoundsTooLow(n: nat, d: nat, octave: nat, q: nat, r: nat)
    requires r < d < TWO_64 && q * d + r + d < n * Pow2(octave)
    ensures q + (if (r * 2) % TWO_64 >= d then 1 else 0) < Exact(n, d, octave)
  {
    hide RoundHalfUp, Pow2;
    RoundFromResidual(q, r, d);
    RoundsLess(q * d + r, n * Pow2(octave), d);
  }

  /** The upward loop: doubles the pair `octave` times or reports saturation. The result is exact if
      and only if no doubled residual leaves 64 bits; otherwise it is too small. */
  method ShiftUp(n: nat, d: nat, q0: nat, r0: nat, octave: nat) returns (saturated: bool, q: nat)
    requires 0 < d < TWO_64 && n == q0 * d + r0 && r0 < d && q0 < TWO_32
    ensures saturated ==> Exact(n, d, octave) > U32_MAX
    ensures !saturated ==> q <= Exact(n, d, octave) && (q == Exact(n, d, octave) <==> NoWrap(n, d, octave))
  {
    hide Doubles, RoundHalfUp, Exact;
    q, saturated := q0, false;
    var residual := r0;
    ghost var wrapped := false;
    StartDoubling(n);
    for shift := 0 to octave
      invariant 0 <= residual < d && q < TWO_32
      invariant !wrapped ==> n * Pow2(shift) == q * d + residual && NoWrap(n, d, shift - 1)
      invariant wrapped ==> q * d + residual + d < n * Pow2(shift) && !NoWrap(n, d, shift - 1)
    {
      if q > U32_MAX / 2 {
        DoublingSaturates(n, d, octave, shift, q, residual);
        saturated := true;
        return;
      }
      OneMoreDoubling(n, shift);
      if !wrapped {
        ResidualDoubles(n, d, shift, q, residual);
      }
      if residual >= 0x8000_0000_0000_0000 {
        WrapLoses(n * Pow2(shift), q, residual, d);
        wrapped := true;
      }
      q, residual := DoubleResidual(q, residual, d);
    }
    if wrapped {
      RoundsTooLow(n, d, octave, q, residual);
    } else {
      RoundsRight(n, d, octave, q, residual);
    }
    if (residual * 2) % TWO_64 >= d {
      q := q + 1;
    }
  }

  lemma {:induction false} Pow2Grows(m: nat, n: nat)
    requires m <= n
    ensures Pow2(m) <= Pow2(n)
    decreases n - m
  {
    if m < n {
      Pow2Grows(m + 1, n);
    }
  }

  lemma SmallQuotient(q: nat, p: nat)
    requires q < p
    ensures q / p == 0 && q % p == q
  {
    DivUnique(q, p, 0);
  }

  lemma Pow2Of62()
    ensures Pow2(62) == 0x4000_0000_0000_0000
  {
    assert Pow2(8) == 0x100;
    assert Pow2(15) == 0x8000;
    Pow2Add(8, 8);
    Pow2Add(16, 15);
    Pow2Add(31, 31);
  }

  /** The low bits decide whether a shifted quotient rounds up. */
  function Digit(q: nat, half: nat): nat
    requires half > 0
  {
    q / (2 * half) + (if q % (2 * half) >= half then 1 else 0)
  }

  lemma SmallDigit(q: nat, half: nat)
    requires q < half
    ensures Digit(q, half) == 0
  {
    SmallQuotient(q, 2 * half);
  }

  method ShiftQuotient(q0: nat, shift: nat) returns (q: nat)
    requires q0 <= 2 * TWO_32 && shift > 0
    ensures q == Digit(q0, Pow2(shift - 1))
  {
    if shift >= 63 {
      hide Pow2;
      Pow2Grows(62, shift - 1);
      Pow2Of62();
      SmallDigit(q0, Pow2(shift - 1));
      return 0;
    }
    var power, half := Pow2(shift), Pow2(shift - 1);
    q := RoundOff(q0, power, half);
  }

  method RoundOff(q0: nat, power: nat, half: nat) returns (q: nat)
    requires half > 0 && power == 2 * half
    ensures q == Digit(q0, half)
  {
    DivBounds(q0, power);
    var discarded := q0 % power;
    q := q0 / power;
    if discarded >= half {
      q := q + 1;
    }
  }

  lemma ShiftedDown(n: nat, d: nat, q: nat, r: nat, shift: int)
    requires n == q * d + r && r < d && shift > 0
    ensures Exact(n, d, -shift) == Digit(q, Pow2(shift - 1)) && NoWrap(n, d, -shift)
  {
    hide Digit, RoundHalfUp;
    RoundShifted(q, r, d, Pow2(shift - 1));
    assert Pow2(shift) == 2 * Pow2(shift - 1);
  }

  /** Shifts and rounds a quotient with its residual, then clamps. */
  method Finish(n: nat, d: nat, q: nat, r: nat, octave: int, minimum: U32) returns (result: U32)
    requires TWO_32 <= d < TWO_64 && n == q * d + r && r < d && q < TWO_32
    requires octave >= 0 || ToU32(-octave) != 0
    ensures var o := CodedOctave(octave);
            && (o >= 63 || NoWrap(n, d, o) ==> result == if o >= 63 then U32_MAX else Saturate(Exact(n, d, o), minimum))
            && (o < 63 ==> result <= Saturate(Exact(n, d, o), minimum))
  {
    hide Digit, Exact, NoWrap, Pow2, ToU32;
    var quotient: int;
    if octave >= 0 {
      if octave >= 63 {
        return U32_MAX;
      }
      var saturated;
      saturated, quotient := ShiftUp(n, d, q, r, octave);
      if saturated {
        return U32_MAX;
      }
    } else {
      var shift := ToU32(-octave);
      quotient := ShiftQuotient(q, shift);
      ShiftedDown(n, d, q, r, shift);
    }
    if quotient < minimum {
      return minimum;
    }
    result := if quotient > U32_MAX then U32_MAX else quotient;
  }

  /** The general form returns the saturating exact value whenever no doubled residual leaves 64
      bits, which is always so for divisors up to 2^31; otherwise at most that. */
  method RatioScaledQ24(t: ExpTable, multiplier: nat, divisor: U32, e: int, minimum: U32) returns (r: U32)
    requires TableOk(t) && multiplier < TWO_64 && divisor > 0 && Defined(e)
    ensures multiplier * Ratio(t, Fraction(e)) >= 0
    ensures divisor <= 0x8000_0000 || NoWrap(multiplier * Ratio(t, Fraction(e)), TWO_32 * divisor, CodedOctave(Octave(e))) ==>
              r == Coded(t, multiplier, divisor, e, minimum)
    ensures r <= Coded(t, multiplier, divisor, e, minimum)
  {
    hide Ratio, Exact, NoWrap, CodedOctave;
    var octave, fraction := SplitExponent(e);
    var ratio := InterpolateRatio(t, fraction);
    RatioPositive(t, fraction);
    var overflows := ProductOverflows(multiplier, ratio);
    MulMonotone(0, multiplier, ratio);
    if overflows {
      return U32_MAX;
    }
    var numerator := multiplier * ratio;
    var denominator := TWO_32 * divisor;
    var quotient, residual := Divide(numerator, denominator);
    if divisor <= 0x8000_0000 {
      SmallDivisorDoubles(numerator, denominator, CodedOctave(octave));
    }
    r := Finish(numerator, denominator, quotient, residual, octave, minimum);
  }

  /** With a wider divisor the rounding can be lost: half of the smallest such divisor rounds up to
      one, but its doubled residual is zero in 64 bits. */
  lemma WideDivisorWraps(t: ExpTable)
    requires TableOk(t)
    ensures Ratio(t, 0) == TWO_32
    ensures var n, d := 0x8000_0000 * Ratio(t, 0), TWO_32 * 0x8000_0001;
            !NoWrap(n, d, 0) && Exact(n, d, 0) == 1 && Scaled(t, 0x8000_0000, 0x8000_0001, 0, 0) == 1
  {
    RatioOfZero(t);
    assert Pow2(0) == 1;
    var n, d := 0x8000_0000 * TWO_32, TWO_32 * 0x8000_0001;
    assert n * Pow2(0) == n && n % d == n;
    assert !Doubles(n, d, 0);
  }

  /** The overflow guard compares without overflowing. */
  lemma SaturationGuard(multiplier: nat, ratio: nat)
    ensures multiplier != 0 ==> (ratio > (TWO_64 - 1) / multiplier <==> multiplier * ratio >= TWO_64)
  {
    if multiplier != 0 {
      DivBounds(TWO_64 - 1, multiplier);
      var limit := (TWO_64 - 1) / multiplier;
      if ratio > limit {
        MulMonotone(limit + 1, ratio, multiplier);
      } else {
        MulMonotone(ratio, limit, multiplier);
      }
    }
  }

  method ProductOverflows(multiplier: nat, ratio: nat) returns (b: bool)
    ensures b <==> multiplier * ratio >= TWO_64
  {
    SaturationGuard(multiplier, ratio);
    b := multiplier != 0 && ratio > (TWO_64 - 1) / multiplier;
  }

  method Divide(n: nat, d: nat) returns (q: nat, r: nat)
    requires n < TWO_64 && d >= TWO_32
    ensures n == q * d + r && r < d && q < TWO_32
  {
    DivBounds(n, d);
    q, r := n / d, n % d;
    if q >= TWO_32 {
      MulMonotone(TWO_32, q, d);
      MulMonotone(TWO_32, d, TWO_32);
    }
  }

  // ---- The fast form ----------------------------------------------------------------------

  /** Splitting the ratio into one plus a fraction gives the quotient and residual directly. */
  lemma SplitProduct(multiplier: U32, ratio: int)
    requires TWO_32 <= ratio < 2 * TWO_32
    ensures var fp := multiplier * ToU32(ratio - TWO_32);
            var q := multiplier + fp / TWO_32;
            && 0 <= fp && 0 <= q && multiplier * ratio == q * TWO_32 + ToU32(fp)
            && (q > U32_MAX <==> multiplier * ratio >= TWO_64)
  {
    var fp := multiplier * (ratio - TWO_32);
    assert multiplier * ratio == multiplier * TWO_32 + fp;
    assert 0 <= fp by { MulMonotone(0, ratio - TWO_32, multiplier); }
    assert fp == TWO_32 * (fp / TWO_32) + fp % TWO_32;
  }

  /** The divisor-one form equals the general form for every multiplier and exponent. */
  method ScaleU32ByExp2Q24(t: ExpTable, multiplier: U32, e: int, minimum: U32) returns (r: U32)
    requires TableOk(t) && Defined(e)
    ensures r == Coded(t, multiplier, 1, e, minimum)
  {
    hide Ratio, Exact, NoWrap, CodedOctave, ToU32;
    var octave, fraction := SplitExponent(e);
    var ratio := InterpolateRatio(t, fraction);
    RatioPositive(t, fraction);
    SplitProduct(multiplier, ratio);
    var fractionProduct := multiplier * ToU32(ratio - TWO_32);
    var quotient := multiplier + fractionProduct / TWO_32;
    var residual := ToU32(fractionProduct);
    if quotient > U32_MAX {
      return U32_MAX;
    }
    SmallDivisorDoubles(multiplier * ratio, TWO_32, CodedOctave(octave));
    r := Finish(multiplier * ratio, TWO_32, quotient, residual, octave, minimum);
  }

  /** The result is exact whenever the product fits 64 bits and the octave is below 63. With
      divisor one it is also exact after an overflow, unless the octave is negative, and for
      any octave of a nonzero multiplier. */
  lemma ScaledIsExact(t: ExpTable, multiplier: nat, divisor: nat, e: int, minimum: U32)
    requires TableOk(t) && 0 < divisor <= 0x8000_0000 && multiplier < TWO_64
    requires var n := multiplier * Ratio(t, Fraction(e));
             || (n < TWO_64 && Octave(e) < 63)
             || (Octave(e) >= 63 && multiplier > 0)
             || (n >= TWO_64 && Octave(e) >= 0 && divisor == 1)
    ensures multiplier * Ratio(t, Fraction(e)) >= 0
    ensures Scaled(t, multiplier, divisor, e, minimum) ==
            Saturate(Exact(multiplier * Ratio(t, Fraction(e)), TWO_32 * divisor, Octave(e)), minimum)
  {
    hide Ratio, Exact;
    RatioPositive(t, Fraction(e));
    var ratio := Ratio(t, Fraction(e));
    var n := multiplier * ratio;
    MulMonotone(0, multiplier, ratio);
    if n >= TWO_64 && Octave(e) >= 0 && divisor == 1 {
      ExactAtLeast(n, TWO_32, Octave(e), 0);
    } else if Octave(e) >= 63 {
      MulMonotone(1, multiplier, ratio);
      ExactAtLeast(n, TWO_32 * divisor, Octave(e), 63);
    }
  }

  /** Whether n * 2^octave / d rounds to at least 2^32-1, in products alone. */
  predicate ReachesTop(n: nat, d: nat, octave: int)
  {
    if octave >= 0 then 2 * (n * Pow2(octave)) >= (2 * U32_MAX - 1) * d else 2 * n >= (2 * U32_MAX - 1) * (d * Pow2(-octave))
  }

  lemma RoundReaches(a: nat, b: nat)
    requires b > 0
    ensures RoundHalfUp(a, b) >= U32_MAX <==> 2 * a >= (2 * U32_MAX - 1) * b
  {
    var q := RoundHalfUp(a, b);
    DivBounds(2 * a + b, 2 * b);
    if q >= U32_MAX {
      MulMonotone(U32_MAX, q, 2 * b);
    } else {
      MulMonotone(q + 1, U32_MAX, 2 * b);
    }
  }

  lemma ExactReaches(n: nat, d: nat, o: int)
    requires d > 0
    ensures Exact(n, d, o) >= U32_MAX <==> ReachesTop(n, d, o)
  {
    hide RoundHalfUp;
    if o >= 0 {
      RoundReaches(n * Pow2(o), d);
    } else {
      RoundReaches(n, d * Pow2(-o));
    }
  }

  /** Exactly when the result is the exact value, rounded and clamped: unless the product leaves 64
      bits or the octave is 63 or more, and then if the minimum or the exact value is at the top. */
  lemma ScaledIsExactly(t: ExpTable, multiplier: nat, divisor: nat, e: int, minimum: U32)
    requires TableOk(t) && divisor > 0
    ensures var n := multiplier * Ratio(t, Fraction(e));
            && n >= 0
            && (Scaled(t, multiplier, divisor, e, minimum) == Saturate(Exact(n, TWO_32 * divisor, Octave(e)), minimum) <==>
                  || (n < TWO_64 && Octave(e) < 63)
                  || minimum == U32_MAX
                  || ReachesTop(n, TWO_32 * divisor, Octave(e)))
  {
    hide Ratio, Exact, ReachesTop, Octave;
    RatioPositive(t, Fraction(e));
    MulMonotone(0, multiplier, Ratio(t, Fraction(e)));
    var n, d, o := multiplier * Ratio(t, Fraction(e)), TWO_32 * divisor, Octave(e);
    ExactReaches(n, d, o);
  }

  /** Far down everything rounds to zero, but an octave of -2^32 or less is cut, so the code may
      return more than the minimum: exactly if the cut octave gives more. */
  lemma DeepOctave(t: ExpTable, multiplier: nat, divisor: nat, e: int, minimum: U32)
    requires TableOk(t) && divisor > 0 && Octave(e) <= -TWO_32
    requires multiplier * Ratio(t, Fraction(e)) < TWO_64
    ensures var n := multiplier * Ratio(t, Fraction(e));
            && n >= 0 && Scaled(t, multiplier, divisor, e, minimum) == minimum
            && (Coded(t, multiplier, divisor, e, minimum) == minimum <==>
                  minimum == U32_MAX || Exact(n, TWO_32 * divisor, CodedOctave(Octave(e))) <= minimum)
  {
    hide Ratio, Exact, Octave;
    RatioPositive(t, Fraction(e));
    MulMonotone(0, multiplier, Ratio(t, Fraction(e)));
    ExactVanishes(multiplier * Ratio(t, Fraction(e)), TWO_32 * divisor, -Octave(e));
  }

  lemma ExactVanishes(n: nat, d: nat, shift: int)
    requires n < TWO_64 && d >= TWO_32 && shift >= 33
    ensures Exact(n, d, -shift) == 0
  {
    hide Pow2;
    Pow2Grows(33, shift);
    Pow2Of33();
    MulMonotone(Pow2(33), Pow2(shift), d);
    MulMonotone(TWO_32, d, Pow2(33));
    DivUnique(2 * n + d * Pow2(shift), 2 * (d * Pow2(shift)), 0);
  }

  lemma Pow2Of33()
    ensures Pow2(33) == 2 * TWO_32
  {
    assert Pow2(8) == 0x100;
    Pow2Add(8, 8);
    Pow2Add(16, 16);
    Pow2Add(32, 1);
  }

  /** A cut octave: four times 2^-(2^32+1) comes out as two. */
  lemma CutOctave(t: ExpTable)
    requires TableOk(t)
    ensures var e := -(TWO_32 + 1) * Q24;
            Defined(e) && Coded(t, 4, 1, e, 0) == 2 && Scaled(t, 4, 1, e, 0) == 0
  {
    hide Ratio, Exact;
    var e := -(TWO_32 + 1) * Q24;
    DivUnique(e, Q24, -(TWO_32 + 1));
    assert Octave(e) == -(TWO_32 + 1) && Fraction(e) == 0 && CodedOctave(Octave(e)) == -1;
    RatioOfZero(t);
    DeepOctave(t, 4, 1, e, 0);
    ShiftedDown(4 * TWO_32, TWO_32, 4, 0, 1);
    assert Pow2(0) == 1 && Digit(4, 1) == 2;
  }

  lemma ExactAtLeast(n: nat, d: nat, octave: nat, floor: nat)
    requires 0 < d <= TWO_32 * 0x8000_0000 && floor <= octave
    requires (floor == 0 && n >= TWO_32 * d) || (floor == 63 && n >= TWO_32)
    ensures Exact(n, d, octave) > U32_MAX
  {
    ExactOctaves(n, d, floor, octave);
    if floor == 0 {
      assert n * Pow2(0) == n;
    } else {
      Pow2Of62();
      assert Pow2(63) == 0x8000_0000_0000_0000;
      MulMonotone(TWO_32, n, Pow2(63));
    }
    RoundMonotone(TWO_32 * d, n * Pow2(floor), d);
    RoundFromResidual(TWO_32, 0, d);
  }

  // ---- Low-frequency oscillator rate ------------------------------------------------------

  const LFO_MULTIPLIER: nat := 8176 * 48 * 65536

  function CentsExponent(cents: int): int
  {
    TruncDiv(cents * Q24, 1200)
  }

  lemma LfoAlwaysSaturates(t: ExpTable, e: int)
    requires TableOk(t)
    ensures Scaled(t, LFO_MULTIPLIER, 48_000_000, e, 0) == U32_MAX
  {
    hide Ratio, Exact;
    RatioPositive(t, Fraction(e));
    MulMonotone(TWO_32, Ratio(t, Fraction(e)), LFO_MULTIPLIER);
  }

  /** The oscillator rate is the largest 32-bit value for every pitch, because its multiplier
      alone exceeds the 64-bit guard. */
  method LfoStepFromCents(t: ExpTable, cents: int) returns (step: U32)
    requires TableOk(t) && -0x8000_0000 <= cents < 0x8000_0000
    ensures step == U32_MAX
  {
    var e := CentsExponent(cents);
    TruncDivBounds(cents * Q24, 1200);
    OctaveBound(e);
    CodedIsScaled(t, LFO_MULTIPLIER, 48_000_000, e, 0);
    step := RatioScaledQ24(t, LFO_MULTIPLIER, 48_000_000, e, 0);
    LfoAlwaysSaturates(t, e);
  }

  lemma OctaveBound(e: int)
    requires -0x1_0000_0000_0000 <= e
    ensures Octave(e) > -TWO_32
  {
    DivBounds(e, Q24);
  }

  /** At zero cents the oscillator should advance 536 parts of 65536 per millisecond. */
  lemma LfoRateIsWrong(t: ExpTable)
    requires TableOk(t)
    ensures Exact(LFO_MULTIPLIER * Ratio(t, 0), TWO_32 * 48_000_000, 0) == 536
    ensures Scaled(t, LFO_MULTIPLIER, 48_000_000, 0, 0) != 536
  {
    LfoAlwaysSaturates(t, 0);
    assert Ratio(t, 0) == TWO_32;
    assert Pow2(0) == 1;
  }

  // ---- Pitch ------------------------------------------------------------------------------

  const CENTS_LIMIT: int := 24000 * 65536

  /** The exponent as the code computes it, from a 32-bit quotient and remainder. */
  function PitchExponent(cents: int): int
  {
    TruncDiv(cents, 75) * 16 + TruncDiv(TruncMod(cents, 75) * 16, 75)
  }

  function ClampCents(centsQ16: int): int
  {
    if centsQ16 < -CENTS_LIMIT then -CENTS_LIMIT
    else if centsQ16 > CENTS_LIMIT then CENTS_LIMIT
    else centsQ16
  }

  function PhaseWithCents(t: ExpTable, base: U32, centsQ16: int): U32
    requires |t| == 256
  {
    Scaled(t, base, 1, PitchExponent(ClampCents(centsQ16)), 1)
  }

  /** Splitting the division keeps C's truncation: the exponent is cents*256/1200. */
  lemma PitchExponentExact(cents: int)
    ensures PitchExponent(cents) == TruncDiv(cents * 256, 1200)
    ensures PitchExponent(cents) == TruncDiv(cents * 16, 75)
  {
    if cents >= 0 {
      NonNegativeSplit(cents);
    } else {
      NonNegativeSplit(-cents);
      var q := (-cents) / 75;
      assert TruncDiv(cents, 75) == -q;
      assert TruncMod(cents, 75) == -((-cents) - 75 * q);
    }
  }

  lemma NonNegativeSplit(c: nat)
    ensures (c / 75) * 16 + ((c - 75 * (c / 75)) * 16) / 75 == (c * 16) / 75 == (c * 256) / 1200
  {
    var q, r := c / 75, c - 75 * (c / 75);
    assert c * 16 == 75 * (q * 16) + r * 16;
    var k := (r * 16) / 75;
    DivBounds(r * 16, 75);
    DivUnique(c * 16, 75, q * 16 + k);
    DivScale(c * 16, 75, 16);
  }

  /** Everything about one exponent that the scaling uses. */
  lemma Weight(t: ExpTable, base: U32, e: int)
    requires TableOk(t) && base >= 1
    ensures base * TWO_32 <= base * Ratio(t, Fraction(e)) < 2 * (base * TWO_32)
  {
    RatioPositive(t, Fraction(e));
    MulMonotone(TWO_32, Ratio(t, Fraction(e)), base);
    MulMonotone(Ratio(t, Fraction(e)) + 1, 2 * TWO_32, base);
  }

  /** The exact scaled value rises with the exponent, inside an octave and across octaves. */
  lemma ExactRises(t: ExpTable, base: U32, e: int, e': int)
    requires TableOk(t) && base >= 1 && e <= e'
    ensures base * Ratio(t, Fraction(e)) >= 0 && base * Ratio(t, Fraction(e')) >= 0
    ensures Exact(base * Ratio(t, Fraction(e)), TWO_32, Octave(e))
            <= Exact(base * Ratio(t, Fraction(e')), TWO_32, Octave(e'))
  {
    hide Ratio, Exact;
    Weight(t, base, e);
    Weight(t, base, e');
    DivMonotone(e, e', Q24);
    var n, n' := base * Ratio(t, Fraction(e)), base * Ratio(t, Fraction(e'));
    var o, o' := Octave(e), Octave(e');
    if o == o' {
      RatioMonotone(t, Fraction(e), Fraction(e'));
      MulMonotone(Ratio(t, Fraction(e)), Ratio(t, Fraction(e')), base);
      ExactMonotone(n, n', TWO_32, o);
    } else {
      ExactMonotone(n, 2 * n', TWO_32, o);
      ExactShift(n', TWO_32, o + 1);
      ExactOctaves(n', TWO_32, o + 1, o');
    }
  }

  lemma PitchExponentMonotone(c: int, c': int)
    requires c <= c'
    ensures PitchExponent(ClampCents(c)) <= PitchExponent(ClampCents(c'))
  {
    var a, b := ClampCents(c), ClampCents(c');
    PitchExponentExact(a);
    PitchExponentExact(b);
    TruncDivMonotone(a * 16, b * 16, 75);
  }

  lemma PitchOctaves(c: int)
    ensures -21 <= Octave(PitchExponent(ClampCents(c))) <= 20
  {
    var a := ClampCents(c);
    PitchExponentExact(a);
    TruncDivMonotone(-CENTS_LIMIT * 16, a * 16, 75);
    TruncDivMonotone(a * 16, CENTS_LIMIT * 16, 75);
  }

  /** The largest interpolated ratio. */
  function TopRatio(t: ExpTable): int
    requires |t| == 256
  {
    Ratio(t, Q24 - 1)
  }

  /** When the base times the largest ratio fits 64 bits, pitch never falls as cents rise. */
  lemma PitchMonotone(t: ExpTable, base: U32, c: int, c': int)
    requires TableOk(t) && base >= 1 && base * TopRatio(t) < TWO_64 && c <= c'
    ensures PhaseWithCents(t, base, c) <= PhaseWithCents(t, base, c')
  {
    hide Ratio, Exact, PitchExponent;
    var e, e' := PitchExponent(ClampCents(c)), PitchExponent(ClampCents(c'));
    PitchExponentMonotone(c, c');
    PitchOctaves(c);
    PitchOctaves(c');
    BelowTop(t, base, e);
    BelowTop(t, base, e');
    ExactRises(t, base, e, e');
  }

  lemma BelowTop(t: ExpTable, base: U32, e: int)
    requires TableOk(t)
    ensures 0 <= base * Ratio(t, Fraction(e)) <= base * TopRatio(t)
  {
    hide Ratio;
    RatioPositive(t, Fraction(e));
    RatioMonotone(t, Fraction(e), Q24 - 1);
    MulMonotone(Ratio(t, Fraction(e)), TopRatio(t), base);
    MulMonotone(0, Ratio(t, Fraction(e)), base);
  }

  /** Every base below 2^31 satisfies the bound. */
  lemma SmallBaseFits(t: ExpTable, base: U32)
    requires TableOk(t) && base < 0x8000_0000
    ensures base * TopRatio(t) < TWO_64
  {
    hide Ratio;
    RatioPositive(t, Q24 - 1);
    MulMonotone(TopRatio(t), 2 * TWO_32, base);
  }

  lemma ExactAtOctaveZero(n: nat, d: nat)
    requires d > 0
    ensures Exact(n, d, 0) == RoundHalfUp(n, d)
  {
    assert Pow2(0) == 1;
    assert n * 1 == n;
  }

  lemma RatioOfZero(t: ExpTable)
    requires TableOk(t)
    ensures Ratio(t, 0) == TWO_32
  {
  }

  lemma ZeroExponent()
    ensures PitchExponent(ClampCents(0)) == 0 && Octave(0) == 0 && Fraction(0) == 0
  {
  }

  lemma WholeRatio(base: U32)
    ensures RoundHalfUp(base * TWO_32, TWO_32) == base && base * TWO_32 < TWO_64
  {
    RoundFromResidual(base, 0, TWO_32);
  }

  /** Zero cents leaves any playable increment alone. */
  lemma PitchIdentity(t: ExpTable, base: U32)
    requires TableOk(t) && base >= 1
    ensures PhaseWithCents(t, base, 0) == base
  {
    hide Ratio, Exact, RoundHalfUp, Pow2, Octave, Fraction, PitchExponent, ClampCents, TableOk;
    ZeroExponent();
    RatioOfZero(t);
    ExactAtOctaveZero(base * TWO_32, TWO_32);
    WholeRatio(base);
  }

  ghost predicate PitchRises(t: ExpTable, base: U32)
    requires |t| == 256
  {
    forall c, c' | c <= c' :: PhaseWithCents(t, base, c) <= PhaseWithCents(t, base, c')
  }

  /** An overflowing base saturates two octaves down but not one step above it. */
  lemma OverflowFalls(t: ExpTable, base: U32)
    requires TableOk(t) && base >= 1 && base * TopRatio(t) >= TWO_64
    ensures PhaseWithCents(t, base, -78_643_205) > PhaseWithCents(t, base, -78_643_200)
  {
    hide RoundHalfUp;
    var low, high := -78_643_205, -78_643_200;
    PitchExponentExact(low);
    PitchExponentExact(high);
    assert PitchExponent(low) == -0x100_0001 && PitchExponent(high) == -0x100_0000;
    assert Octave(-0x100_0001) == -2 && Fraction(-0x100_0001) == Q24 - 1;
    assert Octave(-0x100_0000) == -1 && Fraction(-0x100_0000) == 0;
    assert Ratio(t, 0) == TWO_32;
    assert Pow2(1) == 2;
    RoundShifted(base, 0, TWO_32, 1);
    assert Exact(base * TWO_32, TWO_32, -1) == Digit(base, 1);
  }

  /** Pitch is monotone in cents for exactly the bases whose largest product fits 64 bits. */
  lemma PitchMonotoneExactly(t: ExpTable, base: U32)
    requires TableOk(t) && base >= 1
    ensures PitchRises(t, base) <==> base * TopRatio(t) < TWO_64
  {
    if base * TopRatio(t) < TWO_64 {
      forall c, c' | c <= c'
        ensures PhaseWithCents(t, base, c) <= PhaseWithCents(t, base, c')
      {
        PitchMonotone(t, base, c, c');
      }
    } else {
      OverflowFalls(t, base);
    }
  }

  /** The code of the pitch update computes that function. */
  method ComputePhase(t: ExpTable, base: U32, centsQ16: int) returns (phase: U32)
    requires TableOk(t)
    ensures phase == PhaseWithCents(t, base, centsQ16)
  {
    var cents := ClampCents(centsQ16);
    var quotient, remainder := TruncDiv(cents, 75), TruncMod(cents, 75);
    PitchOctaves(centsQ16);
    CodedIsScaled(t, base, 1, PitchExponent(cents), 1);
    phase := ScaleU32ByExp2Q24(t, base, quotient * 16 + TruncDiv(remainder * 16, 75), 1);
  }
}
