/**
  Facilities of the Arduino core that the device library and the sketches rely on:
  fixed-width unsigned conversions, the `constrain` macro and the library function `map()`.
*/
module Arduino {

  type byte = x: int | 0 <= x < 0x100
  type uint16 = x: int | 0 <= x < 0x1_0000
  type uint32 = x: int | 0 <= x < 0x1_0000_0000

  /** Conversion of a `long` to `uint8_t`: the value modulo 2^8. */
  function ToUint8(x: int): (r: byte)
    ensures 0 <= x < 0x100 ==> r == x
    ensures (x - r) % 0x100 == 0
  {
    x % 0x100
  }

  /** Conversion of a `long` to `uint16_t`: the value modulo 2^16. */
  function ToUint16(x: int): (r: uint16)
    ensures 0 <= x < 0x1_0000 ==> r == x
    ensures (x - r) % 0x1_0000 == 0
  {
    x % 0x1_0000
  }

  /** The `constrain(amt, low, high)` macro: the point of [low, high] nearest to `amt`. */
  function Constrain(amt: int, low: int, high: int): (r: int)
    ensures low <= high ==> low <= r <= high
    ensures low <= amt <= high ==> r == amt
    ensures amt < low ==> r == low
    ensures low <= high < amt ==> r == high
  {
    if amt < low then low else if amt > high then high else amt
  }

  /** C's integer division, which truncates toward zero. */
  function CDiv(n: int, d: int): (q: int)
    requires d != 0
    ensures n >= 0 && d > 0 ==> q == n / d
    ensures n < 0 && d > 0 ==> q == -((-n) / d)
  {
    var a := if n < 0 then -n else n;
    var b := if d < 0 then -d else d;
    if (n < 0) != (d < 0) then -(a / b) else a / b
  }

  /**
    `map(x, inMin, inMax, outMin, outMax)`. Its rounding rule differs between Arduino cores, so
    the model takes it as a parameter of this type and states only what WithinOneUnit says.
  */
  type MapFn = (int, int, int, int, int) -> int

  /**
    The ranges for which `map()`'s arithmetic on the 32-bit `long` cannot overflow: the largest
    scaled offset (x - inMin) * (outMax - outMin), plus the rounding term some cores add (at most
    inMax - inMin), stays at or below 2^31 - 1.
  */
  predicate FitsLong(inMin: int, inMax: int, outMin: int, outMax: int) {
    0 <= (inMax - inMin) * (outMax - outMin) + (inMax - inMin) <= 0x7FFF_FFFF
  }

  /**
    What every linear integer range map satisfies on in-range inputs whose arithmetic fits a
    `long`: the result differs from the exact value
    outMin + (x - inMin) * (outMax - outMin) / (inMax - inMin) by less than one.
  */
  ghost predicate WithinOneUnit(f: MapFn) {
    forall x: int, inMin: int, inMax: int, outMin: int, outMax: int ::
      inMin < inMax && inMin <= x <= inMax && outMin <= outMax && FitsLong(inMin, inMax, outMin, outMax) ==>
        -(inMax - inMin)
          < (f(x, inMin, inMax, outMin, outMax) - outMin) * (inMax - inMin) - (x - inMin) * (outMax - outMin)
          < inMax - inMin
  }

  /** For a positive m, a multiple k * m strictly between -m and m has k == 0. */
  lemma ZeroFromBounds(k: int, m: int)
    requires m > 0 && -m < k * m < m
    ensures k == 0
  {
  }

  /** Integer division by a positive d is exact for a quotient q and a remainder in 0..d-1. */
  lemma DivModUnique(q: int, rest: int, d: int)
    requires d > 0 && 0 <= rest < d
    ensures (q * d + rest) / d == q && (q * d + rest) % d == rest
  {
    var n := q * d + rest;
    assert (n / d - q) * d == rest - n % d;
    ZeroFromBounds(n / d - q, d);
  }

  /** For a positive m, k * m > -m forces k >= 0. */
  lemma QuotientLowerBound(k: int, m: int)
    requires m > 0 && k * m > -m
    ensures k >= 0
  {
    if k < 0 {
      assert (k + 1) * m == k * m + m;
      MultiplyNonPositive(k + 1, m);
    }
  }

  /** For a positive m, k * m < d * m + m forces k <= d. */
  lemma QuotientUpperBound(k: int, m: int, d: int)
    requires m > 0 && k * m < d * m + m
    ensures k <= d
  {
    if k > d {
      assert (k - d - 1) * m == k * m - d * m - m;
      MultiplyNonPositive(d + 1 - k, m);
    }
  }

  lemma MultiplyNonPositive(a: int, m: int)
    requires a <= 0 && m > 0
    ensures a * m <= 0
  {
  }

  /** 0 <= (x - inMin) * (outMax - outMin) <= (inMax - inMin) * (outMax - outMin) on in-range inputs. */
  lemma ScaledOffsetBounds(x: int, inMin: int, inMax: int, outMin: int, outMax: int)
    requires inMin <= x <= inMax && outMin <= outMax
    ensures 0 <= (x - inMin) * (outMax - outMin) <= (inMax - inMin) * (outMax - outMin)
  {
    assert (inMax - x) * (outMax - outMin) >= 0;
  }

  /**
    A map within one unit sends in-range inputs into the output range and the two ends of the
    input range exactly onto the two ends of the output range.
  */
  lemma MapInRange(f: MapFn, x: int, inMin: int, inMax: int, outMin: int, outMax: int)
    requires WithinOneUnit(f)
    requires inMin < inMax && inMin <= x <= inMax && outMin <= outMax
    requires FitsLong(inMin, inMax, outMin, outMax)
    ensures outMin <= f(x, inMin, inMax, outMin, outMax) <= outMax
    ensures x == inMin ==> f(x, inMin, inMax, outMin, outMax) == outMin
    ensures x == inMax ==> f(x, inMin, inMax, outMin, outMax) == outMax
  {
    var r := f(x, inMin, inMax, outMin, outMax);
    var m := inMax - inMin;
    var d := outMax - outMin;
    var k := r - outMin;
    var n := (x - inMin) * d;
    assert -m < k * m - n < m;
    ScaledOffsetBounds(x, inMin, inMax, outMin, outMax);
    assert 0 <= n <= m * d;
    QuotientLowerBound(k, m);
    assert k * m < d * m + m;
    QuotientUpperBound(k, m, d);
    if x == inMin {
      ZeroFromBounds(k, m);
    }
    if x == inMax {
      assert (k - d) * m == k * m - m * d;
      ZeroFromBounds(k - d, m);
    }
  }

  /**
    The classic formula of the Arduino reference, `(x - inMin) * (outMax - outMin) / (inMax - inMin)
    + outMin` with C's division; a zero-width input range, which the formula divides by, gives outMin.
  */
  function TruncatingMap(x: int, inMin: int, inMax: int, outMin: int, outMax: int): int {
    if inMin == inMax then outMin
    else CDiv((x - inMin) * (outMax - outMin), inMax - inMin) + outMin
  }

  /** The truncating formula is one of the maps WithinOneUnit admits. */
  lemma TruncatingMapWithinOneUnit()
    ensures WithinOneUnit(TruncatingMap)
  {
    forall x: int, inMin: int, inMax: int, outMin: int, outMax: int |
      inMin < inMax && inMin <= x <= inMax && outMin <= outMax && FitsLong(inMin, inMax, outMin, outMax)
      ensures -(inMax - inMin)
          < (TruncatingMap(x, inMin, inMax, outMin, outMax) - outMin) * (inMax - inMin) - (x - inMin) * (outMax - outMin)
          < inMax - inMin
    {
      ScaledOffsetBounds(x, inMin, inMax, outMin, outMax);
      TruncationError((x - inMin) * (outMax - outMin), inMax - inMin);
    }
  }

  /** Truncating a non-negative quotient loses less than one divisor. */
  lemma TruncationError(n: int, m: int)
    requires n >= 0 && m > 0
    ensures -m < CDiv(n, m) * m - n < m
  {
    assert CDiv(n, m) == n / m;
    assert n == n / m * m + n % m;
  }
}
