/** Rounding to a number of digits in a base: what a binary double can hold, what a printer of
    seventeen decimal digits prints, and why the one survives the other. */
module Rounding {
  datatype Base = Binary | Decimal {
    function Up(p: real): real { if Binary? then 2.0 * p else 10.0 * p }

    function Down(p: real): real { if Binary? then p / 2.0 else p / 10.0 }
  }

  /** Whole powers of a base, also negative ones. */
  function Power(b: Base, n: int): (p: real)
    ensures p > 0.0
    decreases if n < 0 then -n else n, 1
  {
    if n == 0 then 1.0 else PowerOn(b, n)
  }

  function PowerOn(b: Base, n: int): (p: real)
    requires n != 0
    ensures p > 0.0
    decreases if n < 0 then -n else n, 0
  {
    if n > 0 then b.Up(Power(b, n - 1)) else b.Down(Power(b, n + 1))
  }

  lemma PowerNext(b: Base, n: int)
    ensures Power(b, n + 1) == b.Up(Power(b, n))
  {}

  lemma {:induction false} PowerGrows(b: Base, m: int, n: int)
    requires m <= n
    ensures Power(b, m) <= Power(b, n)
    decreases n - m
  {
    if m < n {
      PowerGrows(b, m, n - 1);
      PowerNext(b, n - 1);
    }
  }

  // ----- orders of magnitude

  lemma ReciprocalShrinks(b: Base, x: real)
    requires 0.0 < x < 1.0
    ensures b.Up(x) > 0.0 && (1.0 / b.Up(x)).Floor < (1.0 / x).Floor
  {
    assert 1.0 / b.Up(x) == b.Down(1.0 / x);
  }

  /** The exponent of the leading digit. */
  function Magnitude(b: Base, x: real): (k: int)
    requires x > 0.0
    ensures Power(b, k) <= x < Power(b, k + 1)
    decreases x < 1.0, if x < 1.0 then (1.0 / x).Floor else x.Floor
  {
    if x < 1.0 then
      ReciprocalShrinks(b, x);
      var k := Magnitude(b, b.Up(x));
      PowerNext(b, k - 1);
      PowerNext(b, k);
      k - 1
    else if x >= b.Up(1.0) then
      var k := Magnitude(b, b.Down(x));
      PowerNext(b, k);
      PowerNext(b, k + 1);
      k + 1
    else
      PowerNext(b, 0);
      0
  }

  lemma MagnitudeIs(b: Base, x: real, k: int)
    requires Power(b, k) <= x < Power(b, k + 1)
    ensures Magnitude(b, x) == k
  {
    var j := Magnitude(b, x);
    if j < k { PowerGrows(b, j + 1, k); }
    if k < j { PowerGrows(b, k + 1, j); }
  }

  // ----- rounding

  /** The nearest whole number; from halfway, the even one. */
  function Nearest(y: real): (n: int)
    ensures -0.5 <= n as real - y <= 0.5
  {
    var f := y.Floor;
    var rest := y - f as real;
    if rest < 0.5 || (rest == 0.5 && f % 2 == 0) then f else f + 1
  }

  lemma NearestIs(y: real, n: int)
    requires -0.5 < n as real - y < 0.5
    ensures Nearest(y) == n
  {}

  /** Halfway between two whole numbers the even one is taken. */
  lemma TiesToEven(y: real)
    ensures Nearest(y) as real - y == 0.5 || y - Nearest(y) as real == 0.5 ==> Nearest(y) % 2 == 0
  {}

  function Times(n: int, unit: real): real { n as real * unit }

  ghost predicate MultipleOf(x: real, unit: real) { exists n :: x == Times(n, unit) }

  /** The multiple of `unit` nearest to `x`. */
  function Round(x: real, unit: real): real
    requires unit > 0.0
  {
    Times(Nearest(x / unit), unit)
  }

  lemma Ordered(p: real, q: real, unit: real)
    requires unit > 0.0
    ensures p <= q <==> p * unit <= q * unit
    ensures p < q <==> p * unit < q * unit
  {}

  lemma Distance(y: real, n: int, unit: real)
    requires unit > 0.0
    ensures -0.5 <= n as real - y <= 0.5 ==> -unit / 2.0 <= Times(n, unit) - y * unit <= unit / 2.0
    ensures -unit / 2.0 < Times(n, unit) - y * unit < unit / 2.0 ==> -0.5 < n as real - y < 0.5
  {
    var d := n as real - y;
    assert Times(n, unit) - y * unit == d * unit;
    Ordered(d, 0.5, unit);
    Ordered(-0.5, d, unit);
  }

  lemma Quotient(x: real, unit: real)
    requires unit > 0.0
    ensures x / unit * unit == x
  {}

  lemma RoundIsNear(x: real, unit: real)
    requires unit > 0.0
    ensures -unit / 2.0 <= Round(x, unit) - x <= unit / 2.0
  {
    Quotient(x, unit);
    Distance(x / unit, Nearest(x / unit), unit);
  }

  lemma RoundIs(x: real, unit: real, r: real)
    requires unit > 0.0 && MultipleOf(r, unit) && -unit / 2.0 < r - x < unit / 2.0
    ensures Round(x, unit) == r
  {
    var n :| r == Times(n, unit);
    Quotient(x, unit);
    Distance(x / unit, n, unit);
    NearestIs(x / unit, n);
  }

  // ----- binary doubles

  const SIGNIFICAND_BITS := 53
  const LEAST_EXPONENT := -1074

  /** The exponent of the last bit a double keeps of a number of this magnitude. */
  function LastBit(magnitude: int): int {
    if magnitude - SIGNIFICAND_BITS + 1 < LEAST_EXPONENT then LEAST_EXPONENT else magnitude - SIGNIFICAND_BITS + 1
  }

  /** Rounding a positive number to a double, were there no greatest one. */
  function ToBinary(x: real): real
    requires x > 0.0
  {
    Round(x, Power(Binary, LastBit(Magnitude(Binary, x))))
  }

  const DECIMAL_DIGITS := 17

  /** The exponent of the last of seventeen decimal digits. */
  function LastDigit(x: real): int
    requires x > 0.0
  {
    Magnitude(Decimal, x) - DECIMAL_DIGITS + 1
  }

  /** Rounding a positive number to seventeen decimal digits. */
  function ToDecimal(x: real): real
    requires x > 0.0
  {
    Round(x, Power(Decimal, LastDigit(x)))
  }

  lemma FiveUp(b: Base, n: int)
    ensures Power(b, n + 5) == b.Up(b.Up(b.Up(b.Up(b.Up(Power(b, n))))))
  {
    PowerNext(b, n);
    PowerNext(b, n + 1);
    PowerNext(b, n + 2);
    PowerNext(b, n + 3);
    PowerNext(b, n + 4);
  }

  lemma DigitsUp(n: int)
    ensures Power(Decimal, n + 16) == 10_000_000_000_000_000.0 * Power(Decimal, n)
  {
    FiveUp(Decimal, n);
    FiveUp(Decimal, n + 5);
    FiveUp(Decimal, n + 10);
    PowerNext(Decimal, n + 15);
  }

  lemma BitsUp(n: int)
    ensures Power(Binary, n + 53) == 9_007_199_254_740_992.0 * Power(Binary, n)
  {
    FiveUp(Binary, n);
    FiveUp(Binary, n + 5);
    FiveUp(Binary, n + 10);
    FiveUp(Binary, n + 15);
    FiveUp(Binary, n + 20);
    FiveUp(Binary, n + 25);
    FiveUp(Binary, n + 30);
    FiveUp(Binary, n + 35);
    FiveUp(Binary, n + 40);
    FiveUp(Binary, n + 45);
    PowerNext(Binary, n + 50);
    PowerNext(Binary, n + 51);
    PowerNext(Binary, n + 52);
  }

  lemma {:induction false} PowerIsMultiple(b: Base, k: int, e: int)
    requires e <= k
    ensures MultipleOf(Power(b, k), Power(b, e))
    decreases k - e
  {
    if k == e {
      assert Power(b, e) == Times(1, Power(b, e));
    } else {
      PowerIsMultiple(b, k - 1, e);
      PowerNext(b, k - 1);
      var n :| Power(b, k - 1) == Times(n, Power(b, e));
      UpMultiple(b, n, Power(b, e));
    }
  }

  function UpInt(b: Base, n: int): int { if b.Binary? then 2 * n else 10 * n }

  lemma UpMultiple(b: Base, n: int, unit: real)
    ensures b.Up(Times(n, unit)) == Times(UpInt(b, n), unit)
    ensures b.Up(Times(n, unit)) == Times(n, b.Up(unit))
  {}

  lemma TimesOrdered(m: int, n: int, unit: real)
    requires unit > 0.0
    ensures m <= n <==> Times(m, unit) <= Times(n, unit)
  {
    Ordered(m as real, n as real, unit);
  }

  lemma TimesNext(m: int, unit: real)
    ensures Times(m + 1, unit) == Times(m, unit) + unit
  {}

  /** Two different multiples are at least a unit apart. */
  lemma MultiplesApart(x: real, y: real, unit: real)
    requires unit > 0.0 && MultipleOf(x, unit) && MultipleOf(y, unit) && x < y
    ensures x + unit <= y
  {
    var m, n :| x == Times(m, unit) && y == Times(n, unit);
    TimesOrdered(n, m, unit);
    TimesOrdered(m + 1, n, unit);
    TimesNext(m, unit);
  }

  // ----- seventeen decimal digits keep a double

  function Gap(x: real, y: real): real { if x < y then y - x else x - y }

  /** A positive double, were there no greatest one: a whole number of its last bits. */
  ghost predicate IsBinary(x: real)
    requires x > 0.0
  {
    MultipleOf(x, Power(Binary, LastBit(Magnitude(Binary, x))))
  }

  lemma LastBitFits(x: real)
    requires x > 0.0 && IsBinary(x)
    ensures LastBit(Magnitude(Binary, x)) <= Magnitude(Binary, x)
  {
    var k := Magnitude(Binary, x);
    var unit := Power(Binary, LastBit(k));
    assert 0.0 == Times(0, unit);
    MultiplesApart(0.0, x, unit);
    if LastBit(k) > k { PowerGrows(Binary, k + 1, LastBit(k)); }
  }

  /** A number closer to a double than a part in 2^54 of it rounds to that double. */
  lemma CloseRoundsBack(x: real, d: real)
    requires x > 0.0 && IsBinary(x) && 18_014_398_509_481_984.0 * Gap(x, d) < x
    ensures d > 0.0 && ToBinary(d) == x
  {
    var k := Magnitude(Binary, x);
    BitsUp(k - 53);
    PowerNext(Binary, k);
    LastBitFits(x);
    if d >= Power(Binary, k) {
      RoundsInPlace(x, d, k);
    } else {
      PowerNext(Binary, k - 53);
      OnlyPowerIsCrossed(x, d, k);
      RoundsUpToPower(d, k);
    }
  }

  /** It may have the double's own magnitude. */
  lemma RoundsInPlace(x: real, d: real, k: int)
    requires x > 0.0 && k == Magnitude(Binary, x) && LastBit(k) <= k && IsBinary(x)
    requires Gap(x, d) < Power(Binary, k - 53) && d >= Power(Binary, k)
    ensures ToBinary(d) == x
  {
    var unit := Power(Binary, LastBit(k));
    PowerGrows(Binary, k - 52, LastBit(k));
    PowerNext(Binary, k - 53);
    PowerIsMultiple(Binary, k + 1, LastBit(k));
    MultiplesApart(x, Power(Binary, k + 1), unit);
    MagnitudeIs(Binary, d, k);
    RoundIs(d, unit, x);
  }

  lemma OnlyPowerIsCrossed(x: real, d: real, k: int)
    requires x > 0.0 && k == Magnitude(Binary, x) && LastBit(k) <= k && IsBinary(x)
    requires Gap(x, d) < Power(Binary, k - 52) && d < Power(Binary, k)
    ensures x == Power(Binary, k)
  {
    PowerIsMultiple(Binary, k, LastBit(k));
    PowerGrows(Binary, k - 52, LastBit(k));
    if x > Power(Binary, k) { MultiplesApart(Power(Binary, k), x, Power(Binary, LastBit(k))); }
  }

  /** Or it lies just below a double that is a power of two, where doubles are denser. */
  lemma RoundsUpToPower(d: real, k: int)
    requires LastBit(k) <= k && 2.0 * Gap(Power(Binary, k), d) < Power(Binary, k - 53) && d < Power(Binary, k)
    ensures d > 0.0 && ToBinary(d) == Power(Binary, k)
  {
    PowerNext(Binary, k - 1);
    PowerGrows(Binary, k - 53, k - 1);
    MagnitudeIs(Binary, d, k - 1);
    PowerGrows(Binary, k - 53, LastBit(k - 1));
    PowerIsMultiple(Binary, k, LastBit(k - 1));
    RoundIs(d, Power(Binary, LastBit(k - 1)), Power(Binary, k));
  }

  lemma DecimalIsClose(x: real)
    requires x > 0.0
    ensures 18_014_398_509_481_984.0 * Gap(x, ToDecimal(x)) < x
  {
    var unit := Power(Decimal, LastDigit(x));
    DigitsUp(LastDigit(x));
    RoundIsNear(x, unit);
  }

  /** Seventeen significant digits always reproduce a double. */
  lemma DecimalKeepsBinary(x: real)
    requires x > 0.0 && IsBinary(x)
    ensures ToDecimal(x) > 0.0 && ToBinary(ToDecimal(x)) == x
  {
    DecimalIsClose(x);
    CloseRoundsBack(x, ToDecimal(x));
  }

  lemma PowerIsBinary(k: int)
    requires LEAST_EXPONENT <= k
    ensures IsBinary(Power(Binary, k))
  {
    PowerNext(Binary, k);
    MagnitudeIs(Binary, Power(Binary, k), k);
    PowerIsMultiple(Binary, k, LastBit(k));
  }

  /** Rounding does not pass a multiple. */
  lemma RoundBetween(x: real, unit: real, low: real, high: real)
    requires unit > 0.0 && MultipleOf(low, unit) && MultipleOf(high, unit) && low <= x <= high
    ensures low <= Round(x, unit) <= high
  {
    var r := Round(x, unit);
    RoundIsNear(x, unit);
    assert MultipleOf(r, unit);
    if r < low { MultiplesApart(r, low, unit); }
    if r > high { MultiplesApart(high, r, unit); }
  }

  /** What has been rounded to a double is one, also when it was rounded up to the next power of two. */
  lemma ToBinaryIsBinary(x: real)
    requires x > 0.0 && ToBinary(x) > 0.0
    ensures IsBinary(ToBinary(x))
  {
    var k := Magnitude(Binary, x);
    var unit, r := Power(Binary, LastBit(k)), ToBinary(x);
    assert MultipleOf(r, unit);
    if LastBit(k) <= k {
      PowerIsMultiple(Binary, k, LastBit(k));
      PowerIsMultiple(Binary, k + 1, LastBit(k));
      RoundBetween(x, unit, Power(Binary, k), Power(Binary, k + 1));
      if r == Power(Binary, k + 1) { PowerIsBinary(k + 1); } else { MagnitudeIs(Binary, r, k); }
    } else {
      PowerGrows(Binary, k + 1, LastBit(k));
      assert 0.0 == Times(0, unit) && unit == Times(1, unit);
      RoundBetween(x, unit, 0.0, unit);
      MultiplesApart(0.0, r, unit);
      PowerIsBinary(LastBit(k));
    }
  }

  lemma NotBelowNothing(x: real)
    requires x > 0.0
    ensures ToBinary(x) >= 0.0
  {
    var unit, r := Power(Binary, LastBit(Magnitude(Binary, x))), ToBinary(x);
    RoundIsNear(x, unit);
    assert MultipleOf(r, unit) && 0.0 == Times(0, unit);
    if r < 0.0 { MultiplesApart(r, 0.0, unit); }
  }

  // ----- signs and the greatest double

  const GREATEST := Times(0x1F_FFFF_FFFF_FFFF, Power(Binary, 971))

  function Magnified(x: real): real { if x < 0.0 then -x else x }

  ghost predicate IsDouble(x: real) {
    x == 0.0 || (IsBinary(Magnified(x)) && Magnified(x) <= GREATEST)
  }

  function Signed(negative: bool, x: real): real { if negative then -x else x }

  lemma {:induction false} MultipleOfMultiple(x: real, y: real, unit: real)
    requires MultipleOf(x, y) && MultipleOf(y, unit)
    ensures MultipleOf(x, unit)
  {
    var m, n :| x == Times(m, y) && y == Times(n, unit);
    assert x == Times(m * n, unit);
  }

  /** The greatest double is one. */
  lemma GreatestIsBinary()
    ensures GREATEST > 0.0 && IsBinary(GREATEST)
  {
    BitsUp(971);
    PowerNext(Binary, 1023);
    MagnitudeIs(Binary, GREATEST, 1023);
  }

  /** One more unit in its last place would make it two to the 1024th. */
  lemma GreatestIsGreatest()
    ensures GREATEST + Power(Binary, 971) == Power(Binary, 1024)
  {
    BitsUp(971);
    PowerNext(Binary, 1023);
  }

  /** The smallest double is two to the -1074th. */
  lemma SmallestIsSmallest(x: real)
    requires 0.0 < x < Power(Binary, -1074)
    ensures !IsBinary(x) && IsBinary(Power(Binary, -1074))
  {
    PowerIsBinary(-1074);
    var k := Magnitude(Binary, x);
    if LastBit(k) > -1074 { PowerGrows(Binary, -1073, k); }
    var unit := Power(Binary, LastBit(k));
    PowerGrows(Binary, -1074, LastBit(k));
    assert 0.0 == Times(0, unit) && unit == Times(1, unit);
    if IsBinary(x) { MultiplesApart(0.0, x, unit); }
  }

  /** Whole amounts below 2^53 are doubles. */
  lemma WholeIsDouble(n: int)
    requires -9_007_199_254_740_992 < n < 9_007_199_254_740_992
    ensures IsDouble(n as real)
  {
    if n != 0 {
      var m := if n < 0 then -n else n;
      var x := m as real;
      var k := Magnitude(Binary, x);
      BitsUp(0);
      if k >= 53 { PowerGrows(Binary, 53, k); }
      PowerIsMultiple(Binary, 0, LastBit(k));
      assert x == Times(m, Power(Binary, 0));
      MultipleOfMultiple(x, Power(Binary, 0), Power(Binary, LastBit(k)));
      PowerGrows(Binary, 0, 971);
      Ordered(1.0, Power(Binary, 971), 9_007_199_254_740_991.0);
      assert Magnified(n as real) == x;
    }
  }

  /** A tenth is not. */
  lemma TenthIsNotDouble()
    ensures !IsDouble(0.1)
  {
    BitsUp(-56);
    PowerNext(Binary, -1);
    PowerNext(Binary, -2);
    PowerNext(Binary, -3);
    PowerNext(Binary, -4);
    MagnitudeIs(Binary, 0.1, -4);
    var unit := Power(Binary, -56);
    forall n ensures 0.1 != Times(n, unit) { NoMultiple(n, unit); }
  }

  lemma NoMultiple(n: int, unit: real)
    requires 72_057_594_037_927_936.0 * unit == 1.0
    ensures Times(n, unit) != 0.1
  {
    assert 72_057_594_037_927_936.0 * Times(n, unit) == n as real;
  }
}
