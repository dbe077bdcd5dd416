/** Amounts as text: printed with seventeen significant digits, fixed or scientific, and read back as
    the nearest double. */
module Amounts {
  import opened Types
  import opened Text
  import opened Rounding

  // ----- printing

  function Zeros(n: int): (s: string)
    ensures |s| == if n < 0 then 0 else n
  {
    if n <= 0 then "" else Zeros(n - 1) + "0"
  }

  /** Digits and the exponent of the last of them. */
  datatype Decimals = Decimals(number: nat, last: int)

  /** The same number without the zeros it ends in. */
  function Stripped(d: Decimals): (s: Decimals)
    requires d.number > 0
    ensures s.number > 0
    decreases d.number
  {
    if d.number % 10 == 0 then Stripped(Decimals(d.number / 10, d.last + 1)) else d
  }

  /** At least two digits. */
  function Padded(n: nat): string { Zeros(2 - |PrintNat(n)|) + PrintNat(n) }

  function Exponent(x: int): string { if x < 0 then "-" + Padded(-x) else "+" + Padded(x) }

  /** The end of a number in scientific notation. */
  function Tail(x: int): string { "e" + Exponent(x) }

  function WithPoint(whole: string, fraction: string): string {
    if fraction == "" then whole else whole + "." + fraction
  }

  /** An unsigned numeral: digits before and after the point, and the exponent. */
  datatype Numeral = Numeral(whole: string, fraction: string, exponent: int)

  /** Without an exponent if the leading digit's exponent is from -4 to 16, else with one. */
  predicate IsFixed(digits: string, last: int) { -4 <= |digits| - 1 + last < DECIMAL_DIGITS }

  function LaidOut(digits: string, last: int): Numeral
    requires digits != ""
  {
    var leading := |digits| - 1 + last;
    if !IsFixed(digits, last) then Numeral(digits[..1], digits[1..], leading)
    else if last >= 0 then Numeral(digits + Zeros(last), "", 0)
    else if leading >= 0 then Numeral(digits[..leading + 1], digits[leading + 1..], 0)
    else Numeral("0", Zeros(-leading - 1) + digits, 0)
  }

  function Written(n: Numeral, fixed: bool): string {
    WithPoint(n.whole, n.fraction) + if fixed then "" else Tail(n.exponent)
  }

  function Layout(digits: string, last: int): string
    requires digits != ""
  {
    Written(LaidOut(digits, last), IsFixed(digits, last))
  }

  lemma AtLeastOne(x: real, unit: real)
    requires 0.0 < unit <= x
    ensures 1.0 <= x / unit
  {}

  lemma DigitsKept(x: real)
    requires x > 0.0
    ensures Nearest(x / Power(Decimal, LastDigit(x))) > 0
  {
    DigitsUp(LastDigit(x));
    AtLeastOne(x, Power(Decimal, LastDigit(x)));
  }

  /** The seventeen digits nearest to a number. */
  function RoundedDigits(x: real): (d: Decimals)
    requires x > 0.0
    ensures d.number > 0
  {
    DigitsKept(x);
    Decimals(Nearest(x / Power(Decimal, LastDigit(x))), LastDigit(x))
  }

  function ShowMagnitude(x: real): string
    requires x > 0.0
  {
    var d := Stripped(RoundedDigits(x));
    Layout(PrintNat(d.number), d.last)
  }

  function ShowAmount(x: real): string {
    if x == 0.0 then "0" else if x < 0.0 then "-" + ShowMagnitude(-x) else ShowMagnitude(x)
  }

  // ----- reading

  function ScanExponent(s: string, mantissa: Numeral, used: nat): Option<(Numeral, nat)>
    requires used <= |s|
  {
    if used < |s| && (s[used] == 'e' || s[used] == 'E') then
      match ScanInt(s[used + 1..])
      case Scanned(x, k) => Some((mantissa.(exponent := x), used + 1 + k))
      case Unreadable(_) => None
    else Some((mantissa, used))
  }

  /** The digits before and after the point, and where they end. */
  function ScanMantissa(s: string): (r: Option<(Numeral, nat)>)
    ensures r.Some? ==> r.value.1 <= |s|
  {
    var a := DigitEnd(s);
    var point := a < |s| && s[a] == '.';
    var b := if point then DigitEnd(s[a + 1..]) else 0;
    var end := if point then a + 1 + b else a;
    if a + b == 0 then None else Some((Numeral(s[..a], if point then s[a + 1..end] else "", 0), end))
  }

  /** An exponent mark without digits behind it spoils the number. */
  function ScanNumeral(s: string): Option<(Numeral, nat)> {
    match ScanMantissa(s)
    case None => None
    case Some((mantissa, end)) => ScanExponent(s, mantissa, end)
  }

  function NumeralValue(n: Numeral): real {
    Times(Value(n.whole + n.fraction), Power(Decimal, n.exponent - |n.fraction|))
  }

  /** The double nearest to what a numeral says, and no more than the greatest. */
  function Capped(d: real): real {
    if d <= 0.0 then 0.0 else if ToBinary(d) > GREATEST then GREATEST else ToBinary(d)
  }

  /** A number beyond the greatest double fails, and gives that one. */
  function NearestDouble(negative: bool, d: real, used: nat): Scanned<real> {
    if d > 0.0 && ToBinary(d) > GREATEST then Unreadable(Signed(negative, Capped(d)))
    else Scanned(Signed(negative, Capped(d)), used)
  }

  function ScanAmount(s: string): Scanned<real> {
    match ScanNumeral(s[SignEnd(s)..])
    case None => Unreadable(0.0)
    case Some((n, used)) => NearestDouble(IsMinus(s), NumeralValue(n), SignEnd(s) + used)
  }

  // ----- numerals read back

  /** A text begins with these digits before and after the point, and with no more of them. */
  ghost predicate BeginsWith(s: string, whole: string, fraction: string) {
    var a := |whole|;
    DigitEnd(s) == a && s[..a] == whole && ((a < |s| && s[a] == '.') <==> fraction != "") &&
    (fraction != "" ==>
       DigitEnd(s[a + 1..]) == |fraction| && s[a + 1..a + 1 + |fraction|] == fraction)
  }

  lemma WholeBegins(whole: string, rest: string)
    requires AllDigits(whole) && (rest == "" || (!IsDigit(rest[0]) && rest[0] != '.'))
    ensures BeginsWith(whole + rest, whole, "")
  {
    DigitsEndAt(whole, rest);
  }

  lemma FractionBegins(whole: string, fraction: string, rest: string)
    requires AllDigits(whole) && AllDigits(fraction) && fraction != "" && (rest == "" || !IsDigit(rest[0]))
    ensures BeginsWith(WithPoint(whole, fraction) + rest, whole, fraction)
  {
    var s := WithPoint(whole, fraction) + rest;
    assert s == whole + ("." + (fraction + rest)) && s[|whole| + 1..] == fraction + rest;
    DigitsEndAt(whole, "." + (fraction + rest));
    DigitsEndAt(fraction, rest);
  }

  lemma ScansMantissa(s: string, whole: string, fraction: string)
    requires BeginsWith(s, whole, fraction) && whole != ""
    ensures ScanMantissa(s) == Some((Numeral(whole, fraction, 0), |WithPoint(whole, fraction)|))
  {}

  lemma {:induction false} ZerosAreDigits(n: int)
    ensures AllDigits(Zeros(n))
  {
    if n > 0 { ZerosAreDigits(n - 1); }
  }

  lemma {:induction false} ZerosBefore(n: int, digits: string)
    ensures Value(Zeros(n) + digits) == Value(digits)
    decreases |digits|, if n < 0 then 0 else n
  {
    var s := Zeros(n) + digits;
    if digits != "" {
      assert s[..|s| - 1] == Zeros(n) + digits[..|digits| - 1];
      ZerosBefore(n, digits[..|digits| - 1]);
    } else if n > 0 {
      assert s[..|s| - 1] == Zeros(n - 1) + digits;
      ZerosBefore(n - 1, digits);
    }
  }

  lemma {:induction false} ZerosAfter(n: nat, digits: string)
    ensures Value(digits + Zeros(n)) as real == Times(Value(digits), Power(Decimal, n))
  {
    var s := digits + Zeros(n);
    if n == 0 {
      assert s == digits;
    } else {
      assert s[..|s| - 1] == digits + Zeros(n - 1);
      ZerosAfter(n - 1, digits);
      PowerNext(Decimal, n - 1);
      UpMultiple(Decimal, Value(digits), Power(Decimal, n - 1));
    }
  }

  lemma PaddedReads(n: nat)
    ensures AllDigits(Padded(n)) && Padded(n) != "" && Value(Padded(n)) == n
  {
    NatRoundTrip(n);
    ZerosAreDigits(2 - |PrintNat(n)|);
    ZerosBefore(2 - |PrintNat(n)|, PrintNat(n));
  }

  lemma SignedIsWord(sign: char, digits: string)
    requires AllDigits(digits) && !IsSpace(sign)
    ensures IsWord([sign] + digits)
  {}

  lemma ExponentReads(x: int)
    ensures ScanInt(Exponent(x)) == Scanned(x, |Exponent(x)|) && IsWord(Exponent(x))
  {
    var digits := Padded(if x < 0 then -x else x);
    PaddedReads(if x < 0 then -x else x);
    SignedScan(if x < 0 then "-" else "+", digits);
    SignedIsWord(if x < 0 then '-' else '+', digits);
  }

  /** A word without a sign that is a numeral to its end. */
  ghost predicate Scans(s: string, n: Numeral) {
    IsWord(s) && s[0] != '-' && s[0] != '+' && ScanNumeral(s) == Some((n, |s|))
  }

  lemma PointIsWord(whole: string, fraction: string, rest: string)
    requires AllDigits(whole) && AllDigits(fraction) && whole != "" && (rest == "" || IsWord(rest))
    ensures
      var s := WithPoint(whole, fraction) + rest;
      IsWord(s) && s[0] != '-' && s[0] != '+'
  {
    var s := WithPoint(whole, fraction) + rest;
    assert s[0] == whole[0] && whole[0] in whole;
    forall c | c in s ensures !IsSpace(c) {
      assert c in whole || c in "." || c in fraction || c in rest;
    }
  }

  lemma ExponentScans(mantissa: string, exponent: string, n: Numeral, x: int)
    requires ScanInt(exponent) == Scanned(x, |exponent|)
    ensures
      var s := mantissa + ("e" + exponent);
      ScanExponent(s, n, |mantissa|) == Some((n.(exponent := x), |s|))
  {
    assert (mantissa + ("e" + exponent))[|mantissa| + 1..] == exponent;
  }

  lemma TailReads(mantissa: string, n: Numeral, x: int)
    ensures IsWord(Tail(x)) && !IsDigit(Tail(x)[0]) && Tail(x)[0] != '.'
    ensures ScanExponent(mantissa + Tail(x), n, |mantissa|) == Some((n.(exponent := x), |mantissa + Tail(x)|))
  {
    ExponentReads(x);
    SignedTail(Exponent(x));
    ExponentScans(mantissa, Exponent(x), n, x);
  }

  lemma SignedTail(s: string)
    requires IsWord(s)
    ensures IsWord("e" + s)
  {
    forall c | c in "e" + s ensures !IsSpace(c) { assert c in "e" || c in s; }
  }

  /** What a numeral is made of. */
  ghost predicate WellMade(n: Numeral) { AllDigits(n.whole) && AllDigits(n.fraction) && n.whole != "" }

  lemma WrittenScans(n: Numeral, fixed: bool)
    requires WellMade(n) && (fixed ==> n.exponent == 0)
    ensures Scans(Written(n, fixed), n)
  {
    var mantissa, tail := WithPoint(n.whole, n.fraction), if fixed then "" else Tail(n.exponent);
    if !fixed { TailReads(mantissa, Numeral(n.whole, n.fraction, 0), n.exponent); }
    if n.fraction == "" { WholeBegins(n.whole, tail); } else { FractionBegins(n.whole, n.fraction, tail); }
    ScansMantissa(Written(n, fixed), n.whole, n.fraction);
    PointIsWord(n.whole, n.fraction, tail);
  }

  lemma LaidOutWell(digits: string, last: int)
    requires AllDigits(digits) && digits != ""
    ensures WellMade(LaidOut(digits, last)) && (IsFixed(digits, last) ==> LaidOut(digits, last).exponent == 0)
  {
    ZerosAreDigits(last);
    ZerosAreDigits(-(|digits| - 1 + last) - 1);
  }

  lemma SmallValue(zeros: nat, digits: string)
    ensures Value("0" + (Zeros(zeros) + digits)) == Value(digits)
  {
    ZerosBefore(zeros, digits);
    assert "0" == Zeros(0) + "0" == Zeros(1);
    ZerosBefore(1, Zeros(zeros) + digits);
  }

  lemma ValueOf(n: Numeral, digits: string, last: int)
    requires Value(n.whole + n.fraction) == Value(digits) && n.exponent - |n.fraction| == last
    ensures NumeralValue(n) == Times(Value(digits), Power(Decimal, last))
  {}

  lemma WholeValue(whole: string)
    ensures NumeralValue(Numeral(whole, "", 0)) == Value(whole) as real
  {
    assert whole + "" == whole;
  }

  /** Whatever its layout, the text stands for the number it was printed from. */
  lemma LayoutValue(digits: string, last: int)
    requires digits != ""
    ensures NumeralValue(LaidOut(digits, last)) == Times(Value(digits), Power(Decimal, last))
  {
    var n, leading := LaidOut(digits, last), |digits| - 1 + last;
    if IsFixed(digits, last) && last >= 0 {
      WholeValue(digits + Zeros(last));
      ZerosAfter(last, digits);
    } else {
      if IsFixed(digits, last) && leading < 0 {
        SmallValue(-leading - 1, digits);
      } else {
        assert n.whole + n.fraction == digits;
      }
      ValueOf(n, digits, last);
    }
  }

  lemma {:induction false} StrippedIsSame(d: Decimals)
    requires d.number > 0
    ensures Times(Stripped(d).number, Power(Decimal, Stripped(d).last)) == Times(d.number, Power(Decimal, d.last))
    decreases d.number
  {
    if d.number % 10 == 0 {
      StrippedIsSame(Decimals(d.number / 10, d.last + 1));
      PowerNext(Decimal, d.last);
      UpMultiple(Decimal, d.number / 10, Power(Decimal, d.last));
    }
  }

  /** What is printed reads as the number of seventeen digits nearest to what was to be printed. */
  lemma ShownScans(x: real)
    requires x > 0.0
    ensures exists n :: Scans(ShowMagnitude(x), n) && NumeralValue(n) == ToDecimal(x)
  {
    var d := RoundedDigits(x);
    var s := Stripped(d);
    var digits := PrintNat(s.number);
    StrippedIsSame(d);
    NatRoundTrip(s.number);
    LaidOutWell(digits, s.last);
    WrittenScans(LaidOut(digits, s.last), IsFixed(digits, s.last));
    LayoutValue(digits, s.last);
    assert Scans(ShowMagnitude(x), LaidOut(digits, s.last)) && NumeralValue(LaidOut(digits, s.last)) == ToDecimal(x);
  }

  // ----- the round trip

  /** Printing an amount and reading it back gives the double nearest to its first seventeen digits. */
  function Reread(x: real): Scanned<real> { ScanAmount(ShowAmount(x)) }

  lemma AmountIsWord(x: real)
    ensures IsWord(ShowAmount(x))
  {
    if x != 0.0 {
      ShownScans(Magnified(x));
      MinusIsWord(ShowMagnitude(Magnified(x)));
    }
  }

  lemma SignSkipped(negative: bool, s: string)
    requires s != "" && s[0] != '-' && s[0] != '+'
    ensures
      var signed := (if negative then "-" else "") + s;
      IsMinus(signed) == negative && SignEnd(signed) + |s| == |signed| && signed[SignEnd(signed)..] == s
  {}

  lemma SignedScans(negative: bool, s: string, n: Numeral)
    requires Scans(s, n)
    ensures
      var signed := (if negative then "-" else "") + s;
      ScanAmount(signed) == NearestDouble(negative, NumeralValue(n), |signed|)
  {
    SignSkipped(negative, s);
  }

  lemma RereadIs(x: real)
    requires x != 0.0
    ensures Reread(x) == NearestDouble(x < 0.0, ToDecimal(Magnified(x)), |ShowAmount(x)|)
  {
    var s := ShowMagnitude(Magnified(x));
    ShownScans(Magnified(x));
    var n :| Scans(s, n) && NumeralValue(n) == ToDecimal(Magnified(x));
    SignedScans(x < 0.0, s, n);
    assert "" + s == s;
  }

  lemma ZeroIsReread()
    ensures Reread(0.0) == Scanned(0.0, 1)
  {
    var n := Numeral("0", "", 0);
    WrittenScans(n, true);
    assert Written(n, true) == "0";
    SignedScans(false, "0", n);
    assert "" + "0" == "0";
    assert Value("0") == 0 by { assert "0"[..0] == ""; }
    WholeValue("0");
  }

  /** A positive number comes through seventeen digits and back exactly if it is a double. */
  lemma KeptExactly(m: real)
    requires m > 0.0
    ensures ToDecimal(m) > 0.0 && ToBinary(ToDecimal(m)) == m <==> IsBinary(m)
  {
    if IsBinary(m) { DecimalKeepsBinary(m); }
    if ToDecimal(m) > 0.0 && ToBinary(ToDecimal(m)) == m { ToBinaryIsBinary(ToDecimal(m)); }
  }

  lemma CappedIs(m: real)
    requires m > 0.0
    ensures Capped(ToDecimal(m)) == m <==> IsBinary(m) && m <= GREATEST
    ensures IsBinary(m) ==> ToDecimal(m) > 0.0 && ToBinary(ToDecimal(m)) == m
  {
    KeptExactly(m);
    GreatestIsBinary();
  }

  lemma SignedBack(x: real, m: real)
    ensures Signed(x < 0.0, m) == x <==> m == Magnified(x)
  {}

  lemma NonzeroRoundTrip(x: real, reread: Scanned<real>, used: nat)
    requires x != 0.0 && reread == NearestDouble(x < 0.0, ToDecimal(Magnified(x)), used)
    ensures IsDouble(x) ==> reread == Scanned(x, used)
    ensures reread.value == x ==> IsDouble(x)
  {
    var m := Magnified(x);
    CappedIs(m);
    SignedBack(x, Capped(ToDecimal(m)));
    if IsDouble(x) { assert ToBinary(ToDecimal(m)) == m <= GREATEST; }
  }

  /** An amount is read back exactly, and to the end of its text, if and only if it is a double. */
  lemma AmountRoundTrip(x: real)
    ensures IsDouble(x) ==> Reread(x) == Scanned(x, |ShowAmount(x)|)
    ensures Reread(x).value == x ==> IsDouble(x)
    ensures IsWord(ShowAmount(x))
  {
    AmountIsWord(x);
    if x == 0.0 {
      ZeroIsReread();
    } else {
      RereadIs(x);
      NonzeroRoundTrip(x, Reread(x), |ShowAmount(x)|);
    }
  }

  lemma BinaryIsDouble(x: real)
    requires x >= 0.0 && (x > 0.0 ==> IsBinary(x) && x <= GREATEST)
    ensures IsDouble(x)
  {}

  lemma CappedIsDouble(d: real)
    ensures IsDouble(Capped(d)) && Capped(d) >= 0.0
  {
    var x := Capped(d);
    GreatestIsBinary();
    if d > 0.0 {
      NotBelowNothing(d);
      if ToBinary(d) > 0.0 { ToBinaryIsBinary(d); }
    }
    BinaryIsDouble(x);
  }

  lemma SignedIsDouble(negative: bool, x: real)
    requires IsDouble(x) && x >= 0.0
    ensures IsDouble(Signed(negative, x))
  {}

  /** Whatever is read, the amount set is a double. */
  lemma ScannedIsDouble(s: string)
    ensures IsDouble(ScanAmount(s).value)
  {
    match ScanNumeral(s[SignEnd(s)..])
    case None =>
    case Some((n, used)) =>
      CappedIsDouble(NumeralValue(n));
      SignedIsDouble(IsMinus(s), Capped(NumeralValue(n)));
  }

  /** A tenth is printed as the nearest double is, and read back as that one. */
  lemma TenthIsNotReadBack()
    ensures Reread(0.1).value != 0.1
  {
    TenthIsNotDouble();
    ScannedIsDouble(ShowAmount(0.1));
  }

  // ----- how a number is laid out

  function TenTo(k: nat): nat { if k == 0 then 1 else 10 * TenTo(k - 1) }

  lemma {:induction false} PrintedLength(n: nat)
    requires n > 0
    ensures TenTo(|PrintNat(n)| - 1) <= n < TenTo(|PrintNat(n)|)
  {
    if n >= 10 { PrintedLength(n / 10); } else { assert TenTo(1) == 10; }
  }

  /** The exponent of the leading digit of `k` is that of the number. */
  lemma LeadingExponent(n: nat, last: int, k: nat, x: real)
    requires k > 0 && TenTo(k - 1) <= n < TenTo(k) && x == Times(n, Power(Decimal, last))
    ensures x > 0.0 && Magnitude(Decimal, x) == last + k - 1
  {
    TenToPositive(k - 1);
    Scaled(TenTo(k - 1), last, k - 1);
    Scaled(TenTo(k), last, k);
    BetweenMultiples(TenTo(k - 1), n, TenTo(k), Power(Decimal, last));
    MagnitudeBetween(x, Power(Decimal, last + (k - 1)), Power(Decimal, last + k), last + k - 1);
  }

  lemma MagnitudeBetween(x: real, low: real, high: real, k: int)
    requires low == Power(Decimal, k) && high == Power(Decimal, k + 1) && low <= x < high && low > 0.0
    ensures Magnitude(Decimal, x) == k
  {
    MagnitudeIs(Decimal, x, k);
  }

  lemma BetweenMultiples(low: nat, n: nat, high: nat, unit: real)
    requires unit > 0.0 && low <= n < high && low > 0
    ensures 0.0 < Times(low, unit) <= Times(n, unit) < Times(high, unit)
  {
    TimesOrdered(low, n, unit);
    TimesOrdered(high, n, unit);
    TimesOrdered(low, 0, unit);
  }

  lemma {:induction false} TenToPositive(k: nat)
    ensures TenTo(k) > 0
  {
    if k > 0 { TenToPositive(k - 1); }
  }

  lemma {:induction false} Scaled(n: nat, last: int, k: nat)
    requires n == TenTo(k)
    ensures Times(n, Power(Decimal, last)) == Power(Decimal, last + k)
    decreases k
  {
    if k > 0 {
      Scaled(TenTo(k - 1), last, k - 1);
      PowerNext(Decimal, last + k - 1);
      UpMultiple(Decimal, TenTo(k - 1), Power(Decimal, last));
    }
  }

  lemma {:induction false} StrippedEndsInNoZero(d: Decimals)
    requires d.number > 0
    ensures Stripped(d).number % 10 != 0
    decreases d.number
  {
    if d.number % 10 == 0 { StrippedEndsInNoZero(Decimals(d.number / 10, d.last + 1)); }
  }

  lemma LastDigitPrinted(n: nat)
    requires n % 10 != 0
    ensures PrintNat(n)[|PrintNat(n)| - 1] != '0'
  {
    assert PrintNat(n)[|PrintNat(n)| - 1] == DIGITS[n % 10];
  }

  lemma MarkInWritten(n: Numeral, fixed: bool)
    requires AllDigits(n.whole) && AllDigits(n.fraction)
    ensures 'e' in Written(n, fixed) <==> !fixed
  {
    var point := WithPoint(n.whole, n.fraction);
    assert forall c :: c in point ==> c in n.whole || c in "." || c in n.fraction;
    if !fixed { assert Tail(n.exponent)[0] == 'e'; }
  }

  /** A number is written with an exponent exactly when, rounded to seventeen digits, it is below a
      ten-thousandth or at least ten to the seventeenth; and a fraction written without one does not end
      in a zero. */
  lemma LayoutChoice(x: real)
    requires x > 0.0
    ensures 'e' in ShowMagnitude(x) <==> ToDecimal(x) < Power(Decimal, -4) || ToDecimal(x) >= Power(Decimal, 17)
    ensures
      var s := ShowMagnitude(x);
      'e' !in s && '.' in s ==> s[|s| - 1] != '0'
  {
    var d := RoundedDigits(x);
    var s := Stripped(d);
    StrippedIsSame(d);
    NatRoundTrip(s.number);
    StrippedEndsInNoZero(d);
    LastDigitPrinted(s.number);
    MarkedByLayout(PrintNat(s.number), s.last);
    FixedBySize(s, ToDecimal(x));
    if IsFixed(PrintNat(s.number), s.last) { FractionEnd(PrintNat(s.number), s.last); }
  }

  lemma MarkedByLayout(digits: string, last: int)
    requires AllDigits(digits) && digits != ""
    ensures 'e' in Layout(digits, last) <==> !IsFixed(digits, last)
  {
    LaidOutWell(digits, last);
    MarkInWritten(LaidOut(digits, last), IsFixed(digits, last));
  }

  lemma FixedBySize(d: Decimals, x: real)
    requires d.number > 0 && x == Times(d.number, Power(Decimal, d.last))
    ensures IsFixed(PrintNat(d.number), d.last) <==> Power(Decimal, -4) <= x < Power(Decimal, 17)
  {
    var digits := PrintNat(d.number);
    PrintedLength(d.number);
    LeadingExponent(d.number, d.last, |digits|, x);
    FixedByMagnitude(x, d.last + |digits| - 1);
  }

  lemma FixedByMagnitude(x: real, k: int)
    requires x > 0.0 && Magnitude(Decimal, x) == k
    ensures -4 <= k < 17 <==> Power(Decimal, -4) <= x < Power(Decimal, 17)
  {
    if k < -4 { PowerGrows(Decimal, k + 1, -4); } else { PowerGrows(Decimal, -4, k); }
    if k < 17 { PowerGrows(Decimal, k + 1, 17); } else { PowerGrows(Decimal, 17, k); }
  }

  lemma FractionEnd(digits: string, last: int)
    requires digits != "" && AllDigits(digits) && IsFixed(digits, last) && digits[|digits| - 1] != '0'
    ensures
      var s := Layout(digits, last);
      '.' in s ==> s[|s| - 1] != '0'
  {
    var n, leading := LaidOut(digits, last), |digits| - 1 + last;
    if last >= 0 {
      ZerosAreDigits(last);
      assert Layout(digits, last) == digits + Zeros(last);
    } else {
      assert n.fraction != "" && n.fraction[|n.fraction| - 1] == digits[|digits| - 1];
    }
  }

  /** An exponent has its sign and at least two digits. */
  lemma ExponentForm(x: int)
    ensures Exponent(x)[0] == (if x < 0 then '-' else '+') && |Exponent(x)| >= 3
  {}
}
