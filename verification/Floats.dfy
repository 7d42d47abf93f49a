/** Floating-point numbers as text: fmt.Sprint and %0.6f on one side, strconv.ParseFloat on the other. */
module Floats {
  import opened Fragments
  import opened Texts

  const INF: Text := "INF"
  const INFINITY: Text := "INFINITY"
  const NAN: Text := "NAN"

  function PowerOfTen(width: nat): (power: nat)
    ensures power > 0
  {
    if width == 0 then 1 else 10 * PowerOfTen(width - 1)
  }

  /** mantissa / 10^places, in lowest terms. */
  function Reduce(mantissa: int, places: nat): Duration
    decreases places
  {
    if places > 0 && mantissa % 10 == 0 then Reduce(mantissa / 10, places - 1) else Decimal(mantissa, places)
  }

  function Times(a: int, b: int): int {
    a * b
  }

  /** mantissa / 10^places, where `places` may be negative. */
  function Scaled(mantissa: int, places: int): Duration {
    if places >= 0 then Reduce(mantissa, places) else Decimal(Times(mantissa, PowerOfTen(-places)), 0)
  }

  function Quotient(n: nat, divisor: nat): (q: nat)
    requires divisor > 0
  {
    n / divisor
  }

  function Remainder(n: nat, divisor: nat): (r: nat)
    requires divisor > 0
  {
    n % divisor
  }

  function Magnitude(n: int): nat {
    if n < 0 then -n else n
  }

  // Printing.

  /** The last `width` decimal digits of `n`. */
  function PrintPadded(n: nat, width: nat): (s: Text)
    ensures |s| == width && AllDigits(s)
  {
    if width == 0 then [] else PrintPadded(n / 10, width - 1) + [Digit(n % 10)]
  }

  function Sign(negative: bool): Text {
    if negative then "-" else []
  }

  function PrintFraction(rest: nat, places: nat): Text {
    if places == 0 then [] else ['.'] + PrintPadded(rest, places)
  }

  /** size / 10^places with all its places. */
  function PrintPlaces(size: nat, places: nat): Text {
    PrintNat(Quotient(size, PowerOfTen(places))) + PrintFraction(Remainder(size, PowerOfTen(places)), places)
  }

  function PrintSpecial(d: Float): Text
    requires !d.Decimal?
  {
    if d.NotANumber? then "NaN" else if d.negative then "-Inf" else "+Inf"
  }

  /** fmt.Sprint, in plain decimal form. */
  function PrintFloat(d: Duration): Text {
    if d.Decimal? then Sign(d.mantissa < 0) + PrintPlaces(Magnitude(d.mantissa), d.places) else PrintSpecial(d)
  }

  /** To the nearest, and to the even one of two. */
  function DivideRounding(n: nat, divisor: nat): nat
    requires divisor > 0
  {
    var q, r := Quotient(n, divisor), Remainder(n, divisor);
    if 2 * r < divisor || (2 * r == divisor && q % 2 == 0) then q else q + 1
  }

  /** size / 10^places in millionths. */
  function Millionths(size: nat, places: nat): nat {
    if places <= 6 then Times(size, PowerOfTen(6 - places)) as nat
    else DivideRounding(size, PowerOfTen(places - 6))
  }

  /** %0.6f */
  function PrintFixed(d: Duration): Text {
    if d.Decimal? then Sign(d.mantissa < 0) + PrintPlaces(Millionths(Magnitude(d.mantissa), d.places), 6)
    else PrintSpecial(d)
  }

  /** The number that has six decimals at most. */
  function Rounded(d: Duration): Duration {
    if d.Decimal? then Reduce(Signed(d.mantissa < 0, Millionths(Magnitude(d.mantissa), d.places)), 6) else d
  }

  // Parsing.

  /** Digits with at most one point among them, then an exponent or none. */
  function ParseDecimal(negative: bool, s: Text): Option<Duration> {
    var e := IndexOf(ToUpper(s), 'E');
    var number, exponent := s[..e], if e < |s| then Atoi(s[e + 1..]) else Some(0);
    var dot := IndexOf(number, '.');
    var whole, decimals := number[..dot], if dot < |number| then number[dot + 1..] else [];
    if whole + decimals == [] || !AllDigits(whole + decimals) || exponent.None? then None
    else Some(Scaled(Signed(negative, NatValue(whole + decimals)), |decimals| - exponent.value))
  }

  function ParseFloat(s: Text): Option<Duration> {
    var signed := s != [] && (s[0] == '-' || s[0] == '+');
    var size := if signed then s[1..] else s;
    if ToUpper(s) == NAN then Some(NotANumber)
    else if ToUpper(size) == INF || ToUpper(size) == INFINITY then Some(Infinite(s[0] == '-'))
    else ParseDecimal(signed && s[0] == '-', size)
  }

  // Reading what was printed.

  lemma {:induction false} PaddedValue(n: nat, width: nat)
    requires n < PowerOfTen(width)
    ensures NatValue(PrintPadded(n, width)) == n
  {
    if width > 0 {
      PaddedValue(n / 10, width - 1);
      assert PrintPadded(n, width)[..width - 1] == PrintPadded(n / 10, width - 1);
    }
  }

  lemma {:induction false} RegroupTimes(a: int, b: int)
    ensures Times(a, b) * 10 == Times(a, 10 * b)
    ensures Times(10 * a, b) == Times(a, 10 * b)
    ensures Times(a, 1) == a
  {}

  lemma {:induction false} ValueAppend(a: Text, b: Text)
    requires AllDigits(a) && AllDigits(b)
    ensures AllDigits(a + b) && NatValue(a + b) == Times(NatValue(a), PowerOfTen(|b|)) + NatValue(b)
  {
    hide Times;
    if b == [] {
      assert a + b == a;
      RegroupTimes(NatValue(a), 1);
    } else {
      var front := b[..|b| - 1];
      ValueAppend(a, front);
      assert (a + b)[..|a + b| - 1] == a + front;
      RegroupTimes(NatValue(a), PowerOfTen(|front|));
    }
  }

  lemma {:induction false} DivideBack(n: nat, divisor: nat)
    requires divisor > 0
    ensures Times(Quotient(n, divisor), divisor) + Remainder(n, divisor) == n && Remainder(n, divisor) < divisor
  {}

  /** No sign, no exponent, no special. */
  lemma {:induction false} DigitsStand(whole: Text, decimals: Text, point: bool)
    requires whole != [] && AllDigits(whole) && AllDigits(decimals) && (!point ==> decimals == [])
    ensures var s := whole + (if point then ['.'] + decimals else []);
            && AllNumeric(s)
            && ParseDecimal(false, s) == Some(Scaled(Signed(false, NatValue(whole + decimals)), |decimals|))
            && ParseDecimal(true, s) == Some(Scaled(Signed(true, NatValue(whole + decimals)), |decimals|))
  {
    hide NatValue, Scaled;
    var s := whole + (if point then ['.'] + decimals else []);
    assert AllNumeric(s);
    NoExponent(s);
    assert s[..|s|] == s;
    IndexAfter(whole, '.', decimals);
    if point {
      assert s == whole + ['.'] + decimals;
      assert s[..|whole|] == whole && s[|whole| + 1..] == decimals;
    } else {
      assert s == whole && s[..|whole|] == whole;
    }
  }

  predicate AllNumeric(s: Text) {
    forall i :: 0 <= i < |s| ==> IsDigit(s[i]) || s[i] == '.'
  }

  lemma {:induction false} NoExponent(s: Text)
    requires AllNumeric(s)
    ensures ToUpper(s) == s && IndexOf(ToUpper(s), 'E') == |s|
  {
    IndexAfter(s, 'E', []);
  }

  /** What was printed with its places reads back as the number. */
  lemma {:induction false} PlacesReadBack(negative: bool, size: nat, places: nat)
    ensures ParseFloat(Sign(negative) + PrintPlaces(size, places)) == Some(Reduce(Signed(negative, size), places))
    ensures PrintPlaces(size, places) != [] && AllNumeric(PrintPlaces(size, places))
  {
    hide NatValue, PrintNat, PrintPadded, Reduce, ParseDecimal, ParseFloat, Times, PowerOfTen, Quotient, Remainder;
    var power := PowerOfTen(places);
    var whole, rest := PrintNat(Quotient(size, power)), Remainder(size, power);
    DivideBack(size, power);
    var decimals := PrintPadded(rest, places);
    DigitsStand(whole, decimals, places > 0);
    NatRoundTrip(Quotient(size, power));
    PaddedValue(rest, places);
    ValueAppend(whole, decimals);
    NotSpecial(negative, PrintPlaces(size, places));
  }

  lemma {:induction false} NotSpecial(negative: bool, s: Text)
    requires s != [] && AllNumeric(s)
    ensures ParseFloat(Sign(negative) + s) == ParseDecimal(negative, s)
  {
    hide ParseDecimal;
    var t := Sign(negative) + s;
    if negative {
      assert t[1..] == s;
    } else {
      assert t == s;
    }
    assert s[0] != '-' && s[0] != '+';
    assert ToUpper(s)[0] == s[0] && ToUpper(t)[0] == t[0];
    assert INF[0] == 'I' && INFINITY[0] == 'I' && NAN[0] == 'N';
  }

  lemma {:induction false} SpecialReadsBack(d: Duration)
    requires !d.Decimal?
    ensures ParseFloat(PrintSpecial(d)) == Some(d)
  {
    assert ToUpper("NaN") == NAN;
    assert ToUpper("Inf") == INF;
    assert "-Inf"[1..] == "Inf" && "+Inf"[1..] == "Inf";
  }

  lemma {:induction false} LowestIsReduced(mantissa: int, places: nat)
    requires LowestTerms(Decimal(mantissa, places))
    ensures Reduce(mantissa, places) == Decimal(mantissa, places)
  {}

  /** A printed number reads back as itself, whichever it is. */
  lemma {:induction false} ParseInvertsPrint(d: Duration)
    ensures ParseFloat(PrintFloat(d)) == Some(d)
  {
    hide ParseFloat, PrintPlaces, PrintSpecial, Reduce;
    if d.Decimal? {
      PlacesReadBack(d.mantissa < 0, Magnitude(d.mantissa), d.places);
      LowestIsReduced(d.mantissa, d.places);
    } else {
      SpecialReadsBack(d);
    }
  }

  /** Printed with six decimals, it reads back rounded to them. */
  lemma {:induction false} ParseRoundsFixed(d: Duration)
    ensures ParseFloat(PrintFixed(d)) == Some(Rounded(d))
  {
    hide ParseFloat, PrintPlaces, PrintSpecial, Reduce;
    if d.Decimal? {
      PlacesReadBack(d.mantissa < 0, Millionths(Magnitude(d.mantissa), d.places), 6);
    } else {
      SpecialReadsBack(d);
    }
  }

  predicate SixDecimals(d: Duration) {
    d.Decimal? ==> d.places <= 6
  }

  lemma {:induction false} ReduceStaysWithin(mantissa: int, places: nat)
    ensures Reduce(mantissa, places).Decimal? && Reduce(mantissa, places).places <= places
    decreases places
  {
    if places > 0 && mantissa % 10 == 0 {
      ReduceStaysWithin(mantissa / 10, places - 1);
    }
  }

  lemma {:induction false} ReduceUndoesScaling(mantissa: int, places: nat, more: nat)
    ensures Reduce(Times(mantissa, PowerOfTen(more)), places + more) == Reduce(mantissa, places)
  {
    if more == 0 {
      RegroupTimes(mantissa, 1);
    } else {
      hide Times;
      var m := Times(mantissa, PowerOfTen(more - 1));
      RegroupTimes(mantissa, PowerOfTen(more - 1));
      assert (m * 10) % 10 == 0 && (m * 10) / 10 == m;
      ReduceUndoesScaling(mantissa, places, more - 1);
    }
  }

  lemma {:induction false} TimesSign(a: int, b: int)
    ensures Times(-a, b) == -Times(a, b)
    ensures a >= 0 && b >= 0 ==> Times(a, b) >= 0
  {}

  /** Rounding leaves alone exactly what has six decimals at most. */
  lemma {:induction false} RoundedIsSameExactlyWhen(d: Duration)
    ensures Rounded(d) == d <==> SixDecimals(d)
  {
    if d.Decimal? {
      hide Reduce, Times, PowerOfTen;
      ReduceStaysWithin(Signed(d.mantissa < 0, Millionths(Magnitude(d.mantissa), d.places)), 6);
      if d.places <= 6 {
        TimesSign(d.mantissa, PowerOfTen(6 - d.places));
        TimesSign(Magnitude(d.mantissa), PowerOfTen(6 - d.places));
        ReduceUndoesScaling(d.mantissa, d.places, 6 - d.places);
        LowestIsReduced(d.mantissa, d.places);
      }
    }
  }
}
