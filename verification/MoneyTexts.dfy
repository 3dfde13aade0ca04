/** How amounts and rates are written: the shortest text of the shape that is read back as the value. */
module MoneyTexts {
  import opened Basics
  import opened Decimal
  import opened MoneyMath
  import opened MoneyAnswers

  /** At least one digit, and no zero in front of others. */
  predicate Canonical(whole: string) { AllDigits(whole) && |whole| >= 1 && (|whole| > 1 ==> whole[0] != '0') }

  lemma {:induction false} DecimalIsCanonical(n: nat)
    ensures Canonical(ToDecimal(n)) && (n > 0 ==> ToDecimal(n)[0] != '0')
  {
    if n >= 10 {
      DecimalIsCanonical(n / 10);
      assert ToDecimal(n)[0] == ToDecimal(n / 10)[0];
    }
  }

  lemma AllPlaces(whole: string, frac: string)
    requires AllDigits(whole) && AllDigits(frac)
    ensures AllDigits(whole + frac) && Units(whole, frac, |frac|) == FromDecimal(whole + frac)
  {
    FromDecimalConcat(whole, frac);
    assert Pow10(0) == 1;
  }

  /** An amount is written with all the places of its currency, a minus sign when negative, and nothing superfluous. */
  lemma FormatAnswers(x: int, decimals: nat) returns (whole: string, frac: string)
    ensures Canonical(whole) && AllDigits(frac) && |frac| == decimals
    ensures FormatDecimal(x, decimals) == (if x < 0 then "-" else "") + (if decimals > 0 then whole + "." + frac else whole)
    ensures Units(whole, frac, decimals) == if x < 0 then -x else x
  {
    var d := FixedDigits(Abs(x), decimals);
    whole, frac := d.whole, d.frac;
    FixedIsCanonical(Abs(x), decimals);
    AllPlaces(whole, frac);
  }

  lemma FixedIsCanonical(n: nat, decimals: nat)
    ensures Canonical(FixedDigits(n, decimals).whole)
  {
    DecimalIsCanonical(n);
    var digits := PadStart(ToDecimal(n), decimals + 1);
    var whole := FixedDigits(n, decimals).whole;
    if |whole| > 1 {
      assert digits == ToDecimal(n) && whole[0] == digits[0];
    }
  }

  /** A rate is written without zeros at either end, and without a point when it is whole. */
  lemma RenderAnswers(x: nat, places: nat) returns (whole: string, frac: string)
    requires places >= 1
    ensures Canonical(whole) && AllDigits(frac) && |frac| <= places && (frac != "" ==> frac[|frac| - 1] != '0')
    ensures FromFixed(x, places) == if frac == "" then whole else whole + "." + frac
    ensures Units(whole, frac, places) == x
  {
    var padded := PadStart(ToDecimal(Remainder(x, Pow10(places))), places);
    whole, frac := ToDecimal(Quotient(x, Pow10(places))), StripTrailingZeros(padded);
    RenderedParts(x, places);
    DecimalIsCanonical(Quotient(x, Pow10(places)));
    StrippedEnd(padded);
    StrippedKeepsUnits(whole, padded);
  }

  lemma StrippedKeepsUnits(whole: string, padded: string)
    requires AllDigits(whole) && AllDigits(padded)
    ensures Units(whole, StripTrailingZeros(padded), |padded|) == FromDecimal(whole + padded)
  {
    var frac := StripTrailingZeros(padded);
    PadEndScalesValue(frac, |padded|);
    FromDecimalConcat(whole, padded);
  }

  lemma {:induction false} StrippedEnd(s: string)
    requires AllDigits(s)
    ensures var t := StripTrailingZeros(s); t != "" ==> t[|t| - 1] != '0'
  {
    if s != [] && s[|s| - 1] == '0' {
      StrippedEnd(s[..|s| - 1]);
    }
  }
}
