/** Which texts are read as amounts and rates, and as what: every accepted shape, its value, and the reason for a refusal. */
module MoneyAnswers {
  import opened Basics
  import opened Decimal
  import opened MoneyMath

  // ---------------------------------------------------------------------------
  // Shapes
  // ---------------------------------------------------------------------------

  /** `s` is whole digits, or whole digits, a point and fraction digits; either run may be empty. */
  ghost predicate Shaped(s: string, whole: string, point: bool, frac: string) {
    AllDigits(whole) && AllDigits(frac) && (frac == "" || point) && s == whole + (if point then "." else "") + frac
  }

  lemma SplitsAsShaped(s: string, whole: string, point: bool, frac: string)
    requires Shaped(s, whole, point, frac)
    ensures SplitDecimal(s) == Some(DecimalText(whole, point, frac))
  {
    SplitJoined(whole, frac);
    if point {
      assert s == whole + "." + frac;
    } else {
      assert s == whole && frac == [];
    }
  }

  lemma UnshapedFails(s: string)
    ensures SplitDecimal(s).Some? ==> exists w, p, f :: Shaped(s, w, p, f)
  {
    if SplitDecimal(s).Some? { SplitIsShaped(s); }
  }

  lemma SplitIsShaped(s: string)
    requires SplitDecimal(s).Some?
    ensures var d := SplitDecimal(s).value; Shaped(s, d.whole, d.dot, d.frac)
  {
    var d := SplitDecimal(s).value;
    var k := DigitRun(s);
    if d.dot {
      assert s == s[..k] + [s[k]] + s[k + 1..];
    }
  }

  /** The value in units of 10^-places, cut after `places` digits of the fraction. */
  function Units(whole: string, frac: string, places: nat): nat
    requires AllDigits(whole) && AllDigits(frac)
  {
    FromDecimal(whole) * Pow10(places)
    + if |frac| <= places then FromDecimal(frac) * Pow10(places - |frac|) else FromDecimal(frac[..places])
  }

  lemma TruncatedIs(whole: string, frac: string, places: nat)
    requires AllDigits(whole) && AllDigits(frac)
    ensures Truncated(DecimalText(whole, frac != "", frac), places) == Units(whole, frac, places)
  {
    var kept := PadEnd(frac, places)[..places];
    PadEndScalesValue(if |frac| <= places then frac else frac[..places], places);
    FromDecimalConcat(whole, kept);
    if |frac| <= places {
      assert kept == PadEnd(frac, places);
    } else {
      assert kept == frac[..places] == PadEnd(frac[..places], places);
    }
  }

  // ---------------------------------------------------------------------------
  // Amounts
  // ---------------------------------------------------------------------------

  /** A comma, an underscore or a blank anywhere changes nothing. */
  lemma {:induction false} SeparatorsDoNotMatter(a: string, c: char, b: string, decimals: nat)
    requires c == ',' || c == '_' || IsSpace(c)
    ensures ParseDecimal(a + [c] + b, decimals) == ParseDecimal(a + b, decimals)
  {
    StripSkips(a, c, b);
  }

  lemma {:induction false} StripSkips(a: string, c: char, b: string)
    requires c == ',' || c == '_' || IsSpace(c)
    ensures Strip(a + [c] + b) == Strip(a + b)
  {
    if b == [] {
      assert a + [c] + b == a + [c] && a + b == a && (a + [c])[..|a|] == a;
    } else {
      var n := |b| - 1;
      StripSkips(a, c, b[..n]);
      assert (a + [c] + b)[..|a| + 1 + n] == a + [c] + b[..n];
      assert (a + b)[..|a| + n] == a + b[..n];
    }
  }

  predicate NoSeparators(s: string) { forall i :: 0 <= i < |s| ==> !(s[i] == ',' || s[i] == '_' || IsSpace(s[i])) }

  /** The value of a decimal, or why it is none: it needs a digit, and no more places than the currency has. */
  function AmountRead(whole: string, frac: string, decimals: nat): Result<nat, MoneyError>
    requires AllDigits(whole) && AllDigits(frac)
  {
    if |whole| + |frac| == 0 then Err(InvalidAmount)
    else if |frac| > decimals then Err(TooManyDecimals)
    else Ok(Units(whole, frac, decimals))
  }

  /** What is left once separators are gone is a decimal. */
  lemma AmountAnswers(body: string, whole: string, point: bool, frac: string, decimals: nat)
    requires NoSeparators(body) && Shaped(body, whole, point, frac)
    ensures ParseDecimal(body, decimals) == AmountRead(whole, frac, decimals)
  {
    UnsignedAnswers(body, whole, point, frac, decimals);
    StartsPlain(body, whole, point, frac);
    PlusIsRead(body, decimals);
  }

  /** Or a minus sign and a decimal. */
  lemma NegativeAmountAnswers(body: string, whole: string, point: bool, frac: string, decimals: nat)
    requires NoSeparators(body) && Shaped(body, whole, point, frac)
    ensures var r := AmountRead(whole, frac, decimals);
            ParseDecimal("-" + body, decimals) == if r.Ok? then Ok(0 - r.value) else Err(r.error)
  {
    UnsignedAnswers(body, whole, point, frac, decimals);
    MinusIsRead(body, decimals);
  }

  /** Anything else is no amount. */
  lemma UnshapedIsNoAmount(body: string, decimals: nat)
    requires NoSeparators(body) && forall w, p, f :: !Shaped(body, w, p, f)
    ensures ParseDecimal("-" + body, decimals) == Err(InvalidAmount)
    ensures body == "" || body[0] != '-' ==> ParseDecimal(body, decimals) == Err(InvalidAmount)
  {
    UnshapedFails(body);
    MinusIsRead(body, decimals);
    if body == "" || body[0] != '-' { PlusIsRead(body, decimals); }
  }

  lemma MinusIsRead(body: string, decimals: nat)
    requires NoSeparators(body)
    ensures var n := ParseUnsigned(body, decimals);
            ParseDecimal("-" + body, decimals) == if n.Ok? then Ok(0 - n.value) else Err(n.error)
  {
    MinusIsKept(body);
    AfterMinus("-" + body, body, decimals);
  }

  lemma MinusIsKept(body: string)
    requires NoSeparators(body)
    ensures Strip("-" + body) == "-" + body && ("-" + body)[1..] == body
  {
    var text := "-" + body;
    forall i | 0 <= i < |text| ensures !(text[i] == ',' || text[i] == '_' || IsSpace(text[i])) {
      assert i > 0 ==> text[i] == body[i - 1];
    }
    NothingToStrip(text);
  }

  lemma AfterMinus(text: string, body: string, decimals: nat)
    requires |text| > 0 && text[0] == '-' && text[1..] == body
    ensures var n := ParseUnsigned(body, decimals);
            ParseSigned(text, decimals) == if n.Ok? then Ok(0 - n.value) else Err(n.error)
  {
  }

  lemma PlusIsRead(body: string, decimals: nat)
    requires NoSeparators(body) && (body == "" || body[0] != '-')
    ensures ParseDecimal(body, decimals) == ParseUnsigned(body, decimals)
  {
    NothingToStrip(body);
  }

  lemma UnsignedAnswers(body: string, whole: string, point: bool, frac: string, decimals: nat)
    requires Shaped(body, whole, point, frac)
    ensures ParseUnsigned(body, decimals) == AmountRead(whole, frac, decimals)
  {
    SplitsAsShaped(body, whole, point, frac);
    if |frac| <= decimals {
      MagnitudeIsExact(DecimalText(whole, point, frac), decimals);
    }
  }

  lemma StartsPlain(body: string, whole: string, point: bool, frac: string)
    requires Shaped(body, whole, point, frac)
    ensures body == "" || body[0] != '-'
  {
    if body != "" {
      assert body[0] == if whole != "" then whole[0] else '.';
    }
  }

  lemma {:induction false} NothingToStrip(s: string)
    requires NoSeparators(s)
    ensures Strip(s) == s
  {
    if s != [] {
      NothingToStrip(s[..|s| - 1]);
    }
  }

  // ---------------------------------------------------------------------------
  // Rates
  // ---------------------------------------------------------------------------

  predicate Blank(s: string) { forall i :: 0 <= i < |s| ==> IsSpace(s[i]) }

  /** Blanks around a text are dropped, those inside stay. */
  lemma {:induction false} TrimAnswers(a: string, s: string, b: string)
    requires Blank(a) && Blank(b) && (s != "" ==> !IsSpace(s[0]) && !IsSpace(s[|s| - 1]))
    ensures Trim(a + s + b) == s
    decreases |a| + |b|
  {
    var t := a + s + b;
    if a != [] {
      assert t[0] == a[0] && t[1..] == a[1..] + s + b;
      TrimAnswers(a[1..], s, b);
    } else if b != [] {
      var n := |b| - 1;
      assert t[|t| - 1] == b[n] && t[..|t| - 1] == a + s + b[..n];
      if IsSpace(t[0]) {
        assert s == "" && t == b && t[1..] == "" + s + b[1..];
        TrimAnswers("", s, b[1..]);
      } else {
        TrimAnswers("", s, b[..n]);
      }
    } else {
      assert t == s;
    }
  }

  /** A rate is a trimmed decimal that starts with a digit, cut to the scale, positive, and with a named source. */
  lemma RateAnswers(text: string, source: string, scale: nat, whole: string, point: bool, frac: string)
    requires Shaped(Trim(text), whole, point, frac)
    ensures RateOf(text, source, scale)
         == if whole == "" then Err(InvalidRate)
            else if Units(whole, frac, scale) == 0 then Err(NonPositiveRate)
            else if source == "" then Err(RateSourceRequired)
            else Ok(RateSnapshot(Units(whole, frac, scale), scale, source))
  {
    SplitsAsShaped(Trim(text), whole, point, frac);
    TruncatedIs(whole, frac, scale);
  }

  lemma UnshapedIsNoRate(text: string, source: string, scale: nat)
    requires forall w, p, f :: !Shaped(Trim(text), w, p, f)
    ensures RateOf(text, source, scale) == Err(InvalidRate)
  {
    UnshapedFails(Trim(text));
  }

  /** A market reading is a plain decimal, digits on both sides of a point, with some digit other than zero. */
  lemma ReadingAnswers(text: string, places: nat, whole: string, point: bool, frac: string)
    ensures Shaped(text, whole, point, frac) ==>
              ToFixed(text, places)
                == if whole == "" || (point && frac == "") || (forall i :: 0 <= i < |whole + frac| ==> (whole + frac)[i] == '0')
                   then Err(NotPositiveDecimal) else Ok(Units(whole, frac, places))
    ensures (forall w, p, f :: !Shaped(text, w, p, f)) ==> ToFixed(text, places) == Err(NotPositiveDecimal)
  {
    if Shaped(text, whole, point, frac) {
      SplitsAsShaped(text, whole, point, frac);
      TruncatedIs(whole, frac, places);
      SomeDigit(text, whole, point, frac);
    }
    UnshapedFails(text);
  }

  lemma SomeDigit(text: string, whole: string, point: bool, frac: string)
    requires Shaped(text, whole, point, frac)
    ensures HasNonZeroDigit(text) <==> exists i :: 0 <= i < |whole + frac| && (whole + frac)[i] != '0'
  {
    var digits := whole + frac;
    if i :| 0 <= i < |digits| && digits[i] != '0' {
      var k := if i < |whole| || !point then i else i + 1;
      assert IsDigit(digits[i]) && text[k] == digits[i];
    }
    if k :| 0 <= k < |text| && '1' <= text[k] <= '9' {
      var i := if k < |whole| || !point then k else k - 1;
      assert digits[i] == text[k];
    }
  }
}
