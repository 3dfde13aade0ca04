/** Exact amounts: rounding division, the Toman/GRAM rate, and the decimal strings of amounts and rates. */
module MoneyMath {
  import opened Basics
  import opened Sums
  import opened Decimal

  datatype Currency = TOMAN | GRAM

  datatype Money = Money(atomic: int, currency: Currency)

  datatype Rounding = FLOOR | CEIL | HALF_UP | HALF_EVEN

  datatype MoneyError =
    | DivisionByZero
    | InvalidAmount
    | TooManyDecimals
    | InvalidRate
    | NonPositiveRate
    | RateSourceRequired
    | NotPositiveDecimal
    | CurrencyMismatch

  function Decimals(c: Currency): nat {
    match c case TOMAN => 0 case GRAM => 9
  }

  function Abs(n: int): nat { if n < 0 then -n else n }

  // ---------------------------------------------------------------------------
  // Rounding division
  // ---------------------------------------------------------------------------

  function DivRound(numerator: int, denominator: int, mode: Rounding): Result<int, MoneyError> {
    if denominator == 0 then Err(DivisionByZero) else Ok(Rounded(numerator, denominator, mode))
  }

  function Rounded(numerator: int, denominator: int, mode: Rounding): int
    requires denominator != 0
  {
    var n := if denominator < 0 then -numerator else numerator;
    var d := Abs(denominator);
    FromQuotient(n < 0, Abs(n) / d, Abs(n) % d, d, mode)
  }

  function FromQuotient(negative: bool, q: int, r: int, d: int, mode: Rounding): int {
    if r == 0 then if negative then -q else q
    else match mode
         case FLOOR => if negative then -(q + 1) else q
         case CEIL => if negative then -q else q + 1
         case HALF_UP => Away(negative, q, 2 * r >= d)
         case HALF_EVEN => Away(negative, q, 2 * r > d || (2 * r == d && q % 2 == 1))
  }

  function Away(negative: bool, q: int, up: bool): int {
    var magnitude := if up then q + 1 else q;
    if negative then -magnitude else magnitude
  }

  /** What each mode promises of the exact quotient n/d, written without division. */
  ghost predicate RoundsTo(n: int, d: int, mode: Rounding, x: int)
    requires d > 0
  {
    RoundsAt(n, d, mode, x, x * d)
  }

  ghost predicate RoundsAt(n: int, d: int, mode: Rounding, x: int, p: int) {
    match mode
    case FLOOR => p <= n < p + d
    case CEIL => p - d < n <= p
    case HALF_UP => 2 * Abs(n - p) <= d && (2 * Abs(n - p) == d ==> Abs(p) > Abs(n))
    case HALF_EVEN => 2 * Abs(n - p) <= d && (2 * Abs(n - p) == d ==> x % 2 == 0)
  }

  lemma QuotientRounds(negative: bool, q: int, r: int, d: int, mode: Rounding)
    requires 0 <= q && 0 <= r < d
    ensures RoundsTo(if negative then -(q * d + r) else q * d + r, d, mode, FromQuotient(negative, q, r, d, mode))
  {
    var x := FromQuotient(negative, q, r, d, mode);
    assert (q + 1) * d == q * d + d;
    assert (-q) * d == -(q * d);
    assert (-(q + 1)) * d == -(q * d) - d;
    assert q * d >= 0;
  }

  /** Rounding meets its promise for every sign of both operands. */
  lemma RoundedIsRounding(numerator: int, denominator: int, mode: Rounding)
    requires denominator != 0
    ensures RoundsTo(if denominator < 0 then -numerator else numerator, Abs(denominator), mode,
                     Rounded(numerator, denominator, mode))
  {
    var n := if denominator < 0 then -numerator else numerator;
    var d := Abs(denominator);
    DivMod(Abs(n), d);
    QuotientRounds(n < 0, Abs(n) / d, Abs(n) % d, d, mode);
  }

  lemma DivMod(a: nat, d: int)
    requires d > 0
    ensures a == (a / d) * d + a % d && a / d >= 0 && 0 <= a % d < d
  {
  }

  /** The promise leaves no choice. */
  lemma RoundingIsUnique(n: int, d: int, mode: Rounding, x: int, y: int)
    requires d > 0 && RoundsTo(n, d, mode, x) && RoundsTo(n, d, mode, y)
    ensures x == y
  {
    if x < y {
      RoundingExcludes(n, d, mode, x, y);
    } else if y < x {
      RoundingExcludes(n, d, mode, y, x);
    }
  }

  lemma RoundingExcludes(n: int, d: int, mode: Rounding, x: int, y: int)
    requires d > 0 && x < y && RoundsTo(n, d, mode, x)
    ensures !RoundsTo(n, d, mode, y)
  {
    var k := y - x;
    assert y * d == x * d + k * d;
    assert k >= 2 ==> k * d >= 2 * d;
    assert k * d >= d;
    ProductSign(x, d);
    ProductSign(y, d);
    RoundingGap(n, d, mode, x, x * d, y, y * d);
  }

  lemma ProductSign(x: int, d: int)
    requires d > 0
    ensures (x * d > 0 <==> x > 0) && (x * d < 0 <==> x < 0)
  {
  }

  lemma RoundingGap(n: int, d: int, mode: Rounding, x: int, xd: int, y: int, yd: int)
    requires d > 0 && x < y && yd >= xd + d && (y >= x + 2 ==> yd >= xd + 2 * d)
    requires (xd > 0 <==> x > 0) && (xd < 0 <==> x < 0) && (yd > 0 <==> y > 0) && (yd < 0 <==> y < 0)
    requires RoundsAt(n, d, mode, x, xd)
    ensures !RoundsAt(n, d, mode, y, yd)
  {
  }

  lemma FloorIsEuclidean(n: int, d: int)
    requires d > 0
    ensures Rounded(n, d, FLOOR) == n / d
  {
    RoundedIsRounding(n, d, FLOOR);
    assert n == (n / d) * d + n % d;
    RoundingIsUnique(n, d, FLOOR, Rounded(n, d, FLOOR), n / d);
  }

  // ---------------------------------------------------------------------------
  // The Toman/GRAM rate
  // ---------------------------------------------------------------------------

  /** `scaled` Toman per whole GRAM, times 10^scale. */
  datatype RateSnapshot = RateSnapshot(scaled: int, scale: nat, source: string)

  /** The constructor refuses anything but a positive rate. */
  type Rate = r: RateSnapshot | r.scaled > 0 witness RateSnapshot(1, 0, "")

  /** Toman-to-nanoGRAM scale of a rate. */
  function Unit(r: Rate): (u: nat)
    ensures u > 0
  {
    1_000_000_000 * Pow10(r.scale)
  }

  function NanoGram(toman: int, r: Rate, mode: Rounding): int {
    Rounded(toman * Unit(r), r.scaled, mode)
  }

  function TomanOf(nanoGram: int, r: Rate, mode: Rounding): int {
    Rounded(nanoGram * r.scaled, Unit(r), mode)
  }

  function TomanToGram(toman: Money, r: Rate, mode: Rounding := FLOOR): Result<Money, MoneyError> {
    if toman.currency != TOMAN then Err(CurrencyMismatch)
    else Ok(Money(NanoGram(toman.atomic, r, mode), GRAM))
  }

  function GramToToman(gram: Money, r: Rate, mode: Rounding := FLOOR): Result<Money, MoneyError> {
    if gram.currency != GRAM then Err(CurrencyMismatch)
    else Ok(Money(TomanOf(gram.atomic, r, mode), TOMAN))
  }

  /** Toman to GRAM and back under FLOOR never gains, and loses at most ceil((R-1)/U), for every amount of either sign. */
  lemma RoundTripNeverGains(toman: int, r: Rate)
    ensures var there := TomanToGram(Money(toman, TOMAN), r);
            && there.Ok?
            && var back := GramToToman(there.value, r);
               && back.Ok?
               && back.value.atomic <= toman
               && toman - back.value.atomic <= Rounded(r.scaled - 1, Unit(r), CEIL)
               && (r.scaled <= Unit(r) ==> toman - back.value.atomic <= 1)
  {
    var u, rs := Unit(r), r.scaled;
    var q := NanoGram(toman, r, FLOOR);
    var back := TomanOf(q, r, FLOOR);
    var bound := Rounded(rs - 1, u, CEIL);
    RoundedIsRounding(toman * u, rs, FLOOR);
    RoundedIsRounding(q * rs, u, FLOOR);
    RoundedIsRounding(rs - 1, u, CEIL);
    FloorOrder(back, toman, u);
    assert (toman - back) * u == toman * u - back * u;
    assert (toman - back) * u <= rs - 1 + u - 1;
    if toman - back > bound {
      CeilOrder(toman - back, bound, u);
    }
    if rs <= u && toman - back >= 2 {
      CeilOrder(toman - back, 1, u);
    }
  }

  lemma FloorOrder(x: int, y: int, u: int)
    requires u > 0 && x * u <= y * u
    ensures x <= y
  {
    ProductSign(x - y, u);
    assert (x - y) * u == x * u - y * u;
  }

  lemma CeilOrder(x: int, y: int, u: int)
    requires u > 0 && x > y
    ensures x * u >= y * u + u
  {
    var k := x - y - 1;
    assert x * u == y * u + u + k * u by { assert x == y + 1 + k; }
    assert k >= 0 && u > 0 ==> k * u >= 0;
  }

  function GramOfPart(r: Rate): int -> int {
    (toman: int) => NanoGram(toman, r, FLOOR)
  }

  function Itself(): int -> int { (x: int) => x }

  lemma {:induction false} SplitSum(parts: seq<int>, f: int -> int)
    requires f(0) == 0 && forall a, b :: f(a) + f(b) <= f(a + b) <= f(a) + f(b) + 1
    ensures Sum(parts, f) <= f(Sum(parts, Itself()))
    ensures f(Sum(parts, Itself())) - Sum(parts, f) < if parts == [] then 1 else |parts|
  {
    if parts != [] {
      var n := |parts| - 1;
      SplitSum(parts[..n], f);
      var a, b := Sum(parts[..n], Itself()), parts[n];
      assert f(a) + f(b) <= f(a + b) <= f(a) + f(b) + 1;
      if n == 0 {
        assert f(a + b) == f(b);
      }
    }
  }

  /** Paying a liability in parts never yields more GRAM than paying it at once, and loses under one nanoGRAM a part. */
  lemma SplittingNeverGains(parts: seq<int>, r: Rate)
    requires parts != []
    ensures var whole := NanoGram(Sum(parts, Itself()), r, FLOOR);
            var split := Sum(parts, GramOfPart(r));
            split <= whole && whole - split < |parts|
  {
    PartsAdd(r);
    SplitSum(parts, GramOfPart(r));
  }

  lemma PartsAdd(r: Rate)
    ensures GramOfPart(r)(0) == 0
    ensures forall a, b :: GramOfPart(r)(a) + GramOfPart(r)(b) <= GramOfPart(r)(a + b) <= GramOfPart(r)(a) + GramOfPart(r)(b) + 1
  {
    forall a, b
      ensures GramOfPart(r)(a) + GramOfPart(r)(b) <= GramOfPart(r)(a + b) <= GramOfPart(r)(a) + GramOfPart(r)(b) + 1
    {
      NanoGramAdds(a, b, r);
    }
    NothingIsNothing(Unit(r), r.scaled);
  }

  lemma NothingIsNothing(u: nat, d: int)
    requires d > 0
    ensures Rounded(0 * u, d, FLOOR) == 0
  {
    RoundedIsRounding(0, d, FLOOR);
  }

  lemma NanoGramAdds(a: int, b: int, r: Rate)
    ensures var s := NanoGram(a, r, FLOOR) + NanoGram(b, r, FLOOR); s <= NanoGram(a + b, r, FLOOR) <= s + 1
  {
    ScaledFloorAdds(a, b, Unit(r), r.scaled);
  }

  lemma ScaledFloorAdds(a: int, b: int, u: nat, d: int)
    requires d > 0
    ensures var s := Rounded(a * u, d, FLOOR) + Rounded(b * u, d, FLOOR);
            s <= Rounded((a + b) * u, d, FLOOR) <= s + 1
  {
    Distributes(a, b, u);
    FloorAdds(a * u, b * u, d);
  }

  lemma Distributes(a: int, b: int, u: int)
    ensures (a + b) * u == a * u + b * u
  {
  }

  lemma FloorAdds(a: int, b: int, d: int)
    requires d > 0
    ensures var s := Rounded(a, d, FLOOR) + Rounded(b, d, FLOOR); s <= Rounded(a + b, d, FLOOR) <= s + 1
  {
    RoundedIsRounding(a, d, FLOOR);
    RoundedIsRounding(b, d, FLOOR);
    RoundedIsRounding(a + b, d, FLOOR);
    FloorGap(a, b, d, Rounded(a, d, FLOOR), Rounded(b, d, FLOOR), Rounded(a + b, d, FLOOR));
  }

  lemma FloorGap(a: int, b: int, d: int, x: int, y: int, z: int)
    requires d > 0 && x * d <= a < x * d + d && y * d <= b < y * d + d && z * d <= a + b < z * d + d
    ensures x + y <= z <= x + y + 1
  {
    assert (x + y - z) * d == x * d + y * d - z * d;
    assert (z - x - y - 1) * d == z * d - x * d - y * d - d;
    ProductSign(z - x - y - 1, d);
    ProductSign(x + y - z, d);
    if x + y > z {
      CeilOrder(x + y - z, 0, d);
    } else if z > x + y + 1 {
      CeilOrder(z - x - y - 1, 0, d);
    }
  }

  // ---------------------------------------------------------------------------
  // Decimal strings
  // ---------------------------------------------------------------------------

  /** `digits`, or `digits.digits`, either side possibly empty. */
  datatype DecimalText = DecimalText(whole: string, dot: bool, frac: string)

  function SplitDecimal(s: string): (r: Option<DecimalText>)
    ensures r.Some? ==> AllDigits(r.value.whole) && AllDigits(r.value.frac)
  {
    var k := DigitRun(s);
    if k == |s| then
      assert s[..k] == s;
      Some(DecimalText(s, false, []))
    else if s[k] == '.' && AllDigits(s[k + 1..]) then Some(DecimalText(s[..k], true, s[k + 1..]))
    else None
  }

  lemma SplitJoined(whole: string, frac: string)
    requires AllDigits(whole) && AllDigits(frac)
    ensures SplitDecimal(whole + "." + frac) == Some(DecimalText(whole, true, frac))
    ensures SplitDecimal(whole) == Some(DecimalText(whole, false, []))
  {
    var s := whole + "." + frac;
    assert s[..|whole|] == whole && s[|whole|] == '.' && s[|whole| + 1..] == frac;
    DigitRunIs(s, |whole|);
    assert whole[..|whole|] == whole;
    DigitRunIs(whole, |whole|);
  }

  predicate IsSpace(c: char) {
    c == ' ' || '\t' <= c <= '\r' || c == '\U{00a0}' || c == '\U{1680}' || '\U{2000}' <= c <= '\U{200a}'
    || c == '\U{2028}' || c == '\U{2029}' || c == '\U{202f}' || c == '\U{205f}' || c == '\U{3000}' || c == '\U{feff}'
  }

  predicate IsSeparator(c: char) { c == ',' || c == '_' || IsSpace(c) }

  /** Drop every separator. */
  function Strip(s: string): string {
    if s == [] then [] else Strip(s[..|s| - 1]) + (if IsSeparator(s[|s| - 1]) then [] else [s[|s| - 1]])
  }

  predicate Plain(c: char) { IsDigit(c) || c == '.' || c == '-' }

  lemma PlainIsKept(c: char)
    requires Plain(c)
    ensures !IsSeparator(c)
  {
  }

  lemma {:induction false} StripKeeps(s: string)
    requires forall i :: 0 <= i < |s| ==> Plain(s[i])
    ensures Strip(s) == s
  {
    if s != [] {
      PlainIsKept(s[|s| - 1]);
      StripKeeps(s[..|s| - 1]);
    }
  }

  function Trim(s: string): string
    decreases |s|
  {
    if s != [] && IsSpace(s[0]) then Trim(s[1..])
    else if s != [] && IsSpace(s[|s| - 1]) then Trim(s[..|s| - 1])
    else s
  }

  /** Read a decimal with at most `decimals` places, in units of 10^-decimals. */
  function ParseUnsigned(t: string, decimals: nat): Result<nat, MoneyError> {
    match SplitDecimal(t)
    case None => Err(InvalidAmount)
    case Some(d) =>
      if d.whole == [] && d.frac == [] then Err(InvalidAmount)
      else if |d.frac| > decimals then Err(TooManyDecimals)
      else Ok(Magnitude(d, decimals))
  }

  function ParseSigned(t: string, decimals: nat): Result<int, MoneyError> {
    var negative := t != [] && t[0] == '-';
    match ParseUnsigned(if negative then t[1..] else t, decimals)
    case Ok(n) => Ok(if negative then 0 - n else n)
    case Err(e) => Err(e)
  }

  /** The same with an optional sign and with separators anywhere. */
  function ParseDecimal(input: string, decimals: nat): Result<int, MoneyError> {
    ParseSigned(Strip(input), decimals)
  }

  function Magnitude(d: DecimalText, decimals: nat): nat
    requires AllDigits(d.whole) && AllDigits(d.frac)
  {
    var padded := PadEnd(d.frac, decimals);
    FromDecimal((if d.whole == [] then "0" else d.whole) + padded)
  }

  function ParseMoney(input: string, c: Currency): Result<Money, MoneyError> {
    match ParseDecimal(input, Decimals(c))
    case Ok(atomic) => Ok(Money(atomic, c))
    case Err(e) => Err(e)
  }

  /** The digits of `n`, at least one of them before the last `decimals`. */
  function FixedDigits(n: nat, decimals: nat): (d: DecimalText)
    ensures AllDigits(d.whole) && AllDigits(d.frac) && |d.whole| >= 1 && |d.frac| == decimals
    ensures FromDecimal(d.whole + d.frac) == n
  {
    var digits := PadStart(ToDecimal(n), decimals + 1);
    var split := |digits| - decimals;
    PadStartKeepsValue(ToDecimal(n), decimals + 1);
    assert digits == digits[..split] + digits[split..];
    DecimalText(digits[..split], decimals > 0, digits[split..])
  }

  function FormatUnsigned(n: nat, decimals: nat): string {
    var d := FixedDigits(n, decimals);
    if decimals > 0 then d.whole + "." + d.frac else d.whole
  }

  function Sign(negative: bool): string { if negative then "-" else "" }

  function FormatDecimal(x: int, decimals: nat): string {
    Sign(x < 0) + FormatUnsigned(Abs(x), decimals)
  }

  function FormatMoney(m: Money): string {
    FormatDecimal(m.atomic, Decimals(m.currency))
  }

  lemma ParseUndoesFormatUnsigned(n: nat, decimals: nat)
    ensures var text := FormatUnsigned(n, decimals);
            && ParseUnsigned(text, decimals) == Ok(n)
            && text != [] && text[0] != '-' && forall i :: 0 <= i < |text| ==> Plain(text[i])
  {
    var d := FixedDigits(n, decimals);
    var text := FormatUnsigned(n, decimals);
    BodyIsPlain(d.whole, d.frac);
    SplitJoined(d.whole, d.frac);
    assert decimals == 0 ==> d.frac == [];
    MagnitudeOfFixed(d);
  }

  lemma BodyIsPlain(whole: string, frac: string)
    requires AllDigits(whole) && AllDigits(frac) && whole != []
    ensures forall i :: 0 <= i < |whole + "." + frac| ==> Plain((whole + "." + frac)[i])
    ensures whole[0] != '-'
  {
  }

  lemma MagnitudeOfFixed(d: DecimalText)
    requires AllDigits(d.whole) && AllDigits(d.frac) && d.whole != []
    ensures AllDigits(d.whole + d.frac) && Magnitude(d, |d.frac|) == FromDecimal(d.whole + d.frac)
  {
    assert PadEnd(d.frac, |d.frac|) == d.frac;
  }

  lemma SignedText(negative: bool, body: string)
    requires body != [] && body[0] != '-' && forall i :: 0 <= i < |body| ==> Plain(body[i])
    ensures var text := Sign(negative) + body;
            Strip(text) == text && text != [] && (text[0] == '-' <==> negative) && text[|Sign(negative)|..] == body
  {
    StripKeeps(Sign(negative) + body);
  }

  lemma SignedBody(negative: bool, body: string, decimals: nat)
    requires body != [] && body[0] != '-' && ParseUnsigned(body, decimals).Ok?
    requires forall i :: 0 <= i < |body| ==> Plain(body[i])
    ensures var n: int := ParseUnsigned(body, decimals).value;
            ParseDecimal(Sign(negative) + body, decimals) == Ok(if negative then -n else n)
  {
    SignedText(negative, body);
    if !negative {
      assert Sign(negative) + body == body;
    }
  }

  lemma ParseUndoesFormatAt(x: int, decimals: nat)
    ensures ParseDecimal(FormatDecimal(x, decimals), decimals) == Ok(x)
  {
    ParseUndoesFormatUnsigned(Abs(x), decimals);
    SignedBody(x < 0, FormatUnsigned(Abs(x), decimals), decimals);
  }

  /** Parsing undoes formatting for every amount of both currencies. */
  lemma ParseUndoesFormat(m: Money)
    ensures ParseMoney(FormatMoney(m), m.currency) == Ok(m)
  {
    ParseUndoesFormatAt(m.atomic, Decimals(m.currency));
  }

  /** An accepted amount is exact: the sign is the text's and nothing of the fraction is cut off. */
  lemma ParseIsExact(input: string, decimals: nat)
    requires ParseDecimal(input, decimals).Ok?
    ensures var t := Strip(input);
            var x := ParseDecimal(input, decimals).value;
            var negative := t != [] && t[0] == '-';
            var d := SplitDecimal(if negative then t[1..] else t).value;
            && |d.frac| <= decimals
            && (if negative then x <= 0 else x >= 0)
            && Abs(x) == FromDecimal(d.whole) * Pow10(decimals) + FromDecimal(d.frac) * Pow10(decimals - |d.frac|)
  {
    var t := Strip(input);
    var d := SplitDecimal(if t != [] && t[0] == '-' then t[1..] else t).value;
    MagnitudeIsExact(d, decimals);
  }

  lemma MagnitudeIsExact(d: DecimalText, decimals: nat)
    requires AllDigits(d.whole) && AllDigits(d.frac) && |d.frac| <= decimals
    ensures Magnitude(d, decimals)
            == FromDecimal(d.whole) * Pow10(decimals) + FromDecimal(d.frac) * Pow10(decimals - |d.frac|)
  {
    var whole := if d.whole == [] then "0" else d.whole;
    PadEndScalesValue(d.frac, decimals);
    FromDecimalConcat(whole, PadEnd(d.frac, decimals));
    assert FromDecimal("0") == 0;
    assert FromDecimal(whole) == FromDecimal(d.whole);
  }

  function RateOf(text: string, source: string, scale: nat := 18): Result<Rate, MoneyError> {
    match SplitDecimal(Trim(text))
    case None => Err(InvalidRate)
    case Some(d) =>
      if d.whole == [] then Err(InvalidRate)
      else
        var scaled := Truncated(d, scale);
        if scaled <= 0 then Err(NonPositiveRate)
        else if source == [] then Err(RateSourceRequired)
        else Ok(RateSnapshot(scaled, scale, source))
  }

  /** The value in units of 10^-places, cut after `places` digits. */
  function Truncated(d: DecimalText, places: nat): nat
    requires AllDigits(d.whole) && AllDigits(d.frac)
  {
    FromDecimal(d.whole + PadEnd(d.frac, places)[..places])
  }

  function RateToDbString(r: Rate): string {
    var d := FixedDigits(r.scaled, r.scale);
    d.whole + "." + d.frac
  }

  lemma TrimKeeps(s: string)
    requires s != [] && !IsSpace(s[0]) && !IsSpace(s[|s| - 1])
    ensures Trim(s) == s
  {
  }

  lemma JoinedTrims(whole: string, frac: string)
    requires AllDigits(whole) && AllDigits(frac) && whole != []
    ensures Trim(whole + "." + frac) == whole + "." + frac
  {
    var text := whole + "." + frac;
    assert text[0] == whole[0] && IsDigit(text[0]);
    assert text[|text| - 1] == if frac == [] then '.' else frac[|frac| - 1];
    TrimKeeps(text);
  }

  lemma RateTextValue(r: Rate)
    ensures Truncated(FixedDigits(r.scaled, r.scale), r.scale) == r.scaled
  {
    var d := FixedDigits(r.scaled, r.scale);
    assert PadEnd(d.frac, r.scale)[..r.scale] == d.frac;
  }

  /** A persisted rate reads back as the same rate. */
  lemma RateSurvivesDatabase(r: Rate)
    requires r.source != []
    ensures RateOf(RateToDbString(r), r.source, r.scale) == Ok(r)
  {
    var d := FixedDigits(r.scaled, r.scale);
    JoinedTrims(d.whole, d.frac);
    SplitJoined(d.whole, d.frac);
    RateTextValue(r);
  }

  // ---------------------------------------------------------------------------
  // The aggregator's fixed point
  // ---------------------------------------------------------------------------

  predicate HasNonZeroDigit(s: string) { exists i :: 0 <= i < |s| && '1' <= s[i] <= '9' }

  function ToFixed(value: string, places: nat): Result<nat, MoneyError> {
    match SplitDecimal(value)
    case None => Err(NotPositiveDecimal)
    case Some(d) =>
      if d.whole == [] || (d.dot && d.frac == []) || !HasNonZeroDigit(value) then Err(NotPositiveDecimal)
      else Ok(Truncated(d, places))
  }

  function StripTrailingZeros(s: string): (t: string)
    requires AllDigits(s)
    ensures AllDigits(t) && |t| <= |s| && PadEnd(t, |s|) == s
  {
    if s != [] && s[|s| - 1] == '0' then StripTrailingZeros(s[..|s| - 1]) else s
  }

  function FromFixed(scaled: nat, places: nat): string {
    var whole := ToDecimal(Quotient(scaled, Pow10(places)));
    var frac := StripTrailingZeros(PadStart(ToDecimal(Remainder(scaled, Pow10(places))), places));
    if frac != [] then whole + "." + frac else whole
  }

  /** The aggregator keeps 18 places. */
  function ToScaled(value: string): Result<nat, MoneyError> { ToFixed(value, 18) }

  function FromScaled(scaled: nat): string { FromFixed(scaled, 18) }

  lemma {:induction false} ToDecimalLength(n: nat, k: nat)
    requires k >= 1 && n < Pow10(k)
    ensures |ToDecimal(n)| <= k
  {
    assert Pow10(k) == 10 * Pow10(k - 1);
    if n >= 10 {
      assert k >= 2;
      ToDecimalLength(n / 10, k - 1);
    }
  }

  lemma {:induction false} NoNonZeroDigit(s: string)
    requires AllDigits(s) && forall i :: 0 <= i < |s| ==> !('1' <= s[i] <= '9')
    ensures FromDecimal(s) == 0
  {
    if s != [] {
      NoNonZeroDigit(s[..|s| - 1]);
    }
  }

  /** A value rendered from its digits reads back, and is zero when no digit is. */
  lemma RenderedDigits(whole: string, padded: string, text: string)
    requires AllDigits(whole) && AllDigits(padded) && padded != []
    requires var frac := StripTrailingZeros(padded); text == if frac != [] then whole + "." + frac else whole
    ensures SplitDecimal(text).Some?
    ensures SplitDecimal(text).value.whole == whole && Truncated(SplitDecimal(text).value, |padded|) == FromDecimal(whole + padded)
    ensures SplitDecimal(text).value.dot ==> SplitDecimal(text).value.frac != []
    ensures !HasNonZeroDigit(text) ==> FromDecimal(whole + padded) == 0
  {
    var frac := StripTrailingZeros(padded);
    SplitJoined(whole, frac);
    assert PadEnd(frac, |padded|)[..|padded|] == padded;
    if !HasNonZeroDigit(text) {
      ZeroRendered(whole, padded, frac, text);
    }
  }

  lemma ZeroRendered(whole: string, padded: string, frac: string, text: string)
    requires AllDigits(whole) && AllDigits(frac) && AllDigits(padded) && |frac| <= |padded| && PadEnd(frac, |padded|) == padded
    requires text == (if frac != [] then whole + "." + frac else whole) && !HasNonZeroDigit(text)
    ensures FromDecimal(whole + padded) == 0
  {
    forall i | 0 <= i < |whole| ensures !('1' <= whole[i] <= '9') { assert whole[i] == text[i]; }
    forall i | 0 <= i < |frac| ensures !('1' <= frac[i] <= '9') { assert frac[i] == text[|whole| + 1 + i]; }
    forall i | 0 <= i < |padded| ensures !('1' <= padded[i] <= '9') { assert padded[i] == PadEnd(frac, |padded|)[i]; }
    NoNonZeroDigit(whole + padded);
  }

  lemma ReadsRendered(whole: string, padded: string, text: string)
    requires AllDigits(whole) && whole != [] && AllDigits(padded) && padded != [] && FromDecimal(whole + padded) > 0
    requires var frac := StripTrailingZeros(padded); text == if frac != [] then whole + "." + frac else whole
    ensures ToFixed(text, |padded|) == Ok(FromDecimal(whole + padded))
  {
    RenderedDigits(whole, padded, text);
  }

  lemma RenderedParts(x: nat, places: nat)
    requires places >= 1
    ensures var p := Pow10(places);
            var whole, padded := ToDecimal(Quotient(x, p)), PadStart(ToDecimal(Remainder(x, p)), places);
            |padded| == places && AllDigits(whole) && AllDigits(padded) && FromDecimal(whole + padded) == x
  {
    var p := Pow10(places);
    var low := Remainder(x, p);
    ToDecimalLength(low, places);
    PadStartKeepsValue(ToDecimal(low), places);
    FromDecimalConcat(ToDecimal(Quotient(x, p)), PadStart(ToDecimal(low), places));
  }

  /** Reading undoes rendering for every positive value. */
  lemma FixedRoundTrip(x: nat, places: nat)
    requires x > 0 && places >= 1
    ensures ToFixed(FromFixed(x, places), places) == Ok(x)
  {
    RenderedParts(x, places);
    var p := Pow10(places);
    ReadsRendered(ToDecimal(Quotient(x, p)), PadStart(ToDecimal(Remainder(x, p)), places), FromFixed(x, places));
  }

  lemma ScaledRoundTrip(x: nat)
    requires x > 0
    ensures ToScaled(FromScaled(x)) == Ok(x)
  {
    FixedRoundTrip(x, 18);
  }

  predicate OnlyZeros(s: string) { forall i :: 0 <= i < |s| ==> s[i] == '0' }

  lemma {:induction false} ZeroExactlyWhenOnlyZeros(s: string)
    requires AllDigits(s)
    ensures FromDecimal(s) == 0 <==> OnlyZeros(s)
  {
    if s != [] {
      var init, last := s[..|s| - 1], s[|s| - 1];
      ZeroExactlyWhenOnlyZeros(init);
      assert FromDecimal(s) == 0 <==> FromDecimal(init) == 0 && DigitValue(last) == 0;
      assert s == init + [last];
    }
  }

  lemma OnlyZerosConcat(s: string, t: string)
    ensures OnlyZeros(s + t) <==> OnlyZeros(s) && OnlyZeros(t)
  {
    if OnlyZeros(s + t) {
      forall i | 0 <= i < |s| ensures s[i] == '0' { assert (s + t)[i] == s[i]; }
      forall i | 0 <= i < |t| ensures t[i] == '0' { assert (s + t)[|s| + i] == t[i]; }
    }
  }

  lemma KeptPlaces(frac: string, places: nat)
    requires AllDigits(frac)
    ensures OnlyZeros(PadEnd(frac, places)[..places]) <==> OnlyZeros(if |frac| < places then frac else frac[..places])
  {
    var kept := if |frac| < places then frac else frac[..places];
    var padded := PadEnd(frac, places)[..places];
    assert padded == kept + Zeros(places - |kept|);
    if OnlyZeros(padded) {
      forall i | 0 <= i < |kept| ensures kept[i] == '0' {
        assert padded[i] == kept[i];
      }
    }
  }

  /** A positive decimal is cut after the last kept place: it scales to zero exactly when it holds only '0' up to there. */
  lemma SmallValuesScaleToZero(text: string, places: nat)
    requires ToFixed(text, places).Ok?
    ensures SplitDecimal(text).Some?
    ensures var d := SplitDecimal(text).value;
            ToFixed(text, places) == Ok(0) <==>
              OnlyZeros(d.whole) && OnlyZeros(if |d.frac| < places then d.frac else d.frac[..places])
  {
    var d := SplitDecimal(text).value;
    var kept := PadEnd(d.frac, places)[..places];
    ZeroExactlyWhenOnlyZeros(d.whole + kept);
    KeptPlaces(d.frac, places);
    OnlyZerosConcat(d.whole, kept);
  }
}
