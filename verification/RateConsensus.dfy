/** The TOMAN/GRAM rate from two market legs: quorum, outlier removal around the median, and sanity bounds. */
module RateConsensus {
  import opened Basics
  import opened MoneyMath
  import opened Sums
  import opened Sequences

  /** Times are milliseconds. */
  datatype Observation = Observation(value: string, source: string, observedAt: int)

  datatype Fetched = Answer(observation: Observation) | FetchFailed

  datatype RateError =
    | RateUnavailable | RateDiscrepancy | RateInvalid | RateOutOfBounds | RateDeviationTooLarge | ArithmeticFailure

  datatype Config = Config(
    minQuorum: Option<int>, maxAge: int, minScaled: int, maxScaled: int, maxDeviation: int, maxCrossDeviation: int)

  datatype Item = Item(observation: Observation, scaled: nat)

  const SCALE_FACTOR := 1_000_000_000_000_000_000

  const FUTURE_TOLERANCE := 60_000

  // ---------------------------------------------------------------------------
  // What consensus means
  // ---------------------------------------------------------------------------

  predicate Usable(f: Fetched, now: int, maxAge: int) {
    && f.Answer?
    && now - f.observation.observedAt <= maxAge * 1000
    && now - f.observation.observedAt >= -FUTURE_TOLERANCE
    && ToScaled(f.observation.value).Ok?
  }

  function UsableOnes(fs: seq<Fetched>, now: int, maxAge: int): (r: seq<Observation>)
    ensures |r| <= |fs| && forall o :: o in r ==> ToScaled(o.value).Ok?
  {
    if fs == [] then []
    else
      var n := |fs| - 1;
      UsableOnes(fs[..n], now, maxAge) + (if Usable(fs[n], now, maxAge) then [fs[n].observation] else [])
  }

  predicate Parsable(valid: seq<Observation>) { forall o :: o in valid ==> ToScaled(o.value).Ok? }

  function Items(valid: seq<Observation>): (r: seq<Item>)
    requires Parsable(valid)
    ensures |r| == |valid|
  {
    if valid == [] then []
    else
      var n := |valid| - 1;
      assert valid[n] in valid;
      Items(valid[..n]) + [Item(valid[n], ToScaled(valid[n].value).value)]
  }

  function Scaled(): Item -> int { (i: Item) => i.scaled }

  function Distance(x: int, y: int): nat { if x > y then x - y else y - x }

  function Near(median: nat, threshold: int): Item -> bool
    requires median > 0
  {
    (i: Item) => Distance(i.scaled, median) * 100 / median <= threshold
  }

  function Middle<T>(s: seq<T>): T
    requires s != []
  {
    s[|s| / 2]
  }

  function Sources(items: seq<Item>): seq<string> {
    if items == [] then [] else Sources(items[..|items| - 1]) + [items[|items| - 1].observation.source]
  }

  function Names(valid: seq<Observation>): seq<string> {
    if valid == [] then [] else Names(valid[..|valid| - 1]) + [valid[|valid| - 1].source]
  }

  /** The reading a leg settles on and the sources it is credited to. */
  datatype Choice = Choice(item: Item, names: seq<string>)

  function Settled(c: Choice): Observation {
    Observation(FromScaled(c.item.scaled), "[" + Join(c.names, '+') + "]", c.item.observation.observedAt)
  }

  function RequiredQuorum(minQuorum: Option<int>, sources: nat): int {
    if minQuorum.Some? then minQuorum.value else if sources >= 2 then 2 else 1
  }

  function Consensus(valid: seq<Observation>, sources: nat, minQuorum: Option<int>, threshold: int): Result<Observation, RateError>
    requires Parsable(valid)
  {
    if |valid| < RequiredQuorum(minQuorum, sources) then Err(if |valid| == 0 then RateUnavailable else RateDiscrepancy)
    else if |valid| == 1 then Ok(valid[0])
    else if |valid| == 0 then Err(ArithmeticFailure)
    else match Agree(Sort(Items(valid), Scaled()), Names(valid), threshold)
         case Err(e) => Err(e)
         case Ok(choice) => Ok(Settled(choice))
  }

  /** Two or more readings in ascending order; a smallest reading of zero makes the divergence undefined. */
  function Agree(items: seq<Item>, names: seq<string>, threshold: int): Result<Choice, RateError>
    requires |items| >= 2
  {
    var min, max := items[0].scaled, items[|items| - 1].scaled;
    if min == 0 then Err(ArithmeticFailure)
    else if (max - min) * 100 / min <= threshold then Ok(Choice(Middle(items), names))
    else if |items| == 2 then Err(RateDiscrepancy)
    else NearMedian(items, threshold)
  }

  function NearMedian(items: seq<Item>, threshold: int): Result<Choice, RateError>
    requires |items| >= 2
  {
    if Middle(items).scaled == 0 then Err(ArithmeticFailure)
    else
      var accepted := Keep(items, Near(Middle(items).scaled, threshold));
      if |accepted| < 2 then Err(RateDiscrepancy) else Ok(Choice(Middle(accepted), Sources(accepted)))
  }

  // ---------------------------------------------------------------------------
  // A majority that agrees decides
  // ---------------------------------------------------------------------------

  function Inside(lo: int, hi: int): Item -> int {
    (i: Item) => if lo <= i.scaled <= hi then 1 else 0
  }

  lemma {:induction false} CountBounds(items: seq<Item>, lo: int, hi: int)
    ensures 0 <= Sum(items, Inside(lo, hi)) <= |items|
  {
    if items != [] {
      CountBounds(items[..|items| - 1], lo, hi);
    }
  }

  lemma PrefixOutside(items: seq<Item>, k: nat, lo: int, hi: int)
    requires k <= |items| && forall i :: 0 <= i < k ==> Inside(lo, hi)(items[i]) == 0
    ensures Sum(items, Inside(lo, hi)) <= |items| - k
  {
    assert items == items[..k] + items[k..];
    SumConcat(items[..k], items[k..], Inside(lo, hi));
    SumZero(items[..k], Inside(lo, hi));
    CountBounds(items[k..], lo, hi);
  }

  lemma SuffixOutside(items: seq<Item>, k: nat, lo: int, hi: int)
    requires k <= |items| && forall i :: k <= i < |items| ==> Inside(lo, hi)(items[i]) == 0
    ensures Sum(items, Inside(lo, hi)) <= k
  {
    assert items == items[..k] + items[k..];
    SumConcat(items[..k], items[k..], Inside(lo, hi));
    SumZero(items[k..], Inside(lo, hi));
    CountBounds(items[..k], lo, hi);
  }

  /** More than half the readings in an interval put the middle one there. */
  lemma MiddleInside(items: seq<Item>, lo: int, hi: int)
    requires items != [] && Sorted(items, Scaled()) && 2 * Sum(items, Inside(lo, hi)) > |items|
    ensures lo <= Middle(items).scaled <= hi
  {
    var m := |items| / 2;
    assert forall i :: 0 <= i < m ==> Scaled()(items[i]) <= Scaled()(items[m]);
    assert forall i :: m < i < |items| ==> Scaled()(items[m]) <= Scaled()(items[i]);
    if items[m].scaled < lo {
      PrefixOutside(items, m + 1, lo, hi);
    } else if items[m].scaled > hi {
      SuffixOutside(items, m, lo, hi);
    }
  }

  lemma PercentShrinks(d: nat, b: nat, width: nat, lo: nat)
    requires 0 < lo <= b && d <= width
    ensures d * 100 / b <= width * 100 / lo
  {
    var x, y := d * 100 / b, width * 100 / lo;
    assert x * b <= d * 100 && width * 100 < (y + 1) * lo;
    if x > y {
      MulOrder(y + 1, lo, x, b);
    }
  }

  lemma MulOrder(a: nat, b: nat, c: nat, d: nat)
    requires a <= c && b <= d
    ensures a * b <= c * d
  {
    assert c * d == a * b + a * (d - b) + (c - a) * d;
  }

  lemma AllInside(items: seq<Item>, lo: int, hi: int)
    requires |items| == 2 && 2 * Sum(items, Inside(lo, hi)) > 2
    ensures lo <= items[0].scaled <= hi && lo <= items[1].scaled <= hi
  {
    assert items == [items[0], items[1]];
    Sum2(items[0], items[1], Inside(lo, hi));
  }

  /** The outcome is one of the readings, and it lies in the band. */
  predicate SettlesIn(r: Result<Choice, RateError>, items: seq<Item>, lo: int, hi: int) {
    r.Ok? && r.value.item in items && lo <= r.value.item.scaled <= hi
  }

  lemma NearMedianAgrees(items: seq<Item>, threshold: int, lo: nat, hi: nat)
    requires |items| >= 3 && Sorted(items, Scaled()) && 0 < lo <= hi && (hi - lo) * 100 / lo <= threshold
    requires 2 * Sum(items, Inside(lo, hi)) > |items|
    ensures SettlesIn(NearMedian(items, threshold), items, lo, hi)
  {
    var median := Middle(items).scaled;
    MiddleInside(items, lo, hi);
    var near := Near(median, threshold);
    var accepted := Keep(items, near);
    forall x | x in items && !near(x) ensures Inside(lo, hi)(x) == 0 {
      OutsideIsFar(x, median, threshold, lo, hi);
    }
    KeepCounts(items, near, Inside(lo, hi));
    KeepSorted(items, near, Scaled());
    CountBounds(accepted, lo, hi);
    MiddleInside(accepted, lo, hi);
    assert Middle(accepted) in accepted;
  }

  lemma TwoAgree(items: seq<Item>, threshold: int, lo: nat, hi: nat)
    requires |items| == 2 && items[0].scaled <= items[1].scaled && 0 < lo <= hi && (hi - lo) * 100 / lo <= threshold
    requires 2 * Sum(items, Inside(lo, hi)) > 2
    ensures items[0].scaled > 0 && (items[1].scaled - items[0].scaled) * 100 / items[0].scaled <= threshold
  {
    AllInside(items, lo, hi);
    PercentShrinks(items[1].scaled - items[0].scaled, items[0].scaled, hi - lo, lo);
  }

  lemma MajorityAgrees(items: seq<Item>, names: seq<string>, threshold: int, lo: nat, hi: nat)
    requires |items| >= 2 && Sorted(items, Scaled()) && 0 < lo <= hi && (hi - lo) * 100 / lo <= threshold
    requires items[0].scaled > 0 && 2 * Sum(items, Inside(lo, hi)) > |items|
    ensures SettlesIn(Agree(items, names, threshold), items, lo, hi)
  {
    MiddleInside(items, lo, hi);
    assert Middle(items) in items;
    if |items| >= 3 {
      NearMedianAgrees(items, threshold, lo, hi);
    } else {
      assert Scaled()(items[0]) <= Scaled()(items[1]);
      TwoAgree(items, threshold, lo, hi);
    }
  }

  lemma OutsideIsFar(x: Item, median: nat, threshold: int, lo: nat, hi: nat)
    requires 0 < lo <= median <= hi && (hi - lo) * 100 / lo <= threshold && !Near(median, threshold)(x)
    ensures !(lo <= x.scaled <= hi)
  {
    if lo <= x.scaled <= hi {
      PercentShrinks(Distance(x.scaled, median), median, hi - lo, lo);
    }
  }

  /** 1 when the reading parses and lies in the band. */
  function Reads(lo: int, hi: int): Observation -> int {
    (o: Observation) => if ToScaled(o.value).Ok? && lo <= ToScaled(o.value).value <= hi then 1 else 0
  }

  lemma {:induction false} ItemsCount(valid: seq<Observation>, lo: int, hi: int)
    requires Parsable(valid)
    ensures Sum(Items(valid), Inside(lo, hi)) == Sum(valid, Reads(lo, hi))
    ensures forall i :: i in Items(valid) ==> i.observation in valid && ToScaled(i.observation.value) == Ok(i.scaled)
  {
    if valid != [] {
      var n := |valid| - 1;
      ItemsCount(valid[..n], lo, hi);
      assert valid[n] in valid;
      SumAppend(Items(valid[..n]), Item(valid[n], ToScaled(valid[n].value).value), Inside(lo, hi));
    }
  }

  lemma MajorityChoice(valid: seq<Observation>, threshold: int, lo: nat, hi: nat)
    requires Parsable(valid) && |valid| >= 2 && forall o :: o in valid ==> ToScaled(o.value).value > 0
    requires 0 < lo <= hi && (hi - lo) * 100 / lo <= threshold && 2 * Sum(valid, Reads(lo, hi)) > |valid|
    ensures SettlesIn(Agree(Sort(Items(valid), Scaled()), Names(valid), threshold), Sort(Items(valid), Scaled()), lo, hi)
  {
    SortedReadings(valid, lo, hi);
    MajorityAgrees(Sort(Items(valid), Scaled()), Names(valid), threshold, lo, hi);
  }

  /**
   If the quorum is met, every usable reading is positive and more than half of at least two lie in a band no wider
   than the threshold, the leg settles inside the band whatever the other sources say.
   */
  lemma MajorityDecides(valid: seq<Observation>, sources: nat, minQuorum: Option<int>, threshold: int, lo: nat, hi: nat)
    requires Parsable(valid) && |valid| >= 2 && |valid| >= RequiredQuorum(minQuorum, sources)
    requires forall o :: o in valid ==> ToScaled(o.value).value > 0
    requires 0 < lo <= hi && (hi - lo) * 100 / lo <= threshold
    requires 2 * Sum(valid, Reads(lo, hi)) > |valid|
    ensures var r := Consensus(valid, sources, minQuorum, threshold);
            r.Ok? && Reads(lo, hi)(r.value) == 1
  {
    MajorityChoice(valid, threshold, lo, hi);
    SettledReads(Agree(Sort(Items(valid), Scaled()), Names(valid), threshold).value, lo, hi);
  }

  lemma SettledReads(c: Choice, lo: int, hi: int)
    requires 0 < lo <= c.item.scaled <= hi
    ensures Reads(lo, hi)(Settled(c)) == 1
  {
    ScaledRoundTrip(c.item.scaled);
  }

  lemma SortedReadings(valid: seq<Observation>, lo: int, hi: int)
    requires Parsable(valid) && forall o :: o in valid ==> ToScaled(o.value).value > 0
    ensures var items := Sort(Items(valid), Scaled());
            && |items| == |valid| && Sorted(items, Scaled())
            && Sum(items, Inside(lo, hi)) == Sum(valid, Reads(lo, hi))
            && forall i :: 0 <= i < |items| ==> items[i].scaled > 0
  {
    var items := Sort(Items(valid), Scaled());
    ItemsCount(valid, lo, hi);
    SortSum(Items(valid), Scaled(), Inside(lo, hi));
    SortIsSort(Items(valid), Scaled());
    forall i | 0 <= i < |items| ensures items[i].scaled > 0 {
      assert items[i] in items && items[i] in Items(valid);
    }
  }

  // ---------------------------------------------------------------------------
  // What a leg can and cannot answer
  // ---------------------------------------------------------------------------

  lemma AgreeFails(items: seq<Item>, names: seq<string>, threshold: int)
    requires |items| >= 2 && Sorted(items, Scaled())
    ensures Agree(items, names, threshold) == Err(ArithmeticFailure) <==> exists i :: i in items && i.scaled == 0
    ensures Agree(items, names, threshold).Ok? ==> Agree(items, names, threshold).value.item in items
  {
    assert Scaled()(items[0]) <= Scaled()(items[|items| / 2]);
    assert items[0] in items && Middle(items) in items;
    if i :| i in items && i.scaled == 0 {
      var k :| 0 <= k < |items| && items[k] == i;
      assert k > 0 ==> Scaled()(items[0]) <= Scaled()(items[k]);
    }
    if items[0].scaled > 0 && Agree(items, names, threshold).Ok? {
      var accepted := Keep(items, Near(Middle(items).scaled, threshold));
      if accepted != [] { assert Middle(accepted) in accepted; }
    }
  }

  /** Past the quorum, a leg of two or more readings breaks down exactly when one of them is too small for 18 places. */
  lemma BreaksExactlyOnZero(valid: seq<Observation>, sources: nat, minQuorum: Option<int>, threshold: int)
    requires Parsable(valid) && |valid| >= 2 && |valid| >= RequiredQuorum(minQuorum, sources)
    ensures Consensus(valid, sources, minQuorum, threshold) == Err(ArithmeticFailure)
       <==> exists o :: o in valid && ToScaled(o.value).value == 0
  {
    var items := Items(valid);
    ItemsCover(valid);
    SortIsSort(items, Scaled());
    AgreeFails(Sort(items, Scaled()), Names(valid), threshold);
  }

  lemma {:induction false} ItemsCover(valid: seq<Observation>)
    requires Parsable(valid)
    ensures forall o :: o in valid <==> exists i :: i in Items(valid) && i.observation == o
    ensures forall i :: i in Items(valid) ==> ToScaled(i.observation.value) == Ok(i.scaled)
  {
    if valid != [] {
      var n := |valid| - 1;
      assert valid == valid[..n] + [valid[n]];
      ItemsCover(valid[..n]);
      var last := Item(valid[n], ToScaled(valid[n].value).value);
      assert Items(valid) == Items(valid[..n]) + [last];
      assert last in Items(valid);
      forall o | o in valid[..n] ensures exists i :: i in Items(valid) && i.observation == o {
        var i :| i in Items(valid[..n]) && i.observation == o;
        assert i in Items(valid);
      }
    }
  }

  // ---------------------------------------------------------------------------
  // Quotes
  // ---------------------------------------------------------------------------

  function SanityError(cfg: Config, last: Option<nat>, derived: nat): Option<RateError> {
    if derived <= 0 then Some(RateInvalid)
    else if derived < cfg.minScaled || derived > cfg.maxScaled then Some(RateOutOfBounds)
    else match last
         case None => None
         case Some(previous) =>
           if previous == 0 then Some(ArithmeticFailure)
           else if Distance(derived, previous) * 100 / previous > cfg.maxDeviation then Some(RateDeviationTooLarge)
           else None
  }

  datatype Quote = Quote(derived: nat, tomanPerGram: string, source: string, cryptoUsd: Observation, usdToman: Observation)

  function Leg(cfg: Config, fs: seq<Fetched>, now: int): Result<Observation, RateError> {
    Consensus(UsableOnes(fs, now, cfg.maxAge), |fs|, cfg.minQuorum, cfg.maxCrossDeviation)
  }

  /** The product of two scaled values, at the same scale. */
  function ScaledProduct(x: nat, y: nat): nat { x * y / SCALE_FACTOR }

  function DeriveQuote(cfg: Config, last: Option<nat>, g: Observation, t: Observation): Result<Quote, RateError> {
    if ToScaled(g.value).Err? || ToScaled(t.value).Err? then Err(RateInvalid)
    else
      var derived := ScaledProduct(ToScaled(g.value).value, ToScaled(t.value).value);
      match SanityError(cfg, last, derived)
      case Some(e) => Err(e)
      case None => Ok(Quote(derived, FromScaled(derived), g.source + "*" + t.source, g, t))
  }

  function GetQuote(cfg: Config, last: Option<nat>, crypto: seq<Fetched>, fx: seq<Fetched>, now: int): Result<Quote, RateError> {
    match Leg(cfg, crypto, now)
    case Err(e) => Err(e)
    case Ok(g) =>
      match Leg(cfg, fx, now)
      case Err(e) => Err(e)
      case Ok(t) => DeriveQuote(cfg, last, g, t)
  }

  /** A saved baseline that does not parse is ignored. */
  function Baseline(last: Option<nat>, saved: Option<string>): Option<nat> {
    if saved.Some? && ToScaled(saved.value).Ok? then Some(ToScaled(saved.value).value) else last
  }

  lemma DerivedInBand(cfg: Config, last: Option<nat>, g: Observation, t: Observation, glo: nat, ghi: nat, tlo: nat, thi: nat)
    requires Reads(glo, ghi)(g) == 1 && Reads(tlo, thi)(t) == 1
    ensures var q := DeriveQuote(cfg, last, g, t);
            q.Ok? ==>
              && glo * tlo / SCALE_FACTOR <= q.value.derived <= ghi * thi / SCALE_FACTOR
              && cfg.minScaled <= q.value.derived <= cfg.maxScaled
              && (last.Some? ==> last.value > 0 && Distance(q.value.derived, last.value) * 100 / last.value <= cfg.maxDeviation)
  {
    var x, y := ToScaled(g.value).value, ToScaled(t.value).value;
    MulOrder(glo, tlo, x, y);
    MulOrder(x, y, ghi, thi);
    QuotientOrder(glo * tlo, x * y);
    QuotientOrder(x * y, ghi * thi);
  }

  lemma QuotientOrder(a: nat, b: nat)
    requires a <= b
    ensures a / SCALE_FACTOR <= b / SCALE_FACTOR
  {
  }
}
