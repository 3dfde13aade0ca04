/**
 What a market leg answers, said of the readings as they were fetched: which of them count, when they agree, and which one
 the leg settles on. Only counts over the fetched readings are used, no sorting.
 */
module RateAnswers {
  import opened Basics
  import opened MoneyMath
  import opened Sums
  import opened Sequences
  import C = RateConsensus
  import opened RateConsensus

  // ---------------------------------------------------------------------------
  // Readings that count
  // ---------------------------------------------------------------------------

  /** An answer that parses, is no older than the limit and no more than a minute ahead of the clock. */
  predicate Fresh(f: Fetched, now: int, maxAge: int) {
    f.Answer? && ToScaled(f.observation.value).Ok? && -60_000 <= now - f.observation.observedAt <= 1000 * maxAge
  }

  function Reading(f: Fetched): int {
    if f.Answer? && ToScaled(f.observation.value).Ok? then ToScaled(f.observation.value).value else 0
  }

  /** Some of the fetched readings: the fresh ones, or of those the ones within so many percent of a centre. */
  datatype Group = Group(now: int, maxAge: int, centre: Option<int>, threshold: int) {
    predicate Admits(x: int) {
      centre.Some? && centre.value > 0 ==> (if x > centre.value then x - centre.value else centre.value - x) * 100 / centre.value <= threshold
    }

    predicate Has(f: Fetched) { Fresh(f, now, maxAge) && Admits(Reading(f)) }
  }

  function Size(g: Group): Fetched -> int { (f: Fetched) => if g.Has(f) then 1 else 0 }

  function Below(g: Group, x: int): Fetched -> int { (f: Fetched) => if g.Has(f) && Reading(f) < x then 1 else 0 }

  function UpTo(g: Group, x: int): Fetched -> int { (f: Fetched) => if g.Has(f) && Reading(f) <= x then 1 else 0 }

  function From(g: Group, source: string): Fetched -> int {
    (f: Fetched) => if g.Has(f) && f.Answer? && f.observation.source == source then 1 else 0
  }

  function Is(name: string): string -> int { (n: string) => if n == name then 1 else 0 }

  /** The upper median of the group: at most half are below it, and more than half are not above it. */
  predicate Median(fs: seq<Fetched>, g: Group, x: int) {
    Sum(fs, Below(g, x)) <= Sum(fs, Size(g)) / 2 < Sum(fs, UpTo(g, x))
  }

  /** The answer is reading `f`, a median of the group, with its time, credited to the group's sources. */
  ghost predicate SettlesAs(r: Result<Observation, RateError>, fs: seq<Fetched>, g: Group, f: Fetched, names: seq<string>) {
    && r.Ok? && f in fs && g.Has(f) && Median(fs, g, Reading(f)) && Reading(f) >= 0
    && r.value == Observation(FromScaled(Reading(f)), "[" + Join(names, '+') + "]", f.observation.observedAt)
    && |names| == Sum(fs, Size(g)) && forall s :: Sum(names, Is(s)) == Sum(fs, From(g, s))
  }

  ghost predicate SettlesOn(r: Result<Observation, RateError>, fs: seq<Fetched>, g: Group) {
    exists f, names :: SettlesAs(r, fs, g, f, names)
  }

  /** No two readings of the group differ by more than the threshold, in percent of the smaller one. */
  ghost predicate Agreeing(fs: seq<Fetched>, g: Group) {
    forall f, h :: f in fs && h in fs && g.Has(f) && g.Has(h) && 0 < Reading(h) <= Reading(f) ==> Close(Reading(f), Reading(h), g.threshold)
  }

  predicate Close(larger: int, smaller: int, threshold: int)
    requires 0 < smaller
  {
    (larger - smaller) * 100 / smaller <= threshold
  }

  // ---------------------------------------------------------------------------
  // Counting over items is counting over what was fetched
  // ---------------------------------------------------------------------------

  function ItemOf(f: Fetched): Item
    requires f.Answer? && ToScaled(f.observation.value).Ok?
  {
    Item(f.observation, ToScaled(f.observation.value).value)
  }

  lemma {:induction false} ItemsAppend(valid: seq<Observation>, o: Observation)
    requires Parsable(valid) && ToScaled(o.value).Ok?
    ensures Parsable(valid + [o]) && Items(valid + [o]) == Items(valid) + [Item(o, ToScaled(o.value).value)]
  {
    assert (valid + [o])[..|valid|] == valid;
  }

  lemma UsableStep(fs: seq<Fetched>, now: int, maxAge: int)
    requires fs != []
    ensures var n := |fs| - 1;
            UsableOnes(fs, now, maxAge) == UsableOnes(fs[..n], now, maxAge) + (if Fresh(fs[n], now, maxAge) then [fs[n].observation] else [])
  {
  }

  lemma {:induction false} ItemsCount(fs: seq<Fetched>, now: int, maxAge: int, h: Item -> int, k: Fetched -> int)
    requires forall f :: k(f) == if Fresh(f, now, maxAge) then h(ItemOf(f)) else 0
    ensures Sum(Items(UsableOnes(fs, now, maxAge)), h) == Sum(fs, k)
  {
    if fs != [] {
      var n := |fs| - 1;
      var init := UsableOnes(fs[..n], now, maxAge);
      ItemsCount(fs[..n], now, maxAge, h, k);
      UsableStep(fs, now, maxAge);
      if Fresh(fs[n], now, maxAge) {
        ItemsAppend(init, fs[n].observation);
        SumAppend(Items(init), ItemOf(fs[n]), h);
      } else {
        assert UsableOnes(fs, now, maxAge) == init;
      }
    }
  }

  ghost predicate Fetches(fs: seq<Fetched>, now: int, maxAge: int, i: Item) {
    exists f :: f in fs && Fresh(f, now, maxAge) && ItemOf(f) == i
  }

  lemma FetchesStep(fs: seq<Fetched>, now: int, maxAge: int, i: Item)
    requires fs != []
    ensures var n := |fs| - 1;
            Fetches(fs, now, maxAge, i) <==> Fetches(fs[..n], now, maxAge, i) || (Fresh(fs[n], now, maxAge) && ItemOf(fs[n]) == i)
  {
    assert fs == fs[..|fs| - 1] + [fs[|fs| - 1]];
  }

  lemma {:induction false} ItemsWereFetched(fs: seq<Fetched>, now: int, maxAge: int, i: Item)
    ensures i in Items(UsableOnes(fs, now, maxAge)) <==> Fetches(fs, now, maxAge, i)
  {
    if fs != [] {
      var n := |fs| - 1;
      var init := UsableOnes(fs[..n], now, maxAge);
      ItemsWereFetched(fs[..n], now, maxAge, i);
      FetchesStep(fs, now, maxAge, i);
      UsableStep(fs, now, maxAge);
      if Fresh(fs[n], now, maxAge) {
        ItemsAppend(init, fs[n].observation);
      } else {
        assert init + [] == init;
      }
    }
  }

  function ItemSize(g: Group): Item -> int { (i: Item) => if g.Admits(i.scaled) then 1 else 0 }

  function ItemBelow(g: Group, x: int): Item -> int { (i: Item) => if g.Admits(i.scaled) && i.scaled < x then 1 else 0 }

  function ItemUpTo(g: Group, x: int): Item -> int { (i: Item) => if g.Admits(i.scaled) && i.scaled <= x then 1 else 0 }

  function ItemFrom(g: Group, source: string): Item -> int {
    (i: Item) => if g.Admits(i.scaled) && i.observation.source == source then 1 else 0
  }

  /** The items are the group's readings: counted either way, they give the same numbers. */
  ghost predicate Represents(items: seq<Item>, fs: seq<Fetched>, g: Group) {
    && Sum(items, ItemSize(g)) == Sum(fs, Size(g))
    && (forall x: int :: Sum(items, ItemBelow(g, x)) == Sum(fs, Below(g, x)))
    && (forall x: int :: Sum(items, ItemUpTo(g, x)) == Sum(fs, UpTo(g, x)))
    && (forall s :: Sum(items, ItemFrom(g, s)) == Sum(fs, From(g, s)))
  }

  function Ascending(fs: seq<Fetched>, now: int, maxAge: int): seq<Item> {
    Sort(Items(UsableOnes(fs, now, maxAge)), Scaled())
  }

  lemma AscendingCounts(fs: seq<Fetched>, now: int, maxAge: int, h: Item -> int, k: Fetched -> int)
    requires forall f :: k(f) == if Fresh(f, now, maxAge) then h(ItemOf(f)) else 0
    ensures Sum(Ascending(fs, now, maxAge), h) == Sum(fs, k)
  {
    ItemsCount(fs, now, maxAge, h, k);
    SortSum(Items(UsableOnes(fs, now, maxAge)), Scaled(), h);
  }

  lemma AscendingRepresents(fs: seq<Fetched>, g: Group)
    ensures Represents(Ascending(fs, g.now, g.maxAge), fs, g)
  {
    var items := Ascending(fs, g.now, g.maxAge);
    AscendingCounts(fs, g.now, g.maxAge, ItemSize(g), Size(g));
    forall x: int ensures Sum(items, ItemBelow(g, x)) == Sum(fs, Below(g, x)) {
      AscendingCounts(fs, g.now, g.maxAge, ItemBelow(g, x), Below(g, x));
    }
    forall x: int ensures Sum(items, ItemUpTo(g, x)) == Sum(fs, UpTo(g, x)) {
      AscendingCounts(fs, g.now, g.maxAge, ItemUpTo(g, x), UpTo(g, x));
    }
    forall s ensures Sum(items, ItemFrom(g, s)) == Sum(fs, From(g, s)) {
      AscendingCounts(fs, g.now, g.maxAge, ItemFrom(g, s), From(g, s));
    }
  }

  lemma KeptRepresents(items: seq<Item>, fs: seq<Fetched>, g: Group, near: Item -> bool)
    requires Represents(items, fs, g) && forall i :: near(i) <==> g.Admits(i.scaled)
    ensures Represents(Keep(items, near), fs, g)
  {
    KeepCounts(items, near, ItemSize(g));
    forall x: int ensures Sum(Keep(items, near), ItemBelow(g, x)) == Sum(fs, Below(g, x)) {
      KeepCounts(items, near, ItemBelow(g, x));
    }
    forall x: int ensures Sum(Keep(items, near), ItemUpTo(g, x)) == Sum(fs, UpTo(g, x)) {
      KeepCounts(items, near, ItemUpTo(g, x));
    }
    forall s ensures Sum(Keep(items, near), ItemFrom(g, s)) == Sum(fs, From(g, s)) {
      KeepCounts(items, near, ItemFrom(g, s));
    }
  }

  // ---------------------------------------------------------------------------
  // The middle of a sorted list is the median
  // ---------------------------------------------------------------------------

  lemma {:induction false} FlagsCount(items: seq<Item>, f: Item -> int, k: nat)
    requires k <= |items| && forall i :: f(i) == 0 || f(i) == 1
    ensures 0 <= Sum(items, f) <= |items|
    ensures (forall i :: 0 <= i < k ==> f(items[i]) == 1) ==> Sum(items, f) >= k
    ensures (forall i :: k <= i < |items| ==> f(items[i]) == 0) ==> Sum(items, f) <= k
  {
    if items != [] {
      var n := |items| - 1;
      FlagsCount(items[..n], f, if k <= n then k else n);
    }
  }

  lemma MiddleIsMedian(items: seq<Item>, g: Group)
    requires items != [] && Sorted(items, Scaled()) && forall i :: i in items ==> g.Admits(i.scaled)
    ensures Sum(items, ItemSize(g)) == |items|
    ensures var x := Middle(items).scaled; Sum(items, ItemBelow(g, x)) <= |items| / 2 < Sum(items, ItemUpTo(g, x))
  {
    var m := |items| / 2;
    var x := items[m].scaled;
    assert forall i :: m < i < |items| ==> Scaled()(items[m]) <= Scaled()(items[i]);
    assert forall i :: 0 <= i < m ==> Scaled()(items[i]) <= Scaled()(items[m]);
    FlagsCount(items, ItemSize(g), |items|);
    FlagsCount(items, ItemBelow(g, x), m);
    FlagsCount(items, ItemUpTo(g, x), m + 1);
  }

  lemma {:induction false} SourcesCount(items: seq<Item>, g: Group, s: string)
    requires forall i :: i in items ==> g.Admits(i.scaled)
    ensures |Sources(items)| == |items| && Sum(Sources(items), Is(s)) == Sum(items, ItemFrom(g, s))
  {
    if items != [] {
      var n := |items| - 1;
      SourcesCount(items[..n], g, s);
      assert items[n] in items;
      SumAppend(Sources(items[..n]), items[n].observation.source, Is(s));
    }
  }

  lemma {:induction false} NamesCount(valid: seq<Observation>, g: Group, s: string)
    requires Parsable(valid) && g.centre.None?
    ensures |Names(valid)| == |valid| && Sum(Names(valid), Is(s)) == Sum(Items(valid), ItemFrom(g, s))
  {
    if valid != [] {
      var n := |valid| - 1;
      NamesCount(valid[..n], g, s);
      assert valid[n] in valid;
      SumAppend(Names(valid[..n]), valid[n].source, Is(s));
      SumAppend(Items(valid[..n]), Item(valid[n], ToScaled(valid[n].value).value), ItemFrom(g, s));
    }
  }

  /** Settling on the middle of a list that represents the group settles on the group. */
  lemma MiddleSettles(items: seq<Item>, names: seq<string>, fs: seq<Fetched>, g: Group)
    requires items != [] && Sorted(items, Scaled()) && Represents(items, fs, g)
    requires forall i :: i in items ==> g.Admits(i.scaled) && Fetches(fs, g.now, g.maxAge, i)
    requires |names| == |items| && forall s :: Sum(names, Is(s)) == Sum(items, ItemFrom(g, s))
    ensures SettlesOn(Ok(Settled(Choice(Middle(items), names))), fs, g)
  {
    MiddleIsMedian(items, g);
    var i := Middle(items);
    assert i in items;
    var f :| f in fs && Fresh(f, g.now, g.maxAge) && ItemOf(f) == i;
    assert SettlesAs(Ok(Settled(Choice(i, names))), fs, g, f, names);
  }

  // ---------------------------------------------------------------------------
  // The leg
  // ---------------------------------------------------------------------------

  function FreshOnes(cfg: Config, now: int): Group { Group(now, cfg.maxAge, None, cfg.maxCrossDeviation) }

  function NearTo(cfg: Config, now: int, centre: int): Group { Group(now, cfg.maxAge, Some(centre), cfg.maxCrossDeviation) }

  /** Two or more positive readings: all of them if they agree, else the ones near their median, if those are two or more. */
  ghost predicate Resolves(cfg: Config, fs: seq<Fetched>, now: int, r: Result<Observation, RateError>) {
    var usable := FreshOnes(cfg, now);
    if Agreeing(fs, usable) then SettlesOn(r, fs, usable)
    else if Sum(fs, Size(usable)) == 2 then r == Err(RateDiscrepancy)
    else exists centre: int ::
      && centre > 0 && Median(fs, usable, centre) && (exists f :: f in fs && usable.Has(f) && Reading(f) == centre)
      && var near := NearTo(cfg, now, centre);
         if Sum(fs, Size(near)) < 2 then r == Err(RateDiscrepancy) else SettlesOn(r, fs, near)
  }

  lemma AgreeingIsNarrow(items: seq<Item>, fs: seq<Fetched>, g: Group)
    requires |items| >= 2 && Sorted(items, Scaled()) && items[0].scaled > 0 && g.centre.None?
    requires forall i :: i in items <==> Fetches(fs, g.now, g.maxAge, i)
    ensures Agreeing(fs, g) <==> Close(items[|items| - 1].scaled, items[0].scaled, g.threshold)
  {
    var lo, hi := items[0].scaled, items[|items| - 1].scaled;
    assert Scaled()(items[0]) <= Scaled()(items[|items| - 1]);
    if Close(hi, lo, g.threshold) {
      forall a, b | a in fs && b in fs && g.Has(a) && g.Has(b) && 0 < Reading(b) <= Reading(a)
        ensures Close(Reading(a), Reading(b), g.threshold)
      {
        Spread(items, fs, g, a);
        Spread(items, fs, g, b);
        Narrows(Reading(a), Reading(b), lo, hi, g.threshold);
      }
    } else {
      var f := FetchedAs(items, fs, g, |items| - 1);
      var h := FetchedAs(items, fs, g, 0);
    }
  }

  lemma Narrows(a: int, b: int, lo: int, hi: int, threshold: int)
    requires 0 < lo <= b <= a <= hi && Close(hi, lo, threshold)
    ensures Close(a, b, threshold)
  {
    PercentShrinks(a - b, b, hi - lo, lo);
  }

  lemma FetchedAs(items: seq<Item>, fs: seq<Fetched>, g: Group, k: nat) returns (f: Fetched)
    requires k < |items| && g.centre.None? && forall i :: i in items <==> Fetches(fs, g.now, g.maxAge, i)
    ensures f in fs && g.Has(f) && Reading(f) == items[k].scaled
  {
    assert items[k] in items;
    f :| f in fs && Fresh(f, g.now, g.maxAge) && ItemOf(f) == items[k];
  }

  lemma Spread(items: seq<Item>, fs: seq<Fetched>, g: Group, f: Fetched)
    requires items != [] && Sorted(items, Scaled()) && f in fs && Fresh(f, g.now, g.maxAge)
    requires forall i :: i in items <==> Fetches(fs, g.now, g.maxAge, i)
    ensures items[0].scaled <= Reading(f) <= items[|items| - 1].scaled
  {
    assert Fetches(fs, g.now, g.maxAge, ItemOf(f));
    var k :| 0 <= k < |items| && items[k] == ItemOf(f);
    assert k > 0 ==> Scaled()(items[0]) <= Scaled()(items[k]);
    assert k < |items| - 1 ==> Scaled()(items[k]) <= Scaled()(items[|items| - 1]);
  }

  /** `items` are the fresh readings in ascending order and `names` their sources. */
  ghost predicate Lists(items: seq<Item>, names: seq<string>, cfg: Config, fs: seq<Fetched>, now: int) {
    && Sorted(items, Scaled()) && |names| == |items|
    && (forall i :: i in items <==> Fetches(fs, now, cfg.maxAge, i))
    && (forall s :: Sum(names, Is(s)) == Sum(items, ItemFrom(FreshOnes(cfg, now), s)))
    && Represents(items, fs, FreshOnes(cfg, now))
    && (forall c :: Represents(items, fs, NearTo(cfg, now, c)))
  }

  lemma FreshAreListed(cfg: Config, fs: seq<Fetched>, now: int)
    ensures Lists(Ascending(fs, now, cfg.maxAge), Names(UsableOnes(fs, now, cfg.maxAge)), cfg, fs, now)
    ensures Sum(fs, Size(FreshOnes(cfg, now))) == |UsableOnes(fs, now, cfg.maxAge)|
  {
    var valid := UsableOnes(fs, now, cfg.maxAge);
    var items := Ascending(fs, now, cfg.maxAge);
    var g := FreshOnes(cfg, now);
    SortIsSort(Items(valid), Scaled());
    forall i ensures i in items <==> Fetches(fs, now, cfg.maxAge, i) {
      ItemsWereFetched(fs, now, cfg.maxAge, i);
    }
    forall s ensures |Names(valid)| == |valid| && Sum(Names(valid), Is(s)) == Sum(items, ItemFrom(g, s)) {
      NamesCount(valid, g, s);
      SortSum(Items(valid), Scaled(), ItemFrom(g, s));
    }
    NamesCount(valid, g, "");
    AscendingRepresents(fs, g);
    forall c ensures Represents(items, fs, NearTo(cfg, now, c)) { AscendingRepresents(fs, NearTo(cfg, now, c)); }
    FlagsCount(items, ItemSize(g), |items|);
  }

  lemma NearResolves(items: seq<Item>, names: seq<string>, cfg: Config, fs: seq<Fetched>, now: int)
    requires Lists(items, names, cfg, fs, now) && |items| >= 2 && items[0].scaled > 0
    ensures var centre := Middle(items).scaled;
            var near := NearTo(cfg, now, centre);
            && centre > 0 && Median(fs, FreshOnes(cfg, now), centre)
            && (exists f :: f in fs && FreshOnes(cfg, now).Has(f) && Reading(f) == centre)
            && var r := NearMedian(items, cfg.maxCrossDeviation);
               if Sum(fs, Size(near)) < 2 then r == Err(RateDiscrepancy) else r.Ok? && SettlesOn(Ok(Settled(r.value)), fs, near)
  {
    var centre := Middle(items).scaled;
    MiddleIsMedian(items, FreshOnes(cfg, now));
    assert Scaled()(items[0]) <= Scaled()(items[|items| / 2]);
    var f := FetchedAs(items, fs, FreshOnes(cfg, now), |items| / 2);
    var accepted := Keep(items, Near(centre, cfg.maxCrossDeviation));
    AcceptedRepresent(items, fs, NearTo(cfg, now, centre), centre);
    if |accepted| >= 2 {
      AcceptedSettles(accepted, fs, NearTo(cfg, now, centre));
    }
  }

  lemma AcceptedRepresent(items: seq<Item>, fs: seq<Fetched>, g: Group, centre: nat)
    requires Sorted(items, Scaled()) && Represents(items, fs, g) && centre > 0 && g.centre == Some(centre)
    requires forall i :: i in items <==> Fetches(fs, g.now, g.maxAge, i)
    ensures var accepted := Keep(items, Near(centre, g.threshold));
            && Represents(accepted, fs, g) && Sorted(accepted, Scaled()) && |accepted| == Sum(fs, Size(g))
            && forall i :: i in accepted ==> g.Admits(i.scaled) && Fetches(fs, g.now, g.maxAge, i)
  {
    var near := Near(centre, g.threshold);
    var accepted := Keep(items, near);
    forall i ensures near(i) <==> g.Admits(i.scaled) {
    }
    KeptRepresents(items, fs, g, near);
    KeepSorted(items, near, Scaled());
    forall k | 0 <= k < |accepted| ensures ItemSize(g)(accepted[k]) == 1 {
      assert accepted[k] in accepted;
    }
    FlagsCount(accepted, ItemSize(g), |accepted|);
  }

  lemma AcceptedSettles(accepted: seq<Item>, fs: seq<Fetched>, g: Group)
    requires accepted != [] && Sorted(accepted, Scaled()) && Represents(accepted, fs, g)
    requires forall i :: i in accepted ==> g.Admits(i.scaled) && Fetches(fs, g.now, g.maxAge, i)
    ensures SettlesOn(Ok(Settled(Choice(Middle(accepted), Sources(accepted)))), fs, g)
  {
    forall s ensures |Sources(accepted)| == |accepted| && Sum(Sources(accepted), Is(s)) == Sum(accepted, ItemFrom(g, s)) {
      SourcesCount(accepted, g, s);
    }
    SourcesCount(accepted, g, "");
    MiddleSettles(accepted, Sources(accepted), fs, g);
  }

  /** How many readings a leg asks for: what is configured, else two if there are that many sources. */
  function Quorum(cfg: Config, sources: nat): int {
    match cfg.minQuorum case Some(n) => n case None => if sources < 2 then 1 else 2
  }

  /** What a leg answers, in every case. */
  lemma LegAnswers(cfg: Config, fs: seq<Fetched>, now: int)
    ensures var r := Leg(cfg, fs, now);
            var usable := FreshOnes(cfg, now);
            var n := Sum(fs, Size(usable));
            if n < Quorum(cfg, |fs|) then r == Err(if n == 0 then RateUnavailable else RateDiscrepancy)
            else if n == 0 then r == Err(ArithmeticFailure)
            else if n == 1 then exists f :: f in fs && usable.Has(f) && r == Ok(f.observation)
            else if exists f :: f in fs && usable.Has(f) && Reading(f) == 0 then r == Err(ArithmeticFailure)
            else Resolves(cfg, fs, now, r)
  {
    var valid := UsableOnes(fs, now, cfg.maxAge);
    FreshAreListed(cfg, fs, now);
    if |valid| == 1 {
      OnlyOne(cfg, fs, now);
    } else if |valid| >= 2 && |valid| >= Quorum(cfg, |fs|) {
      AgreeAnswers(Ascending(fs, now, cfg.maxAge), Names(valid), cfg, fs, now);
    }
  }

  lemma OnlyOne(cfg: Config, fs: seq<Fetched>, now: int)
    requires |UsableOnes(fs, now, cfg.maxAge)| == 1
    ensures exists f :: f in fs && FreshOnes(cfg, now).Has(f) && f.observation == UsableOnes(fs, now, cfg.maxAge)[0]
  {
    var valid := UsableOnes(fs, now, cfg.maxAge);
    var i := Item(valid[0], ToScaled(valid[0].value).value);
    assert valid == [] + [valid[0]];
    ItemsAppend([], valid[0]);
    assert i in Items(valid);
    ItemsWereFetched(fs, now, cfg.maxAge, i);
    var f :| f in fs && Fresh(f, now, cfg.maxAge) && ItemOf(f) == i;
    assert FreshOnes(cfg, now).Has(f);
  }

  lemma AgreeAnswers(items: seq<Item>, names: seq<string>, cfg: Config, fs: seq<Fetched>, now: int)
    requires Lists(items, names, cfg, fs, now) && |items| >= 2 && |items| == Sum(fs, Size(FreshOnes(cfg, now)))
    ensures var zero := exists f :: f in fs && FreshOnes(cfg, now).Has(f) && Reading(f) == 0;
            var r := Agree(items, names, cfg.maxCrossDeviation);
            if zero then r == Err(ArithmeticFailure)
            else Resolves(cfg, fs, now, if r.Ok? then Ok(Settled(r.value)) else Err(r.error))
  {
    var g := FreshOnes(cfg, now);
    var f := FetchedAs(items, fs, g, 0);
    if items[0].scaled > 0 {
      forall f | f in fs && g.Has(f) ensures Reading(f) > 0 { Spread(items, fs, g, f); }
      AgreeShape(items, names, cfg.maxCrossDeviation);
      AgreeingIsNarrow(items, fs, g);
      if Agreeing(fs, g) {
        MiddleSettles(items, names, fs, g);
      } else if |items| > 2 {
        NearResolves(items, names, cfg, fs, now);
      }
    }
  }

  lemma AgreeShape(items: seq<Item>, names: seq<string>, threshold: int)
    requires |items| >= 2 && items[0].scaled > 0
    ensures Agree(items, names, threshold)
         == if Close(items[|items| - 1].scaled, items[0].scaled, threshold) then Ok(Choice(Middle(items), names))
            else if |items| == 2 then Err(RateDiscrepancy)
            else NearMedian(items, threshold)
  {
  }

  // ---------------------------------------------------------------------------
  // Quotes
  // ---------------------------------------------------------------------------

  function InBand(cfg: Config, now: int, lo: int, hi: int): Fetched -> int {
    (f: Fetched) => if Fresh(f, now, cfg.maxAge) && lo <= Reading(f) <= hi then 1 else 0
  }

  /** The quorum is met, every fresh reading is positive, and more than half of them lie in one narrow band. */
  ghost predicate MajorityIn(cfg: Config, fs: seq<Fetched>, now: int, lo: nat, hi: nat) {
    var n := Sum(fs, Size(FreshOnes(cfg, now)));
    && n >= 2 && n >= Quorum(cfg, |fs|)
    && (forall f :: f in fs && Fresh(f, now, cfg.maxAge) ==> Reading(f) > 0)
    && 0 < lo <= hi && (hi - lo) * 100 / lo <= cfg.maxCrossDeviation
    && 2 * Sum(fs, InBand(cfg, now, lo, hi)) > n
  }

  lemma LegInBand(cfg: Config, fs: seq<Fetched>, now: int, lo: nat, hi: nat)
    requires MajorityIn(cfg, fs, now, lo, hi)
    ensures Leg(cfg, fs, now).Ok? && Reads(lo, hi)(Leg(cfg, fs, now).value) == 1
  {
    var valid := UsableOnes(fs, now, cfg.maxAge);
    FreshAreListed(cfg, fs, now);
    C.ItemsCount(valid, lo, hi);
    ItemsCount(fs, now, cfg.maxAge, Inside(lo, hi), InBand(cfg, now, lo, hi));
    forall o | o in valid ensures ToScaled(o.value).value > 0 {
      ItemsCover(valid);
      var i :| i in Items(valid) && i.observation == o;
      ItemsWereFetched(fs, now, cfg.maxAge, i);
    }
    MajorityDecides(valid, |fs|, cfg.minQuorum, cfg.maxCrossDeviation, lo, hi);
  }

  /** A majority of honest sources on each leg is enough: any quote given lies in the product of the two bands. */
  lemma QuoteFollowsMajorities(cfg: Config, last: Option<nat>, crypto: seq<Fetched>, fx: seq<Fetched>, now: int,
                               glo: nat, ghi: nat, tlo: nat, thi: nat)
    ensures var q := GetQuote(cfg, last, crypto, fx, now);
            MajorityIn(cfg, crypto, now, glo, ghi) && MajorityIn(cfg, fx, now, tlo, thi) && q.Ok? ==>
              && glo * tlo / SCALE_FACTOR <= q.value.derived <= ghi * thi / SCALE_FACTOR
              && cfg.minScaled <= q.value.derived <= cfg.maxScaled
              && (last.Some? ==> last.value > 0 && Distance(q.value.derived, last.value) * 100 / last.value <= cfg.maxDeviation)
  {
    if MajorityIn(cfg, crypto, now, glo, ghi) && MajorityIn(cfg, fx, now, tlo, thi) {
      LegInBand(cfg, crypto, now, glo, ghi);
      LegInBand(cfg, fx, now, tlo, thi);
      DerivedInBand(cfg, last, Leg(cfg, crypto, now).value, Leg(cfg, fx, now).value, glo, ghi, tlo, thi);
    }
  }

  /** `derived` passes the bounds, and is no further than the limit, in percent, from the last rate quoted. */
  function Verdict(cfg: Config, last: Option<nat>, derived: nat): Option<RateError> {
    if derived == 0 then Some(RateInvalid)
    else if !(cfg.minScaled <= derived <= cfg.maxScaled) then Some(RateOutOfBounds)
    else if last == Some(0) then Some(ArithmeticFailure)
    else if last.Some? && (if derived < last.value then last.value - derived else derived - last.value) * 100 / last.value > cfg.maxDeviation
    then Some(RateDeviationTooLarge)
    else None
  }

  /** `derived` is the product of two 18-place values, cut to 18 places. */
  predicate IsProduct(derived: nat, x: nat, y: nat) {
    derived * 1_000_000_000_000_000_000 <= x * y < (derived + 1) * 1_000_000_000_000_000_000
  }

  /** A quote is the product of the two legs, or the first thing that stands in its way. */
  lemma QuoteAnswers(cfg: Config, last: Option<nat>, crypto: seq<Fetched>, fx: seq<Fetched>, now: int, derived: nat)
    ensures var r := GetQuote(cfg, last, crypto, fx, now);
            var g, t := Leg(cfg, crypto, now), Leg(cfg, fx, now);
            if g.Err? then r == Err(g.error)
            else if t.Err? then r == Err(t.error)
            else
              ToScaled(g.value.value).Ok? && ToScaled(t.value.value).Ok?
              && (IsProduct(derived, ToScaled(g.value.value).value, ToScaled(t.value.value).value) ==>
                    r == match Verdict(cfg, last, derived)
                         case Some(e) => Err(e)
                         case None => Ok(Quote(derived, FromScaled(derived), g.value.source + "*" + t.value.source, g.value, t.value)))
  {
    LegParses(cfg, crypto, now);
    LegParses(cfg, fx, now);
    var g, t := Leg(cfg, crypto, now), Leg(cfg, fx, now);
    if g.Ok? && t.Ok? && IsProduct(derived, ToScaled(g.value.value).value, ToScaled(t.value.value).value) {
      CutProduct(ToScaled(g.value.value).value, ToScaled(t.value.value).value, derived);
      JudgedAs(cfg, last, derived);
    }
  }

  lemma JudgedAs(cfg: Config, last: Option<nat>, derived: nat)
    ensures SanityError(cfg, last, derived) == Verdict(cfg, last, derived)
  {
  }

  lemma CutProduct(x: nat, y: nat, derived: nat)
    requires IsProduct(derived, x, y)
    ensures ScaledProduct(x, y) == derived
  {
    CutIs(x * y, derived);
  }

  lemma CutIs(n: nat, derived: nat)
    requires derived * 1_000_000_000_000_000_000 <= n < (derived + 1) * 1_000_000_000_000_000_000
    ensures n / SCALE_FACTOR == derived
  {
  }

  lemma LegParses(cfg: Config, fs: seq<Fetched>, now: int)
    ensures Leg(cfg, fs, now).Ok? ==> ToScaled(Leg(cfg, fs, now).value.value).Ok?
  {
    var valid := UsableOnes(fs, now, cfg.maxAge);
    if |valid| == 1 {
      assert valid[0] in valid;
    } else if |valid| >= 2 {
      var items := Sort(Items(valid), Scaled());
      SortIsSort(Items(valid), Scaled());
      AgreeFails(items, Names(valid), cfg.maxCrossDeviation);
      var choice := Agree(items, Names(valid), cfg.maxCrossDeviation);
      if choice.Ok? { ScaledRoundTrip(choice.value.item.scaled); }
    }
  }
}
