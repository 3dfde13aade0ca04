/** The aggregator object: the last quoted rate is its only memory, besides whether a saved baseline was read. */
module RateAggregator {
  import opened Basics
  import opened MoneyMath
  import opened Sequences
  import C = RateConsensus
  import opened RateConsensus

  lemma UsablePrefix(fs: seq<Fetched>, now: int, maxAge: int, i: nat)
    requires i < |fs|
    ensures UsableOnes(fs[..i + 1], now, maxAge)
         == UsableOnes(fs[..i], now, maxAge) + (if Usable(fs[i], now, maxAge) then [fs[i].observation] else [])
  {
    assert fs[..i + 1][..i] == fs[..i];
  }

  class RateAggregator {
    const cfg: Config
    var lastScaled: Option<nat>
    var baselineLoaded: bool

    constructor (config: Config)
      ensures cfg == config && lastScaled == None && !baselineLoaded
    {
      cfg, lastScaled, baselineLoaded := config, None, false;
    }

    /** `saved` is what the loader gives, None when no loader is configured. */
    method EnsureBaseline(saved: Option<Option<string>>)
      modifies this
      ensures baselineLoaded == (old(baselineLoaded) || saved.Some?)
      ensures lastScaled == if !old(baselineLoaded) && saved.Some? then Baseline(old(lastScaled), saved.value) else old(lastScaled)
    {
      if baselineLoaded || saved.None? { return; }
      baselineLoaded := true;
      if saved.value.Some? {
        var scaled := ToScaled(saved.value.value);
        if scaled.Ok? { lastScaled := Some(scaled.value); }
      }
    }

    method ResolveLegConsensus(fs: seq<Fetched>, now: int) returns (r: Result<Observation, RateError>)
      ensures r == Leg(cfg, fs, now)
    {
      var valid := [];
      for i := 0 to |fs|
        invariant valid == UsableOnes(fs[..i], now, cfg.maxAge)
      {
        UsablePrefix(fs, now, cfg.maxAge, i);
        if Usable(fs[i], now, cfg.maxAge) {
          valid := valid + [fs[i].observation];
        }
      }
      assert fs[..|fs|] == fs;
      if |valid| < RequiredQuorum(cfg.minQuorum, |fs|) {
        return Err(if |valid| == 0 then RateUnavailable else RateDiscrepancy);
      }
      if |valid| == 1 { return Ok(valid[0]); }
      if |valid| == 0 { return Err(ArithmeticFailure); }
      var items := Sort(Items(valid), Scaled());
      var choice := CrossValidate(items, Names(valid));
      return if choice.Ok? then Ok(Settled(choice.value)) else Err(choice.error);
    }

    method CrossValidate(items: seq<Item>, names: seq<string>) returns (r: Result<Choice, RateError>)
      requires |items| >= 2
      ensures r == Agree(items, names, cfg.maxCrossDeviation)
    {
      var min, max := items[0].scaled, items[|items| - 1].scaled;
      if min == 0 { return Err(ArithmeticFailure); }
      if (max - min) * 100 / min <= cfg.maxCrossDeviation { return Ok(Choice(items[|items| / 2], names)); }
      if |items| == 2 { return Err(RateDiscrepancy); }
      var median := items[|items| / 2].scaled;
      if median == 0 { return Err(ArithmeticFailure); }
      var accepted := Keep(items, Near(median, cfg.maxCrossDeviation));
      if |accepted| < 2 { return Err(RateDiscrepancy); }
      return Ok(Choice(accepted[|accepted| / 2], Sources(accepted)));
    }

    method GetQuote(crypto: seq<Fetched>, fx: seq<Fetched>, now: int, saved: Option<Option<string>>)
      returns (r: Result<Quote, RateError>)
      modifies this
      ensures baselineLoaded == (old(baselineLoaded) || saved.Some?)
      ensures var last := if !old(baselineLoaded) && saved.Some? then Baseline(old(lastScaled), saved.value) else old(lastScaled);
              && r == C.GetQuote(cfg, last, crypto, fx, now)
              && lastScaled == if r.Ok? then Some(r.value.derived) else last
    {
      EnsureBaseline(saved);
      var gramUsd := ResolveLegConsensus(crypto, now);
      if gramUsd.Err? { return Err(gramUsd.error); }
      var usdToman := ResolveLegConsensus(fx, now);
      if usdToman.Err? { return Err(usdToman.error); }
      r := DeriveQuote(cfg, lastScaled, gramUsd.value, usdToman.value);
      if r.Ok? { lastScaled := Some(r.value.derived); }
    }
  }
}
