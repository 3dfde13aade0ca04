/** Token buckets with a periodic sweep: how many calls are let through, and when the sweep can be seen. */
module TokenBucket {
  import opened Basics

  /** Requests a window; `burst` defaults to the limit. */
  datatype Rule = Rule(limit: real, windowSeconds: real, burst: Option<real>)

  datatype Bucket = Bucket(tokens: real, last: int)

  datatype Limiter = Limiter(buckets: map<string, Bucket>, lastSweep: int)

  datatype Decision = Decision(allowed: bool, remaining: int, retryAfterSeconds: int, limit: real)

  const SWEEP_INTERVAL := 60_000
  const IDLE_LIMIT := 600_000

  function Capacity(r: Rule): real { if r.burst.Some? then r.burst.value else r.limit }

  predicate Sensible(r: Rule) { r.limit > 0.0 && r.windowSeconds > 0.0 && Capacity(r) >= 0.0 }

  function PerMs(r: Rule): (x: real)
    requires Sensible(r)
    ensures x > 0.0
  {
    r.limit / (r.windowSeconds * 1000.0)
  }

  /** Tokens gained in `ms` milliseconds. */
  function Gain(r: Rule, ms: int): real
    requires Sensible(r)
  {
    ms as real * PerMs(r)
  }

  function Min(a: real, b: real): real { if a < b then a else b }

  function Ceil(x: real): int { if x.Floor as real == x then x.Floor else x.Floor + 1 }

  // ---------------------------------------------------------------------------
  // One call
  // ---------------------------------------------------------------------------

  function Sweep(l: Limiter, now: int): Limiter {
    if now - l.lastSweep < SWEEP_INTERVAL then l
    else Limiter(map k | k in l.buckets && now - l.buckets[k].last <= IDLE_LIMIT :: l.buckets[k], now)
  }

  /** Tokens after the refill of this call. */
  function Refilled(buckets: map<string, Bucket>, key: string, r: Rule, now: int): real
    requires Sensible(r)
  {
    if key !in buckets then Min(Capacity(r), Capacity(r) + Gain(r, 0))
    else
      var b := buckets[key];
      Min(Capacity(r), b.tokens + Gain(r, if now > b.last then now - b.last else 0))
  }

  function Decide(r: Rule, tokens: real): Decision
    requires Sensible(r)
  {
    if tokens < 1.0 then
      var wait := Ceil((1.0 - tokens) / PerMs(r) / 1000.0);
      Decision(false, 0, if wait > 1 then wait else 1, r.limit)
    else Decision(true, (tokens - 1.0).Floor, 0, r.limit)
  }

  function Take(buckets: map<string, Bucket>, key: string, r: Rule, now: int): (map<string, Bucket>, Decision)
    requires Sensible(r)
  {
    var tokens := Refilled(buckets, key, r, now);
    var d := Decide(r, tokens);
    (buckets[key := Bucket(if d.allowed then tokens - 1.0 else tokens, now)], d)
  }

  function Check(l: Limiter, key: string, r: Rule, now: int): (Limiter, Decision)
    requires Sensible(r)
  {
    var swept := Sweep(l, now);
    var (buckets, d) := Take(swept.buckets, key, r, now);
    (swept.(buckets := buckets), d)
  }

  // ---------------------------------------------------------------------------
  // Runs: one rule a key, the clock never going back
  // ---------------------------------------------------------------------------

  datatype Call = Call(key: string, now: int)

  type Rules = string -> Rule

  ghost predicate AllSensible(rules: Rules) { forall k :: Sensible(rules(k)) }

  ghost predicate Clocked(cs: seq<Call>) { forall i, j :: 0 <= i < j < |cs| ==> cs[i].now <= cs[j].now }

  const Fresh := Limiter(map[], 0)

  ghost function Run(rules: Rules, cs: seq<Call>): Limiter
    requires AllSensible(rules)
  {
    if cs == [] then Fresh
    else
      var c := cs[|cs| - 1];
      Check(Run(rules, cs[..|cs| - 1]), c.key, rules(c.key), c.now).0
  }

  /** The decision of the last call. */
  ghost function Last(rules: Rules, cs: seq<Call>): Decision
    requires AllSensible(rules) && cs != []
  {
    var c := cs[|cs| - 1];
    Check(Run(rules, cs[..|cs| - 1]), c.key, rules(c.key), c.now).1
  }

  /** The same calls with buckets that are never dropped. */
  ghost function RunUnswept(rules: Rules, cs: seq<Call>): map<string, Bucket>
    requires AllSensible(rules)
  {
    if cs == [] then map[]
    else
      var c := cs[|cs| - 1];
      Take(RunUnswept(rules, cs[..|cs| - 1]), c.key, rules(c.key), c.now).0
  }

  ghost function LastUnswept(rules: Rules, cs: seq<Call>): Decision
    requires AllSensible(rules) && cs != []
  {
    var c := cs[|cs| - 1];
    Take(RunUnswept(rules, cs[..|cs| - 1]), c.key, rules(c.key), c.now).1
  }

  lemma GainAdds(r: Rule, a: int, b: int)
    requires Sensible(r)
    ensures Gain(r, a) + Gain(r, b) == Gain(r, a + b)
  {
  }

  lemma GainGrows(r: Rule, a: int, b: int)
    requires Sensible(r) && a <= b
    ensures Gain(r, a) <= Gain(r, b) && Gain(r, 0) == 0.0
  {
    GainAdds(r, a, b - a);
    assert Gain(r, b - a) >= 0.0;
  }

  // ---------------------------------------------------------------------------
  // The sweep cannot be seen when buckets refill while they idle
  // ---------------------------------------------------------------------------

  /** An idle bucket is full before it can be dropped. */
  predicate FillsWhileIdle(r: Rule)
    requires Sensible(r)
  {
    Capacity(r) <= Gain(r, IDLE_LIMIT + 1)
  }

  /** At `now` the bucket is as good as a new one. */
  predicate FullAt(r: Rule, b: Bucket, now: int)
    requires Sensible(r)
  {
    b.last <= now && Capacity(r) <= b.tokens + Gain(r, now - b.last)
  }

  ghost predicate BucketsOk(buckets: map<string, Bucket>, now: int) {
    forall k :: k in buckets ==> buckets[k].tokens >= 0.0 && buckets[k].last <= now
  }

  /** Of the keys whose buckets fill while idle, the swept map lost only buckets that are full again. */
  ghost predicate Matches(rules: Rules, swept: map<string, Bucket>, unswept: map<string, Bucket>, now: int)
    requires AllSensible(rules)
  {
    forall k :: FillsWhileIdle(rules(k)) ==>
      && (k in swept ==> k in unswept && swept[k] == unswept[k])
      && (k in unswept && k !in swept ==> FullAt(rules(k), unswept[k], now))
  }

  lemma SweepMatches(rules: Rules, l: Limiter, unswept: map<string, Bucket>, before: int, now: int)
    requires AllSensible(rules) && before <= now && BucketsOk(unswept, before) && Matches(rules, l.buckets, unswept, before)
    ensures Matches(rules, Sweep(l, now).buckets, unswept, now)
  {
    var swept := Sweep(l, now).buckets;
    forall k | FillsWhileIdle(rules(k)) && k in unswept && k !in swept ensures FullAt(rules(k), unswept[k], now) {
      if k in l.buckets {
        GainGrows(rules(k), IDLE_LIMIT + 1, now - unswept[k].last);
      } else {
        GainGrows(rules(k), before - unswept[k].last, now - unswept[k].last);
      }
    }
  }

  lemma TakeMatches(rules: Rules, swept: map<string, Bucket>, unswept: map<string, Bucket>, key: string, now: int)
    requires AllSensible(rules) && BucketsOk(unswept, now) && Matches(rules, swept, unswept, now)
    ensures FillsWhileIdle(rules(key)) ==> Take(swept, key, rules(key), now).1 == Take(unswept, key, rules(key), now).1
    ensures Matches(rules, Take(swept, key, rules(key), now).0, Take(unswept, key, rules(key), now).0, now)
    ensures BucketsOk(Take(unswept, key, rules(key), now).0, now)
  {
    GainGrows(rules(key), 0, 0);
    if key in unswept {
      GainGrows(rules(key), 0, now - unswept[key].last);
    }
  }

  lemma {:induction false} RunMatches(rules: Rules, cs: seq<Call>)
    requires AllSensible(rules) && Clocked(cs) && cs != []
    ensures BucketsOk(RunUnswept(rules, cs), cs[|cs| - 1].now)
    ensures Matches(rules, Run(rules, cs).buckets, RunUnswept(rules, cs), cs[|cs| - 1].now)
    ensures FillsWhileIdle(rules(cs[|cs| - 1].key)) ==> Last(rules, cs) == LastUnswept(rules, cs)
  {
    var init, c := cs[..|cs| - 1], cs[|cs| - 1];
    if init != [] {
      RunMatches(rules, init);
      SweepMatches(rules, Run(rules, init), RunUnswept(rules, init), init[|init| - 1].now, c.now);
    }
    TakeMatches(rules, Sweep(Run(rules, init), c.now).buckets, RunUnswept(rules, init), c.key, c.now);
  }

  /** For a rule that refills while idle, every decision is the one a limiter that never drops a bucket would give. */
  lemma SweepIsInvisible(rules: Rules, cs: seq<Call>, i: nat)
    requires AllSensible(rules) && Clocked(cs) && i < |cs| && FillsWhileIdle(rules(cs[i].key))
    ensures Last(rules, cs[..i + 1]) == LastUnswept(rules, cs[..i + 1])
  {
    RunMatches(rules, cs[..i + 1]);
  }

  // ---------------------------------------------------------------------------
  // How many calls are let through
  // ---------------------------------------------------------------------------

  /** Calls for `key` allowed from position `i` on. */
  ghost function AllowedFrom(rules: Rules, cs: seq<Call>, key: string, i: nat): nat
    requires AllSensible(rules)
  {
    if |cs| <= i then 0
    else AllowedFrom(rules, cs[..|cs| - 1], key, i) + (if cs[|cs| - 1].key == key && Last(rules, cs).allowed then 1 else 0)
  }

  ghost function UnsweptFrom(rules: Rules, cs: seq<Call>, key: string, i: nat): nat
    requires AllSensible(rules)
  {
    if |cs| <= i then 0
    else UnsweptFrom(rules, cs[..|cs| - 1], key, i) + (if cs[|cs| - 1].key == key && LastUnswept(rules, cs).allowed then 1 else 0)
  }

  lemma {:induction false} SameCounts(rules: Rules, cs: seq<Call>, key: string, i: nat)
    requires AllSensible(rules) && Clocked(cs) && FillsWhileIdle(rules(key))
    ensures AllowedFrom(rules, cs, key, i) == UnsweptFrom(rules, cs, key, i)
  {
    if |cs| > i {
      SameCounts(rules, cs[..|cs| - 1], key, i);
      RunMatches(rules, cs);
    }
  }

  /** Calls let through plus tokens left never exceed a full bucket plus what flowed in. */
  ghost predicate Accounted(r: Rule, buckets: map<string, Bucket>, key: string, allowed: nat, start: int, now: int)
    requires Sensible(r)
  {
    allowed > 0 ==>
      && key in buckets && start <= buckets[key].last <= now && buckets[key].tokens >= 0.0
      && allowed as real + buckets[key].tokens <= Capacity(r) + Gain(r, buckets[key].last - start)
  }

  lemma TakeAccounts(r: Rule, buckets: map<string, Bucket>, key: string, allowed: nat, start: int, now: int)
    requires Sensible(r) && start <= now && BucketsOk(buckets, now) && Accounted(r, buckets, key, allowed, start, now)
    ensures var (next, d) := Take(buckets, key, r, now);
            Accounted(r, next, key, allowed + (if d.allowed then 1 else 0), start, now)
  {
    GainGrows(r, 0, now - start);
    if key in buckets {
      GainGrows(r, 0, now - buckets[key].last);
      if allowed > 0 {
        GainAdds(r, buckets[key].last - start, now - buckets[key].last);
      }
    }
  }

  lemma {:induction false} UnsweptAccounts(rules: Rules, cs: seq<Call>, key: string, i: nat)
    requires AllSensible(rules) && Clocked(cs) && i < |cs|
    ensures Accounted(rules(key), RunUnswept(rules, cs), key, UnsweptFrom(rules, cs, key, i), cs[i].now, cs[|cs| - 1].now)
  {
    var init, c := cs[..|cs| - 1], cs[|cs| - 1];
    if i < |init| {
      UnsweptAccounts(rules, init, key, i);
    }
    if init != [] { RunMatches(rules, init); }
    UnsweptStep(rules, cs, key, i);
    CallAccounts(rules(key), RunUnswept(rules, init), c, rules(c.key), key, UnsweptFrom(rules, init, key, i), cs[i].now,
                 if i < |init| then init[|init| - 1].now else c.now);
  }

  lemma UnsweptStep(rules: Rules, cs: seq<Call>, key: string, i: nat)
    requires AllSensible(rules) && i < |cs|
    ensures var init, c := cs[..|cs| - 1], cs[|cs| - 1];
            var (next, d) := Take(RunUnswept(rules, init), c.key, rules(c.key), c.now);
            && RunUnswept(rules, cs) == next
            && UnsweptFrom(rules, cs, key, i) == UnsweptFrom(rules, init, key, i) + (if c.key == key && d.allowed then 1 else 0)
  {
  }

  lemma CallAccounts(r: Rule, buckets: map<string, Bucket>, c: Call, rule: Rule, key: string, allowed: nat, start: int, before: int)
    requires Sensible(r) && Sensible(rule) && (c.key == key ==> rule == r)
    requires start <= c.now && before <= c.now && BucketsOk(buckets, c.now) && Accounted(r, buckets, key, allowed, start, before)
    ensures var (next, d) := Take(buckets, c.key, rule, c.now);
            Accounted(r, next, key, allowed + (if c.key == key && d.allowed then 1 else 0), start, c.now)
  {
    if c.key == key {
      TakeAccounts(r, buckets, key, allowed, start, c.now);
    } else {
      TakeElsewhere(buckets, c.key, rule, c.now, key);
    }
  }

  lemma TakeElsewhere(buckets: map<string, Bucket>, key: string, r: Rule, now: int, other: string)
    requires Sensible(r) && other != key
    ensures var next := Take(buckets, key, r, now).0;
            (other in next <==> other in buckets) && (other in buckets ==> next[other] == buckets[other])
  {
  }

  /** The promised ceiling on calls `i` to the end of the run. */
  ghost predicate WithinBudget(rules: Rules, cs: seq<Call>, key: string, i: nat)
    requires AllSensible(rules) && i < |cs|
  {
    AllowedFrom(rules, cs, key, i) as real <= Capacity(rules(key)) + Gain(rules(key), cs[|cs| - 1].now - cs[i].now)
  }

  /** In any stretch of a run, at most the capacity plus the sustained rate times its length. */
  lemma BudgetHolds(rules: Rules, cs: seq<Call>, key: string, i: nat)
    requires AllSensible(rules) && Clocked(cs) && i < |cs| && FillsWhileIdle(rules(key))
    ensures WithinBudget(rules, cs, key, i)
  {
    SameCounts(rules, cs, key, i);
    UnsweptAccounts(rules, cs, key, i);
    GainGrows(rules(key), 0, cs[|cs| - 1].now - cs[i].now);
    if UnsweptFrom(rules, cs, key, i) > 0 {
      GainGrows(rules(key), RunUnswept(rules, cs)[key].last - cs[i].now, cs[|cs| - 1].now - cs[i].now);
    }
  }

  // ---------------------------------------------------------------------------
  // When the ceiling fails
  // ---------------------------------------------------------------------------

  function Burst(key: string, n: nat, now: int): (r: seq<Call>)
    ensures |r| == n && forall i :: 0 <= i < n ==> r[i] == Call(key, now)
  {
    seq(n, i => Call(key, now))
  }

  lemma RunStep(rules: Rules, cs: seq<Call>, c: Call, key: string)
    requires AllSensible(rules)
    ensures Run(rules, cs + [c]) == Check(Run(rules, cs), c.key, rules(c.key), c.now).0
    ensures Last(rules, cs + [c]) == Check(Run(rules, cs), c.key, rules(c.key), c.now).1
    ensures AllowedFrom(rules, cs + [c], key, 0)
         == AllowedFrom(rules, cs, key, 0) + (if c.key == key && Last(rules, cs + [c]).allowed then 1 else 0)
  {
    assert (cs + [c])[..|cs + [c]| - 1] == cs;
  }

  /** The bucket holds `left` whole tokens as of `now` (or is missing and so full), and no sweep is due. */
  ghost predicate Holds(l: Limiter, key: string, r: Rule, left: nat, now: int)
    requires Sensible(r)
  {
    && now - l.lastSweep < SWEEP_INTERVAL
    && (if key in l.buckets then l.buckets[key] == Bucket(left as real, now) else Capacity(r) == left as real)
  }

  lemma HeldTokenPasses(l: Limiter, key: string, r: Rule, left: nat, now: int)
    requires Sensible(r) && left >= 1 && left as real <= Capacity(r) && Holds(Sweep(l, now), key, r, left, now)
    ensures Check(l, key, r, now).1.allowed && key in Check(l, key, r, now).0.buckets
    ensures Holds(Check(l, key, r, now).0, key, r, left - 1, now)
  {
    GainGrows(r, 0, 0);
  }

  /** A whole capacity of calls at one instant passes when the key has no bucket, or loses it to the sweep. */
  lemma {:induction false} BurstPasses(rules: Rules, cs: seq<Call>, key: string, n: nat, k: nat, now: int)
    requires AllSensible(rules) && Capacity(rules(key)) == n as real && k <= n
    requires key !in Sweep(Run(rules, cs), now).buckets && now - Sweep(Run(rules, cs), now).lastSweep < SWEEP_INTERVAL
    ensures Holds(Sweep(Run(rules, cs + Burst(key, k, now)), now), key, rules(key), n - k, now)
    ensures k > 0 ==> key in Run(rules, cs + Burst(key, k, now)).buckets
                      && Holds(Run(rules, cs + Burst(key, k, now)), key, rules(key), n - k, now)
    ensures AllowedFrom(rules, cs + Burst(key, k, now), key, 0) == AllowedFrom(rules, cs, key, 0) + k
  {
    if k == 0 {
      assert cs + Burst(key, 0, now) == cs;
    } else {
      var init := cs + Burst(key, k - 1, now);
      BurstPasses(rules, cs, key, n, k - 1, now);
      OneMorePasses(rules, init, key, n - (k - 1), now);
      assert cs + Burst(key, k, now) == init + [Call(key, now)];
    }
  }

  lemma OneMorePasses(rules: Rules, cs: seq<Call>, key: string, left: nat, now: int)
    requires AllSensible(rules) && left >= 1 && left as real <= Capacity(rules(key))
    requires Holds(Sweep(Run(rules, cs), now), key, rules(key), left, now)
    ensures var next := cs + [Call(key, now)];
            && key in Run(rules, next).buckets
            && Holds(Run(rules, next), key, rules(key), left - 1, now)
            && Holds(Sweep(Run(rules, next), now), key, rules(key), left - 1, now)
            && AllowedFrom(rules, next, key, 0) == AllowedFrom(rules, cs, key, 0) + 1
  {
    HeldTokenPasses(Run(rules, cs), key, rules(key), left, now);
    RunStep(rules, cs, Call(key, now), key);
  }

  lemma TwoBursts(rules: Rules, key: string, n: nat, later: int)
    requires AllSensible(rules) && n >= 1 && Capacity(rules(key)) == n as real && later > IDLE_LIMIT
    ensures AllowedFrom(rules, Burst(key, n, 0) + Burst(key, n, later), key, 0) == 2 * n
  {
    var first := Burst(key, n, 0);
    assert [] + first == first;
    BurstPasses(rules, [], key, n, n, 0);
    RunStaysAtZero(rules, key, n);
    BurstPasses(rules, first, key, n, n, later);
  }

  /** Two bursts just over ten minutes apart: the sweep refills a slow bucket early. */
  lemma SlowRuleOverspends(rules: Rules, key: string, n: nat)
    requires AllSensible(rules) && n >= 1 && Capacity(rules(key)) == n as real && !FillsWhileIdle(rules(key))
    ensures var cs := Burst(key, n, 0) + Burst(key, n, IDLE_LIMIT + 1);
            Clocked(cs) && !WithinBudget(rules, cs, key, 0)
  {
    TwoBursts(rules, key, n, IDLE_LIMIT + 1);
  }

  lemma {:induction false} RunStaysAtZero(rules: Rules, key: string, k: nat)
    requires AllSensible(rules)
    ensures Run(rules, Burst(key, k, 0)).lastSweep == 0
  {
    if k > 0 {
      RunStaysAtZero(rules, key, k - 1);
      assert Burst(key, k, 0)[..k - 1] == Burst(key, k - 1, 0);
    }
  }

  /** The ceiling holds on every run exactly for the rules whose bucket fills before the sweep may drop it. */
  lemma BudgetExactly(rules: Rules, key: string, n: nat)
    requires AllSensible(rules) && n >= 1 && Capacity(rules(key)) == n as real
    ensures (forall cs, i: nat :: Clocked(cs) && i < |cs| ==> WithinBudget(rules, cs, key, i)) <==> FillsWhileIdle(rules(key))
  {
    if FillsWhileIdle(rules(key)) {
      forall cs, i: nat | Clocked(cs) && i < |cs| ensures WithinBudget(rules, cs, key, i) {
        BudgetHolds(rules, cs, key, i);
      }
    } else {
      SlowRuleOverspends(rules, key, n);
    }
  }

  // ---------------------------------------------------------------------------
  // Waiting as told
  // ---------------------------------------------------------------------------

  lemma WaitIsEnough(r: Rule, tokens: real, ms: int)
    requires Sensible(r) && tokens < 1.0 && ms >= 1000 * Decide(r, tokens).retryAfterSeconds
    ensures tokens + Gain(r, ms) >= 1.0
  {
    var need := (1.0 - tokens) / PerMs(r) / 1000.0;
    assert Ceil(need) as real >= need;
    NeedIsGain(tokens, PerMs(r), need, ms as real);
  }

  lemma NeedIsGain(tokens: real, per: real, need: real, ms: real)
    requires per > 0.0 && need == (1.0 - tokens) / per / 1000.0 && ms >= need * 1000.0
    ensures tokens + ms * per >= 1.0
  {
    assert need * 1000.0 * per == 1.0 - tokens;
    assert (ms - need * 1000.0) * per >= 0.0;
  }

  /** Calls for other keys leave the bucket alone, or sweep it away. */
  lemma {:induction false} Undisturbed(rules: Rules, cs: seq<Call>, key: string, i: nat)
    requires AllSensible(rules) && i < |cs| && cs[i].key == key
    requires forall m :: i < m < |cs| ==> cs[m].key != key
    ensures key in Run(rules, cs[..i + 1]).buckets
    ensures key in Run(rules, cs).buckets ==> Run(rules, cs).buckets[key] == Run(rules, cs[..i + 1]).buckets[key]
  {
    if i + 1 == |cs| {
      assert cs[..i + 1] == cs;
    } else {
      var init := cs[..|cs| - 1];
      Undisturbed(rules, init, key, i);
      assert init[..i + 1] == cs[..i + 1];
    }
  }

  /** A refused caller that waits the time it was told, without calling in between, is admitted. */
  lemma RetryIsAdmitted(rules: Rules, cs: seq<Call>, i: nat)
    requires AllSensible(rules) && i + 1 < |cs| && cs[|cs| - 1].key == cs[i].key && Capacity(rules(cs[i].key)) >= 1.0
    requires forall m :: i < m < |cs| - 1 ==> cs[m].key != cs[i].key
    requires !Last(rules, cs[..i + 1]).allowed
    requires cs[|cs| - 1].now >= cs[i].now + 1000 * Last(rules, cs[..i + 1]).retryAfterSeconds
    ensures Last(rules, cs).allowed
  {
    var key, r := cs[i].key, rules(cs[i].key);
    var init, c := cs[..|cs| - 1], cs[|cs| - 1];
    Undisturbed(rules, init, key, i);
    assert init[..i + 1] == cs[..i + 1];
    Refusal(rules, cs, i);
    AdmittedAfter(Run(rules, init), key, r, Run(rules, cs[..i + 1]).buckets[key], c.now);
  }

  /** What a refusal leaves behind and tells the caller. */
  lemma Refusal(rules: Rules, cs: seq<Call>, i: nat)
    requires AllSensible(rules) && i < |cs| && !Last(rules, cs[..i + 1]).allowed
    ensures var key := cs[i].key;
            var l := Run(rules, cs[..i + 1]);
            && key in l.buckets && l.buckets[key].last == cs[i].now && l.buckets[key].tokens < 1.0
            && Last(rules, cs[..i + 1]) == Decide(rules(key), l.buckets[key].tokens)
  {
    assert cs[..i + 1][..i] == cs[..i] && cs[..i + 1][i] == cs[i];
  }

  lemma AdmittedAfter(l: Limiter, key: string, r: Rule, b: Bucket, now: int)
    requires Sensible(r) && Capacity(r) >= 1.0 && b.tokens < 1.0 && now >= b.last + 1000 * Decide(r, b.tokens).retryAfterSeconds
    requires key in l.buckets ==> l.buckets[key] == b
    ensures Check(l, key, r, now).1.allowed
  {
    GainGrows(r, 0, 0);
    WaitIsEnough(r, b.tokens, now - b.last);
  }
}
