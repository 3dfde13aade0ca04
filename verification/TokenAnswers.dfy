/** What one call of the limiter answers and stores, said of the clock, the rule and the key's bucket. */
module TokenAnswers {
  import opened Basics
  import opened TokenBucket

  /** The bucket was idle for more than ten minutes and a sweep, at most one a minute, is due. */
  predicate SweptAway(l: Limiter, key: string, now: int) {
    key in l.buckets && now - l.lastSweep >= 60_000 && now - l.buckets[key].last > 600_000
  }

  /** What the key has to spend: full when it has no bucket, else refilled at the rule's rate, up to its capacity. */
  function Level(l: Limiter, key: string, r: Rule, now: int): real
    requires r.windowSeconds > 0.0
  {
    var full := if r.burst.Some? then r.burst.value else r.limit;
    if key !in l.buckets || SweptAway(l, key, now) then full
    else
      var b := l.buckets[key];
      var refilled := b.tokens + (if now < b.last then 0.0 else (now - b.last) as real * (r.limit / (r.windowSeconds * 1000.0)));
      if refilled > full then full else refilled
  }

  /** `wait` seconds refill what is missing to one token, and one second less does not; it is at least one second. */
  predicate ShortestWait(wait: int, level: real, r: Rule)
    requires r.windowSeconds > 0.0
  {
    var perSecond := 1000.0 * (r.limit / (r.windowSeconds * 1000.0));
    wait >= 1 && level + wait as real * perSecond >= 1.0 && (wait > 1 ==> level + (wait - 1) as real * perSecond < 1.0)
  }

  /** A call passes exactly when a whole token is there; it takes one, or is told the shortest wait that brings one. */
  lemma CallAnswers(l: Limiter, key: string, r: Rule, now: int)
    requires Sensible(r)
    ensures var (after, d) := Check(l, key, r, now);
            var level := Level(l, key, r, now);
            && d.allowed == (level >= 1.0) && d.limit == r.limit
            && (d.allowed ==> d.retryAfterSeconds == 0 && d.remaining as real <= level - 1.0 < (d.remaining + 1) as real)
            && (!d.allowed ==> d.remaining == 0 && ShortestWait(d.retryAfterSeconds, level, r))
            && after.lastSweep == (if now - l.lastSweep < 60_000 then l.lastSweep else now)
            && key in after.buckets && after.buckets[key] == Bucket(if d.allowed then level - 1.0 else level, now)
            && forall k :: k != key ==>
                 && (k in after.buckets <==> k in l.buckets && !SweptAway(l, k, now))
                 && (k in after.buckets ==> after.buckets[k] == l.buckets[k])
  {
    GainGrows(r, 0, 0);
    var level := Refilled(Sweep(l, now).buckets, key, r, now);
    assert level == Level(l, key, r, now);
    if level < 1.0 {
      WaitIsShortest(r, level);
    }
  }

  lemma WaitIsShortest(r: Rule, level: real)
    requires Sensible(r) && level < 1.0
    ensures ShortestWait(Decide(r, level).retryAfterSeconds, level, r)
  {
    var wait := Decide(r, level).retryAfterSeconds;
    var need := (1.0 - level) / PerMs(r) / 1000.0;
    var c := Ceil(need);
    NeedIsGain(level, PerMs(r), need, wait as real * 1000.0);
    assert wait as real * 1000.0 * PerMs(r) == wait as real * (1000.0 * PerMs(r));
    if wait > 1 {
      assert wait == c && (c - 1) as real < need;
      TooShort(level, PerMs(r), need, (wait - 1) as real);
    }
  }

  lemma TooShort(level: real, per: real, need: real, seconds: real)
    requires per > 0.0 && need == (1.0 - level) / per / 1000.0 && seconds < need
    ensures level + seconds * (1000.0 * per) < 1.0
  {
    assert need * (1000.0 * per) == 1.0 - level;
    assert (need - seconds) * (1000.0 * per) > 0.0;
  }
}
