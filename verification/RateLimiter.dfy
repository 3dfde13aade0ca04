/** The in-process limiter: a map of buckets updated in place and swept at most once a minute. */
module RateLimiter {
  import opened Basics
  import T = TokenBucket
  import opened TokenBucket

  class TokenBucketRateLimiter {
    var buckets: map<string, Bucket>
    var lastSweepMs: int

    ghost function State(): Limiter
      reads this
    {
      Limiter(buckets, lastSweepMs)
    }

    constructor ()
      ensures State() == Fresh
    {
      buckets, lastSweepMs := map[], 0;
    }

    method Check(key: string, rule: Rule, now: int) returns (d: Decision)
      requires Sensible(rule)
      modifies this
      ensures (State(), d) == T.Check(old(State()), key, rule, now)
    {
      var capacity := Capacity(rule);
      var refillPerMs := PerMs(rule);
      Sweep(now);
      ghost var swept := buckets;
      if key !in buckets {
        buckets := buckets[key := Bucket(capacity, now)];
      }
      var bucket := buckets[key];
      var elapsed := if now > bucket.last then now - bucket.last else 0;
      var tokens := Min(capacity, bucket.tokens + elapsed as real * refillPerMs);
      assert tokens == Refilled(swept, key, rule, now);
      if tokens < 1.0 {
        buckets := buckets[key := Bucket(tokens, now)];
        var wait := Ceil((1.0 - tokens) / refillPerMs / 1000.0);
        d := Decision(false, 0, if wait > 1 then wait else 1, rule.limit);
      } else {
        buckets := buckets[key := Bucket(tokens - 1.0, now)];
        d := Decision(true, (tokens - 1.0).Floor, 0, rule.limit);
      }
      assert buckets == Take(swept, key, rule, now).0;
    }

    /** Drop the buckets that have been idle for more than ten minutes. */
    method Sweep(now: int)
      modifies this
      ensures State() == T.Sweep(old(State()), now)
    {
      if now - lastSweepMs < SWEEP_INTERVAL { return; }
      lastSweepMs := now;
      var pending := buckets.Keys;
      while pending != {}
        invariant pending <= old(buckets).Keys && lastSweepMs == now
        invariant forall k :: k in buckets <==>
          k in old(buckets) && (k in pending || now - old(buckets)[k].last <= IDLE_LIMIT)
        invariant forall k :: k in buckets ==> buckets[k] == old(buckets)[k]
        decreases |pending|
      {
        var key :| key in pending;
        pending := pending - {key};
        if key in buckets && now - buckets[key].last > IDLE_LIMIT {
          buckets := buckets - {key};
        }
      }
    }

    method Reset()
      modifies this`buckets
      ensures buckets == map[]
    {
      buckets := map[];
    }
  }
}
