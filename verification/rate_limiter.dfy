/** The limiter itself: buckets as objects updated in place, and the cleanup loop that deletes them. */
module RateLimiters {
  import RateLimit

  class Bucket {
    var tokens: real
    var lastRefill: real

    constructor (tokens: real, now: real)
      ensures this.tokens == tokens && lastRefill == now
    {
      this.tokens := tokens;
      lastRefill := now;
    }

    ghost function View(): RateLimit.Bucket
      reads this
    {
      RateLimit.Bucket(tokens, lastRefill)
    }

    /** What `allow` does under the bucket's lock: refill, cap, and take a token if there is one. */
    method Take(config: RateLimit.Config, now: real) returns (allowed: bool, retryAfter: int)
      requires config.Valid()
      modifies this
      ensures RateLimit.Take(config, old(View()), now)
           == (View(), if allowed then RateLimit.Allowed else RateLimit.Denied(retryAfter))
      ensures allowed ==> retryAfter == 0
    {
      var elapsed := now - lastRefill;
      tokens := tokens + elapsed * config.Rate();
      if tokens > config.Max() {
        tokens := config.Max();
      }
      lastRefill := now;
      if tokens >= 1.0 {
        tokens := tokens - 1.0;
        return true, 0;
      }
      return false, RateLimit.Truncate((1.0 - tokens) / config.Rate()) + 1;
    }
  }

  class RateLimiter {
    const config: RateLimit.Config
    var buckets: map<string, Bucket>

    /** No two IPs share a bucket. */
    ghost predicate Valid()
      reads this
    {
      config.Valid() && forall a, b | a in buckets && b in buckets && a != b :: buckets[a] != buckets[b]
    }

    ghost function View(): RateLimit.Buckets
      reads this, buckets.Values
    {
      map ip | ip in buckets :: buckets[ip].View()
    }

    constructor (config: RateLimit.Config)
      requires config.Valid()
      ensures Valid() && View() == map[] && this.config == config
    {
      this.config := config;
      buckets := map[];
    }

    method Allow(ip: string, now: real) returns (allowed: bool, retryAfter: int)
      requires Valid()
      modifies this, buckets.Values
      ensures Valid()
      ensures var (after, answer) := RateLimit.Step(config, old(View()), RateLimit.Call(ip, now), true);
              && View() == after
              && answer == (if allowed then RateLimit.Allowed else RateLimit.Denied(retryAfter))
              && (allowed ==> retryAfter == 0)
    {
      hide RateLimit.Take;
      ghost var before := View();
      if ip !in buckets {
        var full := new Bucket(config.Max(), now);
        buckets := buckets[ip := full];
      }
      var b := buckets[ip];
      assert RateLimit.BucketOf(config, before, ip, now) == b.View();
      allowed, retryAfter := b.Take(config, now);
      assert View() == before[ip := b.View()];
    }

    /** One tick of the cleanup goroutine. */
    method Cleanup(now: real)
      requires Valid()
      modifies this
      ensures Valid() && View() == RateLimit.Cleanup(old(View()), now)
    {
      var rest := buckets.Keys;
      while rest != {}
        invariant rest <= buckets.Keys <= old(buckets.Keys)
        invariant forall ip | ip in buckets :: buckets[ip] == old(buckets[ip])
        invariant forall ip | ip in old(buckets.Keys) ::
                    ip in buckets <==> ip in rest || now - old(buckets[ip]).lastRefill <= RateLimit.IDLE
      {
        var ip :| ip in rest;
        rest := rest - {ip};
        var idle := now - buckets[ip].lastRefill;
        if idle > RateLimit.IDLE {
          buckets := buckets - {ip};
        }
      }
    }
  }
}
