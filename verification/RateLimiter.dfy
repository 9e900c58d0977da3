/** gateway/ratelimit/token_bucket.py over the shared hashes: the Lua script
    statement by statement, expiry included, proved against TokenBucket.Eval. */
module RateLimiter {
  import opened Wrappers
  import opened Errors
  import opened RedisKeys
  import opened TokenBucket

  function Lookup(buckets: map<string, Bucket>, key: string): Bucket {
    if key in buckets then buckets[key] else Missing
  }

  function BucketKey(tenant: Uuid, model: string): string {
    Encode(RateLimit(tenant, model))
  }

  class TokenBucketLimiter {
    var buckets: map<string, Bucket>

    constructor ()
      ensures buckets == map[]
    {
      buckets := map[];
    }

    /** token_bucket.lua. HMGET finds nothing once the key has lapsed, and
        HMSET with EXPIRE starts its hour again. */
    method EvalScript(key: string, capacity: real, refillRate: real, now: real, requested: Amount)
      returns (reply: Reply)
      requires capacity > 0.0 && refillRate > 0.0
      modifies this
      ensures var found := Surviving(Lookup(old(buckets), key), now);
              var (b, r) := Eval(RawLimits(capacity, refillRate), found, Call(now, requested));
              buckets == old(buckets)[key := b] && reply == r
    {
      var bucket := Surviving(Lookup(buckets, key), now);
      var tokens, lastRefill := capacity, now;
      if bucket.Stored? {
        tokens, lastRefill := bucket.tokens, bucket.lastRefill;
      }
      var elapsed := Max(0.0, now - lastRefill);
      tokens := Min(capacity, tokens + elapsed * refillRate);
      var allowed, retryAfterMs := false, 0;
      if tokens >= requested {
        tokens := tokens - requested;
        allowed := true;
      } else {
        var deficit := requested - tokens;
        retryAfterMs := Ceil(deficit / refillRate * 1000.0);
      }
      buckets := buckets[key := Stored(tokens, now)];
      reply := Reply(allowed, tokens, retryAfterMs);
    }

    /** Raises RateLimitExceeded with the script's hint in seconds when the
        bucket cannot pay; no other tenant's or model's bucket moves. */
    method CheckAndConsume(tenant: Uuid, model: string, policy: Policy, now: real, cost: nat)
      returns (r: Result<(), GatewayError>)
      modifies this
      ensures var found := Surviving(Lookup(old(buckets), BucketKey(tenant, model)), now);
              var (b, reply) := Eval(LimitsOf(policy), found, Call(now, cost as real));
              Lookup(buckets, BucketKey(tenant, model)) == b &&
              r == if reply.allowed then Ok(()) else Err(RateLimitExceeded(reply.retryAfterMs as real / 1000.0))
      ensures forall t: Uuid, m: string | t != tenant || m != model ::
                Lookup(buckets, BucketKey(t, m)) == Lookup(old(buckets), BucketKey(t, m))
    {
      var refillRate := policy.requestsPerMinute as real / 60.0;
      var reply := EvalScript(BucketKey(tenant, model), policy.burst as real, refillRate, now, cost as real);
      forall t: Uuid, m: string | t != tenant || m != model
        ensures BucketKey(t, m) != BucketKey(tenant, model)
      {
        if BucketKey(t, m) == BucketKey(tenant, model) {
          EncodeInjective(RateLimit(t, m), RateLimit(tenant, model));
        }
      }
      if !reply.allowed {
        return Err(RateLimitExceeded(reply.retryAfterMs as real / 1000.0));
      }
      return Ok(());
    }
  }
}
