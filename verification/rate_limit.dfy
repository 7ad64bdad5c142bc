/**
 * The per-IP token bucket (`allow`): each address has a bucket of `(tokens, last)` that
 * refills at `capacity / perSeconds` tokens per second up to `capacity`; a request costing
 * `cost` tokens is let through exactly when the refilled bucket holds that many. Time and
 * token counts are reals (the source uses floats), and the monotonic clock is the parameter
 * `now`.
 */
module RateLimit {

  /** One address's bucket: the tokens it held and when it was last touched. */
  datatype Bucket = Bucket(tokens: real, last: real)

  /** The answer to one request: allowed, seconds to wait, whole tokens left. */
  datatype Decision = Decision(allowed: bool, retryAfter: real, remaining: int)

  /** Python's `int(x)` on a float: truncation toward zero. */
  function Trunc(x: real): (n: int)
    ensures x >= 0.0 ==> n as real <= x < n as real + 1.0
    ensures x < 0.0 ==> n as real - 1.0 < x <= n as real
  {
    if x >= 0.0 then x.Floor else -((-x).Floor)
  }

  function Min(a: real, b: real): real {
    if a <= b then a else b
  }

  /** Tokens per second. */
  function Rate(capacity: int, perSeconds: int): real
    requires perSeconds > 0
  {
    capacity as real / perSeconds as real
  }

  /** The bucket before refilling: the stored one, or a full one stamped `now` for a new address. */
  function Current(buckets: map<string, Bucket>, ip: string, capacity: int, now: real): Bucket {
    if ip in buckets then buckets[ip] else Bucket(capacity as real, now)
  }

  /** The tokens after refilling for the time elapsed since the bucket was last touched. */
  function Refilled(b: Bucket, capacity: int, rate: real, now: real): real {
    Min(capacity as real, b.tokens + (now - b.last) * rate)
  }

  /**
   * The buckets as the clock guarantees them: no stored bucket was touched after `now`, and
   * (every cost in use being non-negative) none holds fewer than zero tokens.
   */
  predicate Settled(buckets: map<string, Bucket>, now: real) {
    forall ip :: ip in buckets ==> buckets[ip].last <= now && buckets[ip].tokens >= 0.0
  }

  class RateLimiter {
    /** `_buckets` */
    var buckets: map<string, Bucket>

    constructor ()
      ensures buckets == map[]
    {
      buckets := map[];
    }

    /**
     * `allow(ip, capacity, perSeconds, cost)` at time `now`. Allowed exactly when the refilled
     * tokens cover the cost: the bucket then keeps the refilled tokens less the cost, the wait
     * is 0 and the remaining count is the whole part of what is left. Otherwise the bucket
     * keeps the refilled tokens and the wait is the time the missing tokens take to refill.
     * Either way the bucket is stamped `now` and no other address's bucket changes.
     */
    method Allow(ip: string, capacity: int, perSeconds: int, cost: int, now: real) returns (d: Decision)
      requires capacity > 0 && perSeconds > 0
      modifies this
      ensures var rate := Rate(capacity, perSeconds);
        var t := Refilled(Current(old(buckets), ip, capacity, now), capacity, rate, now);
        && (d.allowed <==> t >= cost as real)
        && (d.allowed ==> d.retryAfter == 0.0 && d.remaining == Trunc(t - cost as real)
                          && buckets == old(buckets)[ip := Bucket(t - cost as real, now)])
        && (!d.allowed ==> d.retryAfter == (cost as real - t) / rate && d.remaining == Trunc(t)
                           && buckets == old(buckets)[ip := Bucket(t, now)])
    {
      var rate := capacity as real / perSeconds as real;
      assert rate == Rate(capacity, perSeconds);
      var b := if ip in buckets then buckets[ip] else Bucket(capacity as real, now);
      assert b == Current(buckets, ip, capacity, now);
      var tokens := b.tokens + (now - b.last) * rate;
      if capacity as real < tokens {
        tokens := capacity as real;
      }
      assert tokens == Refilled(b, capacity, rate, now);
      if tokens >= cost as real {
        tokens := tokens - cost as real;
        buckets := buckets[ip := Bucket(tokens, now)];
        return Decision(true, 0.0, Trunc(tokens));
      }
      var needed := cost as real - tokens;
      var retryAfter := needed / rate;
      buckets := buckets[ip := Bucket(tokens, now)];
      return Decision(false, retryAfter, Trunc(tokens));
    }
  }

  // ---------------------------------------------------------------------------
  // Properties of the bucket
  // ---------------------------------------------------------------------------

  /** A new address starts with a full bucket. */
  lemma NewAddressFull(buckets: map<string, Bucket>, ip: string, capacity: int, perSeconds: int, now: real)
    requires capacity > 0 && perSeconds > 0
    requires ip !in buckets
    ensures Refilled(Current(buckets, ip, capacity, now), capacity, Rate(capacity, perSeconds), now) == capacity as real
  {
  }

  /**
   * Refilling never exceeds the capacity, and on a settled clock it never loses tokens: the
   * refilled count lies between what was stored (capped) and the capacity.
   */
  lemma RefillBounds(buckets: map<string, Bucket>, ip: string, capacity: int, perSeconds: int, now: real)
    requires capacity > 0 && perSeconds > 0
    requires Settled(buckets, now)
    ensures var b := Current(buckets, ip, capacity, now);
      var t := Refilled(b, capacity, Rate(capacity, perSeconds), now);
      && t <= capacity as real
      && Min(capacity as real, b.tokens) <= t
      && 0.0 <= t
  {
    var b := Current(buckets, ip, capacity, now);
    var rate := Rate(capacity, perSeconds);
    assert rate > 0.0;
    assert (now - b.last) * rate >= 0.0 by {
      assert now - b.last >= 0.0;
    }
  }

  /** A denied request is told to wait a positive time. */
  lemma DeniedWaitPositive(t: real, cost: int, capacity: int, perSeconds: int)
    requires capacity > 0 && perSeconds > 0
    requires t < cost as real
    ensures (cost as real - t) / Rate(capacity, perSeconds) > 0.0
  {
    var rate := Rate(capacity, perSeconds);
    assert rate > 0.0;
  }

  /**
   * Waiting the advertised time is enough: after a denial at `now`, the same request at
   * `now + retryAfter` (with no request in between) finds exactly `cost` tokens, or the full
   * capacity if that is smaller, so it is let through whenever the cost fits the capacity.
   */
  lemma RetryAfterSuffices(t: real, cost: int, capacity: int, perSeconds: int, now: real)
    requires capacity > 0 && perSeconds > 0
    requires t < cost as real && t <= capacity as real
    ensures var rate := Rate(capacity, perSeconds);
      var later := now + (cost as real - t) / rate;
      && Refilled(Bucket(t, now), capacity, rate, later) == Min(capacity as real, cost as real)
      && (cost <= capacity ==> Refilled(Bucket(t, now), capacity, rate, later) >= cost as real)
  {
    var rate := Rate(capacity, perSeconds);
    assert rate > 0.0;
    var wait := (cost as real - t) / rate;
    assert wait * rate == cost as real - t;
    var later := now + wait;
    assert (later - now) * rate == cost as real - t;
  }

  /** Either answer leaves every bucket with no negative tokens when the cost is non-negative. */
  lemma AllowKeepsSettled(buckets: map<string, Bucket>, ip: string, capacity: int, perSeconds: int,
                            cost: int, now: real)
    requires capacity > 0 && perSeconds > 0 && cost >= 0
    requires Settled(buckets, now)
    ensures var t := Refilled(Current(buckets, ip, capacity, now), capacity, Rate(capacity, perSeconds), now);
      && Settled(buckets[ip := Bucket(if t >= cost as real then t - cost as real else t, now)], now)
  {
    RefillBounds(buckets, ip, capacity, perSeconds, now);
  }
}
