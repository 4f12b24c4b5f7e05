/** The limiter object of internal/ratelimit, one check at a time: `TokenBuckets` specifies its
    buckets, and `DailyQuota` its quota cache under concurrent checks. */
module Limiter {
  import opened ByteStrings
  import Sums
  import TB = TokenBuckets

  datatype Reason = Ok | Rps | BurstBytes | DailyQuota | LookupFailed

  datatype QuotaEntry = QuotaEntry(used: int, expires: real)

  type Cache = map<TB.Tenant, QuotaEntry>

  const CACHE_SECONDS := 60.0

  predicate Cached(c: Cache, t: TB.Tenant, now: real) { t in c && now < c[t].expires }

  /** The total a check works with: cached while valid, otherwise queried, and zero when the
      query fails. */
  function Known(c: Cache, t: TB.Tenant, now: real, answer: Option<int>): int
  {
    if Cached(c, t, now) then c[t].used
    else if answer.Some? then answer.value
    else 0
  }

  function Refreshed(c: Cache, t: TB.Tenant, now: real, answer: Option<int>): Cache
  {
    if !Cached(c, t, now) && answer.Some? then c[t := QuotaEntry(answer.value, now + CACHE_SECONDS)] else c
  }

  /** A total that was queried is used for sixty seconds, whatever the table says meanwhile, and not
      a moment longer. */
  lemma CachedForAMinute(
    c: Cache, t: TB.Tenant, now: real, answer: int, later: real, second: Option<int>)
    requires !Cached(c, t, now) && now <= later
    ensures Known(c, t, now, Some(answer)) == answer
    ensures Known(Refreshed(c, t, now, Some(answer)), t, later, second) ==
            if later < now + 60.0 then answer else if second.Some? then second.value else 0
    ensures forall u :: u != t ==> Cached(Refreshed(c, t, now, Some(answer)), u, later) == Cached(c, u, later)
  {
  }

  /** Using a cached total does not prolong it, and a failed query leaves no trace in the cache. */
  lemma CacheUntouched(c: Cache, t: TB.Tenant, now: real, answer: Option<int>)
    requires Cached(c, t, now) || answer.None?
    ensures Refreshed(c, t, now, answer) == c
    ensures !Cached(c, t, now) ==> Known(c, t, now, answer) == 0
  {
  }

  /** The buckets left by an eviction that has yet to look at `todo`. */
  function Kept(bs: TB.Buckets, todo: set<TB.Tenant>, cutoff: real): TB.Buckets
  {
    map t | t in bs && (t in todo || bs[t].lastAccess >= cutoff) :: bs[t]
  }

  class Limiter {
    var buckets: TB.Buckets
    var quotaCache: Cache
    var quotaFailures: nat

    constructor ()
      ensures buckets == map[] && quotaCache == map[] && quotaFailures == 0
    {
      buckets, quotaCache, quotaFailures := map[], map[], 0;
    }

    method GetOrCreateBucket(t: TB.Tenant, l: TB.Limits, now: real)
      modifies this`buckets
      ensures buckets == TB.Touch(old(buckets), t, l, now)
    {
      if t !in buckets {
        var rpsRate, rpsBurst := 100.0, 200.0;
        var byteRate, byteBurst := 10000000.0, 10000000.0;
        if l.rps.Some? && l.rps.value > 0 {
          rpsRate, rpsBurst := l.rps.value as real, l.rps.value as real;
        }
        if l.burst.Some? && l.burst.value > 0 {
          byteRate, byteBurst := l.burst.value as real, l.burst.value as real;
        }
        var rps, bytes := TB.Full(rpsRate, rpsBurst, now), TB.Full(byteRate, byteBurst, now);
        buckets := buckets[t := TB.TenantBucket(rps, bytes, now)];
      }
      buckets := buckets[t := buckets[t].(lastAccess := now)];
    }

    method AllowRPS(limits: map<TB.Tenant, TB.Limits>, t: TB.Tenant, now: real) returns (why: Reason)
      modifies this`buckets
      ensures buckets == TB.AllowRps(old(buckets), limits, t, now).1
      ensures TB.AllowRps(old(buckets), limits, t, now).0 ==
              (if why == Ok then TB.Allowed else if why == Rps then TB.Refused else TB.LookupFailed)
      ensures why in {Ok, Rps, LookupFailed}
    {
      if t !in limits { return LookupFailed; }
      if limits[t].rps.None? || limits[t].rps.value <= 0 { return Ok; }
      GetOrCreateBucket(t, limits[t], now);
      var (ok, b) := TB.TakeTokens(buckets[t].rps, now, 1.0);
      buckets := buckets[t := buckets[t].(rps := b)];
      return if ok then Ok else Rps;
    }

    /** `answer` is what the usage query returns if it is made. */
    method GetDailyUsage(t: TB.Tenant, now: real, answer: Option<int>) returns (used: int)
      modifies this`quotaCache, this`quotaFailures
      ensures used == Known(old(quotaCache), t, now, answer)
      ensures quotaCache == Refreshed(old(quotaCache), t, now, answer)
      ensures quotaFailures == old(quotaFailures) + if Cached(old(quotaCache), t, now) || answer.Some? then 0 else 1
    {
      if t in quotaCache && now < quotaCache[t].expires { return quotaCache[t].used; }
      if answer.None? {
        quotaFailures := quotaFailures + 1;
        return 0;
      }
      quotaCache := quotaCache[t := QuotaEntry(answer.value, now + CACHE_SECONDS)];
      return answer.value;
    }

    /** A check that fails on the quota has already paid for its burst. */
    method AllowBytes(limits: map<TB.Tenant, TB.Limits>, t: TB.Tenant, n: nat, now: real, answer: Option<int>)
      returns (why: Reason)
      modifies this
      ensures var (d, after) := TB.AllowBurst(old(buckets), limits, t, n, now);
              && buckets == after
              && (d == TB.LookupFailed <==> why == LookupFailed)
              && (d == TB.Refused <==> why == BurstBytes)
      ensures why in {Ok, BurstBytes, DailyQuota, LookupFailed}
      ensures why == DailyQuota ==> t in limits && TB.Positive(limits[t].quota)
      ensures why == Ok && TB.Positive(limits[t].quota) ==>
              Known(old(quotaCache), t, now, answer) + n <= limits[t].quota.value
      ensures why == DailyQuota ==> limits[t].quota.value < Known(old(quotaCache), t, now, answer) + n
      ensures quotaCache == (if why in {Ok, DailyQuota} && TB.Positive(limits[t].quota)
                             then Refreshed(old(quotaCache), t, now, answer) else old(quotaCache))
    {
      if t !in limits { return LookupFailed; }
      var l := limits[t];
      if l.burst.None? && l.quota.None? { return Ok; }
      GetOrCreateBucket(t, l, now);
      if l.burst.Some? && l.burst.value > 0 {
        var (ok, b) := TB.TakeTokens(buckets[t].bytes, now, n as real);
        buckets := buckets[t := buckets[t].(bytes := b)];
        if !ok { return BurstBytes; }
      }
      if l.quota.Some? && l.quota.value > 0 {
        var used := GetDailyUsage(t, now, answer);
        if used + n > l.quota.value { return DailyQuota; }
      }
      return Ok;
    }

    method EvictBuckets(now: real)
      modifies this`buckets
      ensures buckets == TB.EvictIdle(old(buckets), now)
    {
      var cutoff := now - TB.IDLE_SECONDS;
      ghost var was := buckets;
      var todo := buckets.Keys;
      while todo != {}
        invariant todo <= buckets.Keys
        invariant buckets == Kept(was, todo, cutoff)
        decreases todo
      {
        var t := Sums.AnyOf(todo);
        if buckets[t].lastAccess < cutoff {
          buckets := buckets - {t};
        }
        todo := todo - {t};
      }
    }

    method RefreshQuotaCache()
      modifies this`quotaCache
      ensures quotaCache == map[]
    {
      quotaCache := map[];
    }
  }
}
