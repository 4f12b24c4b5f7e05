/** Per-tenant rate limiting of internal/ratelimit: token buckets that are created lazily and
    evicted when idle. A `rate.Limiter` is the textbook bucket over the reals, starting full. */
module TokenBuckets {
  import opened ByteStrings

  type Tenant = int

  /** Optional limits of a tenant as stored; `None` and non-positive values switch a check off. */
  datatype Limits = Limits(rps: Option<int>, burst: Option<int>, quota: Option<int>)

  datatype Bucket = Bucket(rate: real, burst: real, tokens: real, last: real)

  function Min(a: real, b: real): real { if a <= b then a else b }

  /** What a rate provides over a span of time. */
  function Refill(rate: real, span: real): real { rate * span }

  lemma RefillAdd(rate: real, a: real, b: real, c: real)
    ensures Refill(rate, c - a) == Refill(rate, c - b) + Refill(rate, b - a)
    ensures rate >= 0.0 && a <= b ==> Refill(rate, b - a) >= 0.0
    ensures Refill(rate, 0.0) == 0.0
  {
  }

  /** Tokens available at time `now`. */
  function Level(b: Bucket, now: real): real { Min(b.burst, b.tokens + Refill(b.rate, now - b.last)) }

  /** `AllowN(now, n)`. */
  function TakeTokens(b: Bucket, now: real, n: real): (bool, Bucket)
  {
    if n <= b.burst && n <= Level(b, now) then (true, b.(tokens := Level(b, now) - n, last := now))
    else (false, b)
  }

  function Full(rate: real, burst: real, now: real): Bucket { Bucket(rate, burst, burst, now) }

  datatype TenantBucket = TenantBucket(rps: Bucket, bytes: Bucket, lastAccess: real)

  predicate Positive(o: Option<int>) { o.Some? && o.value > 0 }

  function RpsRate(l: Limits): real { if Positive(l.rps) then l.rps.value as real else 100.0 }
  function RpsBurst(l: Limits): real { if Positive(l.rps) then l.rps.value as real else 200.0 }
  function ByteRate(l: Limits): real { if Positive(l.burst) then l.burst.value as real else 10000000.0 }
  function ByteBurst(l: Limits): real { if Positive(l.burst) then l.burst.value as real else 10000000.0 }

  type Buckets = map<Tenant, TenantBucket>

  /** `getOrCreateBucket`, then the access time. */
  function Touch(bs: Buckets, t: Tenant, l: Limits, now: real): Buckets
  {
    if t in bs then bs[t := bs[t].(lastAccess := now)]
    else bs[t := TenantBucket(Full(RpsRate(l), RpsBurst(l), now), Full(ByteRate(l), ByteBurst(l), now), now)]
  }

  /** A check by the limiter, or the minutely eviction. */
  datatype Event =
    | Request(tenant: Tenant, now: real)
    | Bytes(tenant: Tenant, n: nat, now: real)
    | Evict(now: real)

  datatype Decision = Allowed | Refused | LookupFailed

  /** `AllowRPS`. */
  function AllowRps(bs: Buckets, limits: map<Tenant, Limits>, t: Tenant, now: real): (Decision, Buckets)
  {
    if t !in limits then (LookupFailed, bs)
    else if !Positive(limits[t].rps) then (Allowed, bs)
    else
      var touched := Touch(bs, t, limits[t], now);
      var (ok, b) := TakeTokens(touched[t].rps, now, 1.0);
      (if ok then Allowed else Refused, touched[t := touched[t].(rps := b)])
  }

  /** `AllowBytes` up to the burst check. */
  function AllowBurst(bs: Buckets, limits: map<Tenant, Limits>, t: Tenant, n: nat, now: real): (Decision, Buckets)
  {
    if t !in limits then (LookupFailed, bs)
    else if limits[t].burst.None? && limits[t].quota.None? then (Allowed, bs)
    else
      var touched := Touch(bs, t, limits[t], now);
      if !Positive(limits[t].burst) then (Allowed, touched)
      else
        var (ok, b) := TakeTokens(touched[t].bytes, now, n as real);
        (if ok then Allowed else Refused, touched[t := touched[t].(bytes := b)])
  }

  const IDLE_SECONDS := 3600.0

  /** `evictBuckets`. */
  function EvictIdle(bs: Buckets, now: real): Buckets
  {
    map t | t in bs && bs[t].lastAccess >= now - IDLE_SECONDS :: bs[t]
  }

  /** One event; with `evicting` false the limiter never forgets a bucket. The decision of an
      eviction is not used. */
  function Step(bs: Buckets, limits: map<Tenant, Limits>, e: Event, evicting: bool): (Decision, Buckets)
  {
    match e
    case Request(t, now) => AllowRps(bs, limits, t, now)
    case Bytes(t, n, now) => AllowBurst(bs, limits, t, n, now)
    case Evict(now) => (Allowed, if evicting then EvictIdle(bs, now) else bs)
  }

  function Decisions(bs: Buckets, limits: map<Tenant, Limits>, es: seq<Event>, evicting: bool): (ds: seq<Decision>)
    ensures |ds| == |es|
    decreases |es|
  {
    if es == [] then []
    else
      var (d, next) := Step(bs, limits, es[0], evicting);
      [d] + Decisions(next, limits, es[1..], evicting)
  }

  /** The clock never goes back. */
  predicate Ordered(es: seq<Event>, from: real)
  {
    es == [] || (from <= es[0].now && Ordered(es[1..], es[0].now))
  }

  // ----- one bucket -----

  /** Shape of a bucket at time `now`: it refills from empty within two seconds. */
  predicate Sane(b: Bucket, now: real)
  {
    b.rate > 0.0 && 0.0 <= b.tokens <= b.burst && b.burst <= 2.0 * b.rate && b.last <= now
  }

  /** Refilling to `later` can be done in two steps. */
  lemma LevelLater(b: Bucket, now: real, later: real)
    requires Sane(b, now) && now <= later
    ensures Level(b, later) == Min(b.burst, Level(b, now) + Refill(b.rate, later - now))
    ensures Level(b, now) <= Level(b, later) <= b.burst && 0.0 <= Level(b, now)
  {
    hide Refill;
    RefillAdd(b.rate, b.last, now, later);
    RefillAdd(b.rate, now, later, later);
  }

  /** After two idle seconds a bucket is full. */
  lemma IdleIsFull(b: Bucket, now: real)
    requires Sane(b, now) && b.last + 2.0 <= now
    ensures Level(b, now) == b.burst
  {
    var spare := now - b.last - 2.0;
    assert b.rate * spare >= 0.0;
    assert b.rate * (now - b.last) == b.rate * spare + b.rate * 2.0;
  }

  lemma TakeSane(b: Bucket, now: real, n: real)
    requires Sane(b, now) && n >= 0.0
    ensures Sane(TakeTokens(b, now, n).1, now)
    ensures Level(TakeTokens(b, now, n).1, now) == Level(b, now) - if TakeTokens(b, now, n).0 then n else 0.0
  {
    hide Refill;
    LevelLater(b, now, now);
    RefillAdd(b.rate, now, now, now);
  }

  // ----- the whole limiter, seen as available tokens -----

  /** The two buckets of a tenant. */
  datatype Dim = Rps | Volume

  function Which(tb: TenantBucket, dim: Dim): Bucket { if dim.Rps? then tb.rps else tb.bytes }
  function Rate(l: Limits, dim: Dim): real { if dim.Rps? then RpsRate(l) else ByteRate(l) }
  function Burst(l: Limits, dim: Dim): real { if dim.Rps? then RpsBurst(l) else ByteBurst(l) }
  predicate Limited(l: Limits, dim: Dim) { if dim.Rps? then Positive(l.rps) else Positive(l.burst) }

  predicate GoodBucket(tb: TenantBucket, l: Limits, dim: Dim, now: real)
  {
    var b := Which(tb, dim);
    Sane(b, now) && b.rate == Rate(l, dim) && b.burst == Burst(l, dim) && b.last <= tb.lastAccess
  }

  /** Every bucket has the parameters of its tenant's (unchanged) limits. */
  ghost predicate Good(bs: Buckets, limits: map<Tenant, Limits>, now: real)
  {
    forall t :: t in bs ==>
      && t in limits && bs[t].lastAccess <= now
      && GoodBucket(bs[t], limits[t], Rps, now) && GoodBucket(bs[t], limits[t], Volume, now)
  }

  /** Tokens a tenant could draw now; a missing bucket would be created full. */
  function Avail(bs: Buckets, l: Limits, t: Tenant, dim: Dim, now: real): real
  {
    if t in bs then Level(Which(bs[t], dim), now) else Burst(l, dim)
  }

  /** What an event asks of a tenant's bucket. */
  function Cost(e: Event, t: Tenant, dim: Dim): real
  {
    match e
    case Request(u, _) => if u == t && dim.Rps? then 1.0 else 0.0
    case Bytes(u, n, _) => if u == t && dim.Volume? then n as real else 0.0
    case Evict(_) => 0.0
  }

  /** The decision as a function of the limits and the available tokens alone. */
  function Verdict(limits: map<Tenant, Limits>, e: Event, avail: real): Decision
  {
    if e.Evict? then Allowed
    else if e.tenant !in limits then LookupFailed
    else
      var dim := if e.Request? then Rps else Volume;
      if !Limited(limits[e.tenant], dim) then Allowed
      else if Cost(e, e.tenant, dim) <= Burst(limits[e.tenant], dim) && Cost(e, e.tenant, dim) <= avail then Allowed
      else Refused
  }

  lemma FullIsGood(l: Limits, dim: Dim, now: real)
    ensures Sane(Full(Rate(l, dim), Burst(l, dim), now), now)
    ensures Level(Full(Rate(l, dim), Burst(l, dim), now), now) == Burst(l, dim)
  {
    RefillAdd(Rate(l, dim), now, now, now);
  }

  lemma TouchGood(bs: Buckets, limits: map<Tenant, Limits>, t: Tenant, now: real, u: Tenant, dim: Dim)
    requires Good(bs, limits, now) && t in limits && u in limits
    ensures var touched := Touch(bs, t, limits[t], now);
            && Good(touched, limits, now) && t in touched && touched[t].lastAccess == now
            && Avail(touched, limits[u], u, dim, now) == Avail(bs, limits[u], u, dim, now)
  {
    hide Sane, Level, Refill;
    FullIsGood(limits[t], Rps, now);
    FullIsGood(limits[t], Volume, now);
  }

  /** Drawing from one bucket of a touched tenant. */
  lemma DrawGood(bs: Buckets, limits: map<Tenant, Limits>, t: Tenant, now: real, dim: Dim, n: real, u: Tenant, v: Dim)
    requires Good(bs, limits, now) && t in bs && bs[t].lastAccess == now && u in limits && n >= 0.0
    ensures var (ok, b) := TakeTokens(Which(bs[t], dim), now, n);
            var after := bs[t := if dim.Rps? then bs[t].(rps := b) else bs[t].(bytes := b)];
            && Good(after, limits, now)
            && Avail(after, limits[u], u, v, now) ==
               Avail(bs, limits[u], u, v, now) - (if u == t && v == dim && ok then n else 0.0)
            && (ok <==> n <= Burst(limits[t], dim) && n <= Avail(bs, limits[t], t, dim, now))
  {
    hide Sane, Level, Refill;
    assert GoodBucket(bs[t], limits[t], dim, now);
    TakeSane(Which(bs[t], dim), now, n);
  }

  lemma EvictGood(bs: Buckets, limits: map<Tenant, Limits>, now: real, u: Tenant, dim: Dim)
    requires Good(bs, limits, now) && u in limits
    ensures Good(EvictIdle(bs, now), limits, now)
    ensures Avail(EvictIdle(bs, now), limits[u], u, dim, now) == Avail(bs, limits[u], u, dim, now)
  {
    hide Level, Refill;
    if u in bs && u !in EvictIdle(bs, now) {
      assert GoodBucket(bs[u], limits[u], dim, now);
      IdleIsFull(Which(bs[u], dim), now);
    }
  }

  /** One event in terms of available tokens: the verdict depends on nothing else, an allowed
      check draws exactly its cost, and eviction changes nothing. */
  lemma StepAvail(bs: Buckets, limits: map<Tenant, Limits>, e: Event, evicting: bool, u: Tenant, dim: Dim)
    requires Good(bs, limits, e.now) && u in limits && Limited(limits[u], dim)
    ensures var (d, after) := Step(bs, limits, e, evicting);
            && Good(after, limits, e.now)
            && Avail(after, limits[u], u, dim, e.now) ==
               Avail(bs, limits[u], u, dim, e.now) - (if d == Allowed then Cost(e, u, dim) else 0.0)
            && (Cost(e, u, dim) > 0.0 ==> d == Verdict(limits, e, Avail(bs, limits[u], u, dim, e.now)))
  {
    hide Good, Avail, TakeTokens;
    match e
    case Request(t, now) =>
      if t in limits {
        TouchGood(bs, limits, t, now, u, dim);
        TouchGood(bs, limits, t, now, t, Rps);
        DrawGood(Touch(bs, t, limits[t], now), limits, t, now, Rps, 1.0, u, dim);
      }
    case Bytes(t, n, now) =>
      if t in limits {
        TouchGood(bs, limits, t, now, u, dim);
        TouchGood(bs, limits, t, now, t, Volume);
        DrawGood(Touch(bs, t, limits[t], now), limits, t, now, Volume, n as real, u, dim);
      }
    case Evict(now) => EvictGood(bs, limits, now, u, dim);
  }

  /** Every check, exactly, whatever the limits are: a request is refused if and only if the tenant
      has a positive rps limit and less than one token; everybody else who is known is allowed,
      and a tenant without a limit leaves no trace. */
  lemma RequestExactly(bs: Buckets, limits: map<Tenant, Limits>, t: Tenant, now: real, evicting: bool)
    requires Good(bs, limits, now)
    ensures var (d, after) := Step(bs, limits, Request(t, now), evicting);
            && (d == LookupFailed <==> t !in limits)
            && (d == Refused <==>
                  && t in limits && limits[t].rps.Some? && limits[t].rps.value > 0
                  && Avail(bs, limits[t], t, Rps, now) < 1.0)
            && (t in limits && !(limits[t].rps.Some? && limits[t].rps.value > 0) ==> d == Allowed && after == bs)
  {
    if t in limits && Positive(limits[t].rps) {
      hide Good, Avail, TakeTokens;
      DecisionIsVerdict(bs, limits, Request(t, now), evicting, Rps);
    }
  }

  /** Bytes are refused by the burst check if and only if the tenant has a positive burst limit and
      they exceed it or the tokens; with a quota only, or with no limit, they pass. */
  lemma BytesExactly(bs: Buckets, limits: map<Tenant, Limits>, t: Tenant, n: nat, now: real, evicting: bool)
    requires Good(bs, limits, now)
    ensures var (d, after) := Step(bs, limits, Bytes(t, n, now), evicting);
            && (d == LookupFailed <==> t !in limits)
            && (d == Refused <==>
                  && t in limits && limits[t].burst.Some? && limits[t].burst.value > 0
                  && (n > limits[t].burst.value || n as real > Avail(bs, limits[t], t, Volume, now)))
            && (t in limits && limits[t].burst.None? && limits[t].quota.None? ==> d == Allowed && after == bs)
  {
    if t in limits && Positive(limits[t].burst) {
      hide Good, Avail, TakeTokens;
      DecisionIsVerdict(bs, limits, Bytes(t, n, now), evicting, Volume);
    }
  }

  // ----- whole runs -----

  /** Avail grows with time at the tenant's rate, up to the burst. */
  lemma AvailLater(bs: Buckets, limits: map<Tenant, Limits>, t: Tenant, dim: Dim, now: real, later: real)
    requires Good(bs, limits, now) && t in limits && now <= later
    ensures Good(bs, limits, later)
    ensures Avail(bs, limits[t], t, dim, later) ==
            Min(Burst(limits[t], dim), Avail(bs, limits[t], t, dim, now) + Refill(Rate(limits[t], dim), later - now))
    ensures 0.0 <= Avail(bs, limits[t], t, dim, now) <= Burst(limits[t], dim)
  {
    hide Level, Refill;
    if t in bs {
      assert GoodBucket(bs[t], limits[t], dim, now);
      LevelLater(Which(bs[t], dim), now, later);
    } else {
      RefillAdd(Rate(limits[t], dim), now, later, later);
    }
  }

  /** Both limiters offer every tenant the same tokens. */
  ghost predicate SameAvail(a: Buckets, b: Buckets, limits: map<Tenant, Limits>, now: real)
  {
    forall t, dim :: t in limits && Limited(limits[t], dim) ==>
      Avail(a, limits[t], t, dim, now) == Avail(b, limits[t], t, dim, now)
  }

  lemma GoodLater(bs: Buckets, limits: map<Tenant, Limits>, now: real, later: real)
    requires Good(bs, limits, now) && now <= later
    ensures Good(bs, limits, later)
  {
  }

  lemma GoodStep(bs: Buckets, limits: map<Tenant, Limits>, e: Event, evicting: bool)
    requires Good(bs, limits, e.now)
    ensures Good(Step(bs, limits, e, evicting).1, limits, e.now)
  {
    hide Good, TakeTokens;
    match e
    case Request(t, now) =>
      if t in limits {
        TouchGood(bs, limits, t, now, t, Rps);
        DrawGood(Touch(bs, t, limits[t], now), limits, t, now, Rps, 1.0, t, Rps);
      }
    case Bytes(t, n, now) =>
      if t in limits {
        TouchGood(bs, limits, t, now, t, Volume);
        DrawGood(Touch(bs, t, limits[t], now), limits, t, now, Volume, n as real, t, Volume);
      }
    case Evict(now) => EvictOnlyGood(bs, limits, now);
  }

  lemma EvictOnlyGood(bs: Buckets, limits: map<Tenant, Limits>, now: real)
    requires Good(bs, limits, now)
    ensures Good(EvictIdle(bs, now), limits, now)
  {
  }

  /** The decision on any event depends only on the available tokens. */
  lemma SameDecision(a: Buckets, b: Buckets, limits: map<Tenant, Limits>, e: Event)
    requires Good(a, limits, e.now) && Good(b, limits, e.now) && SameAvail(a, b, limits, e.now)
    ensures Step(a, limits, e, true).0 == Step(b, limits, e, false).0
  {
    hide Good, Avail, TakeTokens, Touch;
    if !e.Evict? && e.tenant in limits {
      var dim := if e.Request? then Rps else Volume;
      if Limited(limits[e.tenant], dim) {
        DecisionIsVerdict(a, limits, e, true, dim);
        DecisionIsVerdict(b, limits, e, false, dim);
      }
    }
  }

  lemma DecisionIsVerdict(bs: Buckets, limits: map<Tenant, Limits>, e: Event, evicting: bool, dim: Dim)
    requires Good(bs, limits, e.now) && !e.Evict? && e.tenant in limits
    requires dim == (if e.Request? then Rps else Volume) && Limited(limits[e.tenant], dim)
    ensures Step(bs, limits, e, evicting).0 ==
            Verdict(limits, e, Avail(bs, limits[e.tenant], e.tenant, dim, e.now))
  {
    hide Good, Avail, TakeTokens;
    var t, now := e.tenant, e.now;
    TouchGood(bs, limits, t, now, t, dim);
    DrawGood(Touch(bs, t, limits[t], now), limits, t, now, dim, Cost(e, t, dim), t, dim);
  }

  lemma SameAvailStep(a: Buckets, b: Buckets, limits: map<Tenant, Limits>, e: Event)
    requires Good(a, limits, e.now) && Good(b, limits, e.now) && SameAvail(a, b, limits, e.now)
    ensures SameAvail(Step(a, limits, e, true).1, Step(b, limits, e, false).1, limits, e.now)
  {
    hide Good, Avail, Step;
    SameDecision(a, b, limits, e);
    forall t, dim | t in limits && Limited(limits[t], dim)
      ensures Avail(Step(a, limits, e, true).1, limits[t], t, dim, e.now) ==
              Avail(Step(b, limits, e, false).1, limits[t], t, dim, e.now)
    {
      StepAvail(a, limits, e, true, t, dim);
      StepAvail(b, limits, e, false, t, dim);
    }
  }

  lemma SameAvailLater(a: Buckets, b: Buckets, limits: map<Tenant, Limits>, now: real, later: real)
    requires Good(a, limits, now) && Good(b, limits, now) && SameAvail(a, b, limits, now) && now <= later
    ensures SameAvail(a, b, limits, later)
  {
    hide Good, Avail, Limited;
    forall t, dim | t in limits && Limited(limits[t], dim)
      ensures Avail(a, limits[t], t, dim, later) == Avail(b, limits[t], t, dim, later)
    {
      AvailLater(a, limits, t, dim, now, later);
      AvailLater(b, limits, t, dim, now, later);
    }
  }

  /** Eviction is invisible: while limits are unchanged, a limiter that forgets idle buckets
      decides every check exactly like one that never forgets. */
  lemma {:induction false} EvictionInvisible(
    a: Buckets, b: Buckets, limits: map<Tenant, Limits>, es: seq<Event>, now: real)
    requires Good(a, limits, now) && Good(b, limits, now) && SameAvail(a, b, limits, now) && Ordered(es, now)
    ensures Decisions(a, limits, es, true) == Decisions(b, limits, es, false)
    decreases |es|
  {
    if es != [] {
      var e := es[0];
      hide Good, Avail, Step;
      GoodLater(a, limits, now, e.now);
      GoodLater(b, limits, now, e.now);
      SameAvailLater(a, b, limits, now, e.now);
      hide SameAvail;
      SameDecision(a, b, limits, e);
      SameAvailStep(a, b, limits, e);
      GoodStep(a, limits, e, true);
      GoodStep(b, limits, e, false);
      EvictionInvisible(Step(a, limits, e, true).1, Step(b, limits, e, false).1, limits, es[1..], e.now);
    }
  }

  lemma EvictionInvisibleFromStart(limits: map<Tenant, Limits>, es: seq<Event>, now: real)
    requires Ordered(es, now)
    ensures Decisions(map[], limits, es, true) == Decisions(map[], limits, es, false)
  {
    EvictionInvisible(map[], map[], limits, es, now);
  }

  /** What a tenant was allowed in total. */
  function Admitted(es: seq<Event>, ds: seq<Decision>, t: Tenant, dim: Dim): real
    requires |es| == |ds|
  {
    if es == [] then 0.0
    else (if ds[0] == Allowed then Cost(es[0], t, dim) else 0.0) + Admitted(es[1..], ds[1..], t, dim)
  }

  function EndTime(es: seq<Event>, now: real): real { if es == [] then now else EndTime(es[1..], es[0].now) }

  lemma {:induction false} EndAfter(es: seq<Event>, now: real)
    requires Ordered(es, now)
    ensures now <= EndTime(es, now)
  {
    if es != [] {
      EndAfter(es[1..], es[0].now);
    }
  }

  /** From any state the limiter can be in, over any stretch of events: what a tenant is allowed
      is at most the tokens it had plus what the rate provided meanwhile, evictions included. */
  lemma {:induction false} WindowBound(
    bs: Buckets, limits: map<Tenant, Limits>, es: seq<Event>, now: real, evicting: bool, t: Tenant, dim: Dim)
    requires Good(bs, limits, now) && Ordered(es, now) && t in limits && Limited(limits[t], dim)
    ensures Admitted(es, Decisions(bs, limits, es, evicting), t, dim) <=
            Avail(bs, limits[t], t, dim, now) + Refill(Rate(limits[t], dim), EndTime(es, now) - now)
    decreases |es|
  {
    if es == [] {
      hide Good, Avail, Rate, Burst, Refill;
      AvailLater(bs, limits, t, dim, now, now);
      RefillAdd(Rate(limits[t], dim), now, now, now);
    } else {
      var e := es[0];
      hide *;
      WindowStep(bs, limits, es, now, evicting, t, dim);
      WindowBound(Step(bs, limits, e, evicting).1, limits, es[1..], e.now, evicting, t, dim);
      RefillAdd(Rate(limits[t], dim), now, e.now, EndTime(es, now));
    }
  }

  /** One event of a window. */
  lemma WindowStep(
    bs: Buckets, limits: map<Tenant, Limits>, es: seq<Event>, now: real, evicting: bool, t: Tenant, dim: Dim)
    requires Good(bs, limits, now) && Ordered(es, now) && t in limits && Limited(limits[t], dim) && es != []
    ensures var e := es[0];
            var (d, next) := Step(bs, limits, e, evicting);
            var paid := if d == Allowed then Cost(e, t, dim) else 0.0;
            && Good(next, limits, e.now) && Ordered(es[1..], e.now) && EndTime(es, now) == EndTime(es[1..], e.now)
            && Admitted(es, Decisions(bs, limits, es, evicting), t, dim) ==
               paid + Admitted(es[1..], Decisions(next, limits, es[1..], evicting), t, dim)
            && Avail(next, limits[t], t, dim, e.now) + paid <=
               Avail(bs, limits[t], t, dim, now) + Refill(Rate(limits[t], dim), e.now - now)
  {
    hide Good, Avail, Step, Rate, Cost, Burst, Limited, Refill;
    var e := es[0];
    AvailLater(bs, limits, t, dim, now, e.now);
    StepAvail(bs, limits, e, evicting, t, dim);
    var next := Step(bs, limits, e, evicting).1;
    assert Decisions(bs, limits, es, evicting)[1..] == Decisions(next, limits, es[1..], evicting);
  }

  lemma OneSecondMore(amount: real, span: real)
    ensures amount * (1.0 + span) == amount + Refill(amount, span)
  {
  }

  /** The rate bound for one of the two buckets. */
  lemma RateBoundOf(
    bs: Buckets, limits: map<Tenant, Limits>, es: seq<Event>, now: real, evicting: bool, t: Tenant, dim: Dim)
    requires Good(bs, limits, now) && Ordered(es, now) && t in limits && Limited(limits[t], dim)
    ensures Rate(limits[t], dim) == Burst(limits[t], dim)
    ensures Admitted(es, Decisions(bs, limits, es, evicting), t, dim) <=
            Rate(limits[t], dim) * (1.0 + (EndTime(es, now) - now))
  {
    hide Good, Avail, Decisions, Admitted, EndTime, Refill;
    WindowBound(bs, limits, es, now, evicting, t, dim);
    AvailLater(bs, limits, t, dim, now, now);
    OneSecondMore(Rate(limits[t], dim), EndTime(es, now) - now);
  }

  /** The rate bound over a window of `T` seconds: at most `rps * (1 + T)` requests, and at most
      `burst * (1 + T)` bytes. */
  lemma RateBound(bs: Buckets, limits: map<Tenant, Limits>, es: seq<Event>, now: real, evicting: bool, t: Tenant)
    requires Good(bs, limits, now) && Ordered(es, now) && t in limits
    ensures var window := 1.0 + (EndTime(es, now) - now);
            var ds := Decisions(bs, limits, es, evicting);
            && (Positive(limits[t].rps) ==> Admitted(es, ds, t, Rps) <= limits[t].rps.value as real * window)
            && (Positive(limits[t].burst) ==> Admitted(es, ds, t, Volume) <= limits[t].burst.value as real * window)
  {
    hide Good, Decisions, Admitted, EndTime;
    if Positive(limits[t].rps) { RateBoundOf(bs, limits, es, now, evicting, t, Rps); }
    if Positive(limits[t].burst) { RateBoundOf(bs, limits, es, now, evicting, t, Volume); }
  }

  /** The limiter is in such a state after any ordered run. */
  lemma {:induction false} GoodAlways(
    bs: Buckets, limits: map<Tenant, Limits>, es: seq<Event>, now: real, evicting: bool)
    requires Good(bs, limits, now) && Ordered(es, now)
    ensures Good(After(bs, limits, es, evicting), limits, EndTime(es, now))
    decreases |es|
  {
    if es != [] {
      hide Good, Step;
      GoodLater(bs, limits, now, es[0].now);
      GoodStep(bs, limits, es[0], evicting);
      GoodAlways(Step(bs, limits, es[0], evicting).1, limits, es[1..], es[0].now, evicting);
    }
  }

  function After(bs: Buckets, limits: map<Tenant, Limits>, es: seq<Event>, evicting: bool): Buckets
    decreases |es|
  {
    if es == [] then bs else After(Step(bs, limits, es[0], evicting).1, limits, es[1..], evicting)
  }

  /** Why the limits must be unchanged: a live bucket keeps the parameters it was created with, so
      every check gives the same decision under any other positive limit, whereas a bucket
      created after an eviction takes the new one. */
  lemma LiveBucketIgnoresNewLimits(
    bs: Buckets, limits: map<Tenant, Limits>, other: map<Tenant, Limits>, t: Tenant, n: nat, now: real)
    requires t in bs && t in limits && t in other
    requires Positive(limits[t].rps) && Positive(other[t].rps) && Positive(limits[t].burst) && Positive(other[t].burst)
    ensures AllowRps(bs, limits, t, now) == AllowRps(bs, other, t, now)
    ensures AllowBurst(bs, limits, t, n, now) == AllowBurst(bs, other, t, n, now)
    ensures Touch(bs - {t}, t, other[t], now)[t].rps.burst == other[t].rps.value as real
  {
    hide TakeTokens;
  }

  // ----- what the tokens amount to -----

  /** The limit in force for a limited tenant. */
  function LimitOf(l: Limits, dim: Dim): int
    requires Limited(l, dim)
  {
    if dim.Rps? then l.rps.value else l.burst.value
  }

  /** A new tenant has its whole limit, and what is drawn comes back at the limit per second, up to
      the limit. */
  lemma TokensOverTime(bs: Buckets, limits: map<Tenant, Limits>, t: Tenant, dim: Dim, now: real, later: real)
    requires Good(bs, limits, now) && t in limits && Limited(limits[t], dim) && now <= later
    ensures var limit := LimitOf(limits[t], dim) as real;
            && (t !in bs ==> Avail(bs, limits[t], t, dim, now) == limit)
            && Avail(bs, limits[t], t, dim, later) ==
               var more := Avail(bs, limits[t], t, dim, now) + limit * (later - now);
               if more <= limit then more else limit
  {
    AvailLater(bs, limits, t, dim, now, later);
    hide Good, Level;
  }

  lemma FirstBurst(bs: Buckets, limits: map<Tenant, Limits>, t: Tenant, n: nat, now: real)
    requires Good(bs, limits, now) && t in limits && t !in bs && Positive(limits[t].burst)
    ensures var (d, after) := AllowBurst(bs, limits, t, n, now);
            && (d == Allowed <==> n <= limits[t].burst.value)
            && Good(after, limits, now)
            && (d == Allowed ==> Avail(after, limits[t], t, Volume, now) == (limits[t].burst.value - n) as real)
  {
    var e := Bytes(t, n, now);
    assert Step(bs, limits, e, false) == AllowBurst(bs, limits, t, n, now);
    BytesExactly(bs, limits, t, n, now, false);
    StepAvail(bs, limits, e, false, t, Volume);
    TokensOverTime(bs, limits, t, Volume, now, now);
    hide Good, Avail, AllowBurst, Step;
  }

  lemma LaterBurst(bs: Buckets, limits: map<Tenant, Limits>, t: Tenant, m: nat, now: real, later: real)
    requires Good(bs, limits, now) && t in limits && Positive(limits[t].burst) && now <= later
    ensures AllowBurst(bs, limits, t, m, later).0 == Allowed <==>
            && m <= limits[t].burst.value
            && m as real <= Avail(bs, limits[t], t, Volume, now) + limits[t].burst.value as real * (later - now)
  {
    assert Step(bs, limits, Bytes(t, m, later), false) == AllowBurst(bs, limits, t, m, later);
    GoodLater(bs, limits, now, later);
    TokensOverTime(bs, limits, t, Volume, now, later);
    BytesExactly(bs, limits, t, m, later, false);
    hide Good, Avail, AllowBurst, Step;
  }

  /** A new tenant may send exactly its burst limit at once; and after sending `n` bytes, later what
      is left and has come back. */
  lemma FreshBurst(bs: Buckets, limits: map<Tenant, Limits>, t: Tenant, n: nat, now: real, m: nat, later: real)
    requires Good(bs, limits, now) && t in limits && t !in bs && Positive(limits[t].burst) && now <= later
    ensures var burst := limits[t].burst.value;
            && (AllowBurst(bs, limits, t, n, now).0 == Allowed <==> n <= burst)
            && (n <= burst ==>
                  (AllowBurst(AllowBurst(bs, limits, t, n, now).1, limits, t, m, later).0 == Allowed <==>
                     m <= burst && m as real <= (burst - n) as real + burst as real * (later - now)))
  {
    hide Good, Avail, AllowBurst;
    FirstBurst(bs, limits, t, n, now);
    LaterBurst(AllowBurst(bs, limits, t, n, now).1, limits, t, m, now, later);
  }

  function Requests(t: Tenant, now: real, n: nat): (es: seq<Event>)
    ensures |es| == n
  {
    if n == 0 then [] else [Request(t, now)] + Requests(t, now, n - 1)
  }

  /** Of any number of requests in one instant, exactly as many pass as there are tokens. */
  lemma {:induction false} RequestsAtOnce(
    bs: Buckets, limits: map<Tenant, Limits>, t: Tenant, now: real, n: nat, tokens: nat, evicting: bool, i: nat)
    requires Good(bs, limits, now) && t in limits && Positive(limits[t].rps) && i < n
    requires Avail(bs, limits[t], t, Rps, now) == tokens as real
    ensures Decisions(bs, limits, Requests(t, now, n), evicting)[i] == if i < tokens then Allowed else Refused
    decreases n
  {
    var e := Request(t, now);
    RequestExactly(bs, limits, t, now, evicting);
    StepAvail(bs, limits, e, evicting, t, Rps);
    var (d, next) := Step(bs, limits, e, evicting);
    assert Requests(t, now, n)[1..] == Requests(t, now, n - 1);
    hide Good, Avail, Step;
    if i > 0 {
      RequestsAtOnce(next, limits, t, now, n - 1, if tokens == 0 then 0 else tokens - 1, evicting, i - 1);
    }
  }

  /** A new tenant's first requests in one instant: exactly its rps limit passes. */
  lemma FreshRequests(
    bs: Buckets, limits: map<Tenant, Limits>, t: Tenant, now: real, n: nat, evicting: bool, i: nat)
    requires Good(bs, limits, now) && t in limits && t !in bs && Positive(limits[t].rps) && i < n
    ensures Decisions(bs, limits, Requests(t, now, n), evicting)[i] ==
            if i < limits[t].rps.value then Allowed else Refused
  {
    TokensOverTime(bs, limits, t, Rps, now, now);
    RequestsAtOnce(bs, limits, t, now, n, limits[t].rps.value, evicting, i);
  }

  /** A bucket that is created while a limit is missing gets the defaults: 100 requests a second with
      a burst of 200, and ten million bytes. */
  lemma DefaultBuckets(bs: Buckets, t: Tenant, l: Limits, now: real)
    requires t !in bs
    ensures var b := Touch(bs, t, l, now)[t];
            && b.lastAccess == now && b.rps.tokens == b.rps.burst && b.bytes.tokens == b.bytes.burst
            && (!(l.rps.Some? && l.rps.value > 0) ==> b.rps.rate == 100.0 && b.rps.burst == 200.0)
            && (l.rps.Some? && l.rps.value > 0 ==> b.rps.rate == b.rps.burst == l.rps.value as real)
            && (!(l.burst.Some? && l.burst.value > 0) ==> b.bytes.rate == b.bytes.burst == 10_000_000.0)
            && (l.burst.Some? && l.burst.value > 0 ==> b.bytes.rate == b.bytes.burst == l.burst.value as real)
  {
  }

  /** A bucket survives an eviction if and only if its tenant was checked within the last hour. */
  lemma EvictedAfterAnHour(bs: Buckets, limits: map<Tenant, Limits>, t: Tenant, n: nat, checked: real, now: real)
    requires t in limits
    ensures Positive(limits[t].rps) ==>
            (t in EvictIdle(AllowRps(bs, limits, t, checked).1, now) <==> now - checked <= 3600.0)
    ensures limits[t].burst.Some? || limits[t].quota.Some? ==>
            (t in EvictIdle(AllowBurst(bs, limits, t, n, checked).1, now) <==> now - checked <= 3600.0)
    ensures forall u :: u in EvictIdle(bs, now) ==> u in bs && EvictIdle(bs, now)[u] == bs[u]
  {
    hide TakeTokens;
  }
}
