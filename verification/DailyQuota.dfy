/** The daily byte quota of internal/ratelimit together with the usage pipeline it reads: many
    concurrent `AllowBytes` calls of one tenant within one UTC day, a cached total that is up
    to 60 s old, and a table that itself lags behind what has been admitted. */
module DailyQuota {
  import opened ByteStrings
  import U = Usage
  import Q = UsageQueries
  import HB = HourBuckets
  import TB = TokenBuckets
  import L = Limiter

  /** The tenant watched, its quota and optional burst limit, and the day's first bucket. */
  datatype Config = Config(tenant: int, quota: int, burst: Option<nat>, today: Bytes)

  /** One successful usage query: its result, when it ran, the bytes the table did not show then
      (`outstanding`), and how much had been let through the burst limiter, refused by the quota
      and recorded without a check up to that moment. */
  datatype Read = Read(used: int, time: real, outstanding: int, burstTotal: nat, rejected: nat, foreign: nat)

  /** An `AllowBytes` call of `n` bytes, and what becomes of it. `read` says which query its
      `used` came from; none after a failed query, which counts as zero. */
  datatype Check =
    | PastBurst(n: nat)
    | Missed(n: nat)
    | Queried(n: nat, answer: nat)
    | Knows(n: nat, used: int, read: Option<nat>)
    | Admitted(n: nat)
    | Rejected(n: nat)
    | Recorded(n: nat, lost: bool)

  datatype Entry = Entry(used: int, expires: real, read: nat)

  datatype State = State(
    now: real, usage: U.State, bucket: TB.Bucket, cache: Option<Entry>,
    checks: seq<Check>, queries: seq<Read>, burstTotal: nat, rejected: nat, foreign: nat)

  datatype Event =
    | Clock(later: real)
    | Pass(n: nat)
    | Hit(check: nat)
    | Miss(check: nat)
    | Query(check: nat)
    | QueryFails(check: nat)
    | Store(check: nat)
    | Decide(check: nat)
    | RecordAdmitted(check: nat, sample: U.Sample)
    | ClearCache
    | Background(event: U.Event)

  /** Bytes of checks that the usage pipeline has not got: not decided yet, admitted and not yet
      recorded, or recorded and dropped. */
  datatype Part = Undecided | Unrecorded | Lost

  function Weigh(c: Check, part: Part): nat
  {
    match part
    case Undecided => if c.PastBurst? || c.Missed? || c.Queried? || c.Knows? then c.n else 0
    case Unrecorded => if c.Admitted? then c.n else 0
    case Lost => if c.Recorded? && c.lost then c.n else 0
  }

  function SumOf(checks: seq<Check>, part: Part): nat
  {
    if checks == [] then 0 else SumOf(checks[..|checks| - 1], part) + Weigh(checks[|checks| - 1], part)
  }

  function Pending(checks: seq<Check>): nat
  {
    SumOf(checks, Undecided) + SumOf(checks, Unrecorded) + SumOf(checks, Lost)
  }

  /** All bytes of the tenant's day, recorded or in flight: those in the table when the process
      started, every sample accepted since (refused frames included), and those of checks that
      the pipeline has not got. */
  ghost function Everything(s: State, cfg: Config): int
  {
    Q.DailyBytes(s.usage.log.base, cfg.tenant, cfg.today) +
    Q.SampleBytes(s.usage.log.accepted, cfg.tenant, cfg.today) + Pending(s.checks)
  }

  /** Bytes of the tenant's day that the table does not show yet: of checks that the pipeline has
      not got, or still on their way through channel, accumulator and flush. */
  function Outstanding(s: State, cfg: Config): int
    requires U.Queue(s.usage)
  {
    Pending(s.checks) + Q.SampleBytes(s.usage.log.accepted[s.usage.log.committed..], cfg.tenant, cfg.today)
  }

  /** Background activity of the day: anything except deleting the tenant or purging its current
      day. Samples of refused frames and of other tenants are recorded here too. */
  predicate Allowed(cfg: Config, e: U.Event)
  {
    match e
    case DeleteTenant(t) => t != cfg.tenant
    case Purge(threshold) => !HB.Less(cfg.today, threshold)
    case _ => true
  }

  predicate Enabled(s: State, cfg: Config, e: Event)
  {
    match e
    case Clock(later) => s.now <= later
    case Pass(n) => cfg.burst.Some? ==> TB.TakeTokens(s.bucket, s.now, n as real).0
    case Hit(c) => c < |s.checks| && s.checks[c].PastBurst? && s.cache.Some? && s.now < s.cache.value.expires
    case Miss(c) =>
      c < |s.checks| && s.checks[c].PastBurst? && (s.cache.Some? ==> s.cache.value.expires <= s.now)
    case Query(c) => c < |s.checks| && s.checks[c].Missed? && !s.usage.writer.InTx? && U.Queue(s.usage)
    case QueryFails(c) => c < |s.checks| && s.checks[c].Missed?
    case Store(c) => c < |s.checks| && s.checks[c].Queried? && s.checks[c].answer < |s.queries|
    case Decide(c) => c < |s.checks| && s.checks[c].Knows?
    case RecordAdmitted(c, x) =>
      c < |s.checks| && s.checks[c].Admitted? && x.bytes == s.checks[c].n && Q.Selects(x.key, cfg.tenant, cfg.today)
    case ClearCache => true
    case Background(e) => Allowed(cfg, e) && U.Enabled(s.usage, e)
  }

  function Set(s: State, c: nat, x: Check): State
    requires c < |s.checks|
  {
    s.(checks := s.checks[c := x])
  }

  ghost function ReadNow(s: State, cfg: Config): Read
    requires U.Queue(s.usage)
  {
    Read(Q.DailyBytes(s.usage.db.table, cfg.tenant, cfg.today), s.now, Outstanding(s, cfg),
         s.burstTotal, s.rejected, s.foreign)
  }

  /** The quota comparison of `AllowBytes`. */
  function Verdict(c: Check, quota: int): Check
    requires c.Knows?
  {
    if c.used + c.n > quota then Rejected(c.n) else Admitted(c.n)
  }

  /** Bytes an event adds to the tenant's day without a check: samples of refused frames. */
  function Foreign(u: U.State, cfg: Config, e: U.Event): nat
  {
    if e.Record? && |u.ch| < U.BUFFER_SIZE && Q.Selects(e.sample.key, cfg.tenant, cfg.today)
    then e.sample.bytes else 0
  }

  ghost function Apply(s: State, cfg: Config, e: Event): State
    requires Enabled(s, cfg, e)
  {
    match e
    case Clock(later) => s.(now := later)
    case Pass(n) =>
      s.(bucket := TB.TakeTokens(s.bucket, s.now, n as real).1,
         checks := s.checks + [PastBurst(n)], burstTotal := s.burstTotal + n)
    case Hit(c) => Set(s, c, Knows(s.checks[c].n, s.cache.value.used, Some(s.cache.value.read)))
    case Miss(c) => Set(s, c, Missed(s.checks[c].n))
    case Query(c) => Set(s, c, Queried(s.checks[c].n, |s.queries|)).(queries := s.queries + [ReadNow(s, cfg)])
    case QueryFails(c) => Set(s, c, Knows(s.checks[c].n, 0, None))
    case Store(c) =>
      var read := s.checks[c].answer;
      Set(s, c, Knows(s.checks[c].n, s.queries[read].used, Some(read)))
        .(cache := Some(Entry(s.queries[read].used, s.now + L.CACHE_SECONDS, read)))
    case Decide(c) =>
      var verdict := Verdict(s.checks[c], cfg.quota);
      Set(s, c, verdict).(rejected := s.rejected + if verdict.Rejected? then verdict.n else 0)
    case RecordAdmitted(c, x) =>
      Set(s, c, Recorded(s.checks[c].n, |s.usage.ch| >= U.BUFFER_SIZE)).(usage := U.ApplyRecord(s.usage, x))
    case ClearCache => s.(cache := None)
    case Background(e) => s.(usage := U.Apply(s.usage, e), foreign := s.foreign + Foreign(s.usage, cfg, e))
  }

  // ----- invariants -----

  /** The table shows exactly the committed samples of the tenant's day. */
  ghost predicate DayIntact(s: State, cfg: Config)
  {
    U.Inv(s.usage) && forall k :: Q.Selects(k, cfg.tenant, cfg.today) ==> U.Of(s.usage.db.purged, k, U.Volume) == 0
  }

  /** What has become of the bytes since a query, exactly. */
  ghost predicate Counted(s: State, cfg: Config, r: Read)
  {
    && r.burstTotal <= s.burstTotal && r.rejected <= s.rejected && r.foreign <= s.foreign
    && Everything(s, cfg) == r.used + r.outstanding + Since(s, r)
  }

  /** What the burst limiter has let through since a query, and what it still could, is within its
      burst and what its rate has provided. */
  predicate Paced(s: State, cfg: Config, r: Read)
  {
    cfg.burst.Some? ==>
      (s.burstTotal - r.burstTotal) as real + TB.Level(s.bucket, s.now) <=
      cfg.burst.value as real + TB.Refill(cfg.burst.value as real, s.now - r.time)
  }

  ghost predicate ReadOk(s: State, cfg: Config, r: Read)
  {
    r.time <= s.now && Counted(s, cfg, r) && Paced(s, cfg, r)
  }

  /** Bytes let through the burst limiter or recorded without a check since a query, less those
      the quota refused. */
  function Since(s: State, r: Read): int
  {
    s.burstTotal - r.burstTotal + (s.foreign - r.foreign) - (s.rejected - r.rejected)
  }

  ghost predicate ReadsOk(s: State, cfg: Config) { forall i :: 0 <= i < |s.queries| ==> ReadOk(s, cfg, s.queries[i]) }

  predicate Traces(queries: seq<Read>, used: int, read: nat) { read < |queries| && used == queries[read].used }

  /** Every total in use came from the query it names. */
  predicate Traced(s: State)
  {
    && (s.cache.Some? ==> Traces(s.queries, s.cache.value.used, s.cache.value.read))
    && (forall c :: 0 <= c < |s.checks| ==>
          && (s.checks[c].Queried? ==> s.checks[c].answer < |s.queries|)
          && (s.checks[c].Knows? && s.checks[c].read.Some? ==>
                Traces(s.queries, s.checks[c].used, s.checks[c].read.value)))
  }

  predicate BucketOk(s: State, cfg: Config)
  {
    cfg.burst.Some? ==>
      && TB.Sane(s.bucket, s.now)
      && s.bucket.rate == cfg.burst.value as real && s.bucket.burst == cfg.burst.value as real
  }

  ghost predicate Inv(s: State, cfg: Config)
  {
    DayIntact(s, cfg) && ReadsOk(s, cfg) && Traced(s) && BucketOk(s, cfg)
  }

  lemma {:induction false} SumSet(checks: seq<Check>, c: nat, x: Check, part: Part)
    requires c < |checks|
    ensures SumOf(checks[c := x], part) == SumOf(checks, part) - Weigh(checks[c], part) + Weigh(x, part)
  {
    var last := |checks| - 1;
    if c == last {
      assert checks[c := x][..last] == checks[..last];
    } else {
      assert checks[c := x][..last] == checks[..last][c := x];
      SumSet(checks[..last], c, x, part);
    }
  }

  lemma SumAppend(checks: seq<Check>, x: Check, part: Part)
    ensures SumOf(checks + [x], part) == SumOf(checks, part) + Weigh(x, part)
  {
    assert (checks + [x])[..|checks|] == checks;
  }

  /** Replacing a check, for all sums at once. */
  lemma SumSetAll(checks: seq<Check>, c: nat, x: Check)
    requires c < |checks|
    ensures forall part :: SumOf(checks[c := x], part) == SumOf(checks, part) - Weigh(checks[c], part) + Weigh(x, part)
  {
    forall part ensures SumOf(checks[c := x], part) == SumOf(checks, part) - Weigh(checks[c], part) + Weigh(x, part) {
      SumSet(checks, c, x, part);
    }
  }

  lemma SumAppendAll(checks: seq<Check>, x: Check)
    ensures forall part :: SumOf(checks + [x], part) == SumOf(checks, part) + Weigh(x, part)
  {
    forall part ensures SumOf(checks + [x], part) == SumOf(checks, part) + Weigh(x, part) {
      SumAppend(checks, x, part);
    }
  }

  /** The daily total is what the process found and the bytes of the committed samples. */
  lemma DailyIsCommitted(s: State, cfg: Config)
    requires DayIntact(s, cfg)
    ensures Q.DailyBytes(s.usage.db.table, cfg.tenant, cfg.today) ==
            Q.DailyBytes(s.usage.log.base, cfg.tenant, cfg.today) +
            Q.SampleBytes(s.usage.log.accepted[..s.usage.log.committed], cfg.tenant, cfg.today)
  {
    var samples := s.usage.log.accepted[..s.usage.log.committed];
    hide Q.Selects, U.Of, U.Total, Q.SampleBytes;
    forall k | Q.Selects(k, cfg.tenant, cfg.today)
      ensures U.Of(s.usage.db.table, k, U.Volume) ==
              U.Of(s.usage.log.base, k, U.Volume) + U.Total(samples, k, U.Volume)
    {
      assert U.Balanced(s.usage, k, U.Volume);
    }
    Q.DailyFromTotals(s.usage.db.table, s.usage.log.base, samples, cfg.tenant, cfg.today);
  }

  /** At the moment of a query, every byte recorded or in flight is either in the answer or
      outstanding. */
  lemma ReadAccounts(s: State, cfg: Config)
    requires DayIntact(s, cfg)
    ensures U.Queue(s.usage)
    ensures ReadNow(s, cfg).used + ReadNow(s, cfg).outstanding == Everything(s, cfg)
  {
    DailyIsCommitted(s, cfg);
    var log := s.usage.log;
    hide Pending, Q.SampleBytes, Q.DailyBytes, U.WriterOk, U.RequestsOk, U.Balanced;
    Q.SampleBytesConcat(log.accepted[..log.committed], log.accepted[log.committed..], cfg.tenant, cfg.today);
    assert log.accepted == log.accepted[..log.committed] + log.accepted[log.committed..];
  }

  // ----- steps -----

  lemma DayStep(s: State, cfg: Config, e: U.Event)
    requires DayIntact(s, cfg) && Allowed(cfg, e) && U.Enabled(s.usage, e)
    ensures DayIntact(s.(usage := U.Apply(s.usage, e)), cfg)
  {
    U.Step(s.usage, e);
    hide U.Inv;
    forall k | Q.Selects(k, cfg.tenant, cfg.today)
      ensures U.Of(U.Apply(s.usage, e).db.purged, k, U.Volume) == U.Of(s.usage.db.purged, k, U.Volume)
    {
      PurgedSame(s.usage, cfg, e, k);
    }
  }

  lemma PurgedSame(u: U.State, cfg: Config, e: U.Event, k: U.Key)
    requires Allowed(cfg, e) && U.Enabled(u, e) && Q.Selects(k, cfg.tenant, cfg.today)
    ensures U.Of(U.Apply(u, e).db.purged, k, U.Volume) == U.Of(u.db.purged, k, U.Volume)
  {
    hide U.Merge, U.Of, HB.Less;
    match e
    case Purge(threshold) =>
      HB.LessOrder(k.hour, cfg.today, threshold);
      HB.LessOrder(cfg.today, threshold, k.hour);
      HB.LessOrder(k.hour, threshold, cfg.today);
      NotDiscarded(u.db, U.OlderThan(u.db.table, threshold), k);
    case DeleteTenant(t) => NotDiscarded(u.db, U.RowsOf(u.db.table, t), k);
    case _ =>
  }

  lemma NotDiscarded(d: U.Db, gone: set<U.Key>, k: U.Key)
    requires k !in gone
    ensures U.Of(U.Discard(d, gone).purged, k, U.Volume) == U.Of(d.purged, k, U.Volume)
  {
    hide U.Merge;
    U.MergeOf(d.purged, d.table - (d.table.Keys - gone), k, U.Volume);
  }

  /** The pipeline's part in the count: a sample is accepted while there is room. */
  lemma AcceptedStep(u: U.State, e: U.Event)
    requires U.Enabled(u, e)
    ensures U.Apply(u, e).log.base == u.log.base
    ensures U.Apply(u, e).log.accepted ==
            if e.Record? && |u.ch| < U.BUFFER_SIZE then u.log.accepted + [e.sample] else u.log.accepted
  {
    U.BaseStep(u, e);
    hide U.Accumulate, U.ApplyDb, U.ApplyTx, U.StartFlush, U.BUFFER_SIZE;
    match e
    case Tick => U.FlushFrame(u, U.OnTick);
    case DrainDone => U.FlushFrame(u, u.writer.cause);
    case BeginTx => U.TxFrame(u, e);
    case Row(_) => U.TxFrame(u, e);
    case Commit => U.TxFrame(u, e);
    case Fault => U.TxFrame(u, e);
    case _ =>
  }

  lemma SampleBytesAppend(samples: seq<U.Sample>, x: U.Sample, cfg: Config)
    ensures Q.SampleBytes(samples + [x], cfg.tenant, cfg.today) ==
            Q.SampleBytes(samples, cfg.tenant, cfg.today) +
            if Q.Selects(x.key, cfg.tenant, cfg.today) then x.bytes else 0
  {
    assert (samples + [x])[..|samples|] == samples;
  }

  /** The pipeline's bytes after an event. */
  lemma PipelineStep(u: U.State, cfg: Config, e: U.Event)
    requires U.Enabled(u, e)
    ensures U.Apply(u, e).log.base == u.log.base
    ensures Q.SampleBytes(U.Apply(u, e).log.accepted, cfg.tenant, cfg.today) ==
            Q.SampleBytes(u.log.accepted, cfg.tenant, cfg.today) + Foreign(u, cfg, e)
  {
    AcceptedStep(u, e);
    hide U.Apply, U.Enabled, Q.Selects, Q.SampleBytes, U.BUFFER_SIZE;
    if e.Record? { SampleBytesAppend(u.log.accepted, e.sample, cfg); }
  }

  /** Replacing a check by one of the same weight, or of another. */
  lemma PendingSet(checks: seq<Check>, c: nat, x: Check)
    requires c < |checks|
    ensures Pending(checks[c := x]) == Pending(checks) - Whole(checks[c]) + Whole(x)
  {
    hide SumOf;
    SumSetAll(checks, c, x);
  }

  lemma PendingAppend(checks: seq<Check>, x: Check)
    ensures Pending(checks + [x]) == Pending(checks) + Whole(x)
  {
    hide SumOf;
    SumAppendAll(checks, x);
  }

  /** What one check adds to `Pending`. */
  function Whole(c: Check): nat
  {
    match c
    case Rejected(_) => 0
    case Recorded(n, lost) => if lost then n else 0
    case _ => c.n
  }

  /** What an event that replaces one check changes. */
  lemma CheckStep(s: State, cfg: Config, e: Event)
    requires Enabled(s, cfg, e) && !e.Clock? && !e.Pass? && !e.ClearCache? && !e.Background? && !e.RecordAdmitted?
    ensures var t := Apply(s, cfg, e);
            && t.usage == s.usage && t.burstTotal == s.burstTotal && t.foreign == s.foreign
            && t.rejected >= s.rejected && Pending(t.checks) == Pending(s.checks) - (t.rejected - s.rejected)
  {
    hide Pending, ReadNow, U.Queue;
    PendingSet(s.checks, e.check, Apply(s, cfg, e).checks[e.check]);
  }

  lemma RecordStep(s: State, cfg: Config, c: nat, x: U.Sample)
    requires Enabled(s, cfg, RecordAdmitted(c, x))
    ensures var t := Apply(s, cfg, RecordAdmitted(c, x));
            && t.burstTotal == s.burstTotal && t.foreign == s.foreign && t.rejected == s.rejected
            && Everything(t, cfg) == Everything(s, cfg)
  {
    var t := Apply(s, cfg, RecordAdmitted(c, x));
    PendingSet(s.checks, c, t.checks[c]);
    SampleBytesAppend(s.usage.log.accepted, x, cfg);
    hide Pending, Q.SampleBytes, Q.DailyBytes, Q.Selects, U.BUFFER_SIZE;
  }

  /** One event, exactly: what passes the burst limiter or is recorded without a check comes in,
      what the quota refuses goes out, and nothing else changes the count. */
  lemma EverythingStep(s: State, cfg: Config, e: Event)
    requires Enabled(s, cfg, e)
    ensures var t := Apply(s, cfg, e);
            && s.burstTotal <= t.burstTotal && s.foreign <= t.foreign && s.rejected <= t.rejected
            && Everything(t, cfg) == Everything(s, cfg) + (t.burstTotal - s.burstTotal) +
                                     (t.foreign - s.foreign) - (t.rejected - s.rejected)
  {
    match e
    case Clock(_) =>
    case ClearCache =>
    case Pass(n) =>
      hide Pending, Q.SampleBytes, Q.DailyBytes, TB.TakeTokens;
      PendingAppend(s.checks, PastBurst(n));
    case Background(be) =>
      hide U.Apply, U.Enabled, Pending, Q.SampleBytes, Q.DailyBytes, Foreign;
      PipelineStep(s.usage, cfg, be);
    case RecordAdmitted(c, x) => RecordStep(s, cfg, c, x);
    case _ =>
      CheckStep(s, cfg, e);
      hide Apply, Enabled, Pending, Q.SampleBytes, Q.DailyBytes;
  }

  /** The burst limiter pays for what it lets through with tokens. */
  lemma BurstStep(s: State, cfg: Config, e: Event, since: real)
    requires Enabled(s, cfg, e) && BucketOk(s, cfg) && cfg.burst.Some? && since <= s.now
    ensures BucketOk(Apply(s, cfg, e), cfg)
    ensures var t := Apply(s, cfg, e);
            var rate := cfg.burst.value as real;
            (t.burstTotal - s.burstTotal) as real + TB.Level(t.bucket, t.now) - TB.Level(s.bucket, s.now) <=
            TB.Refill(rate, t.now - since) - TB.Refill(rate, s.now - since)
  {
    hide U.Apply, U.Enabled, TB.TakeTokens, ReadNow, U.Queue, Q.Selects, TB.Level, TB.Refill;
    match e
    case Clock(later) =>
      TB.LevelLater(s.bucket, s.now, later);
      TB.RefillAdd(s.bucket.rate, since, s.now, later);
    case Pass(n) =>
      TB.TakeSane(s.bucket, s.now, n as real);
      TakeKeeps(s.bucket, s.now, n as real);
    case _ =>
  }

  lemma TakeKeeps(b: TB.Bucket, now: real, n: real)
    ensures var c := TB.TakeTokens(b, now, n).1; c.rate == b.rate && c.burst == b.burst
  {
  }

  lemma TimeStep(s: State, cfg: Config, e: Event)
    requires Enabled(s, cfg, e)
    ensures s.now <= Apply(s, cfg, e).now
  {
    hide U.Apply, U.Enabled, TB.TakeTokens, ReadNow, U.Queue, Q.Selects;
  }

  lemma CountedStep(s: State, cfg: Config, e: Event, r: Read)
    requires Enabled(s, cfg, e) && Counted(s, cfg, r)
    ensures Counted(Apply(s, cfg, e), cfg, r)
  {
    hide Apply, Enabled, Everything;
    EverythingStep(s, cfg, e);
  }

  lemma PacedStep(s: State, cfg: Config, e: Event, r: Read)
    requires Enabled(s, cfg, e) && BucketOk(s, cfg) && r.time <= s.now && Paced(s, cfg, r)
    ensures Paced(Apply(s, cfg, e), cfg, r)
  {
    hide Apply, Enabled, BucketOk, TB.Level, TB.Refill;
    if cfg.burst.Some? { BurstStep(s, cfg, e, r.time); }
  }

  lemma ReadStep(s: State, cfg: Config, e: Event, r: Read)
    requires Enabled(s, cfg, e) && BucketOk(s, cfg) && ReadOk(s, cfg, r)
    ensures ReadOk(Apply(s, cfg, e), cfg, r)
  {
    hide Apply, Enabled, Counted, Paced, BucketOk;
    TimeStep(s, cfg, e);
    CountedStep(s, cfg, e, r);
    PacedStep(s, cfg, e, r);
  }

  /** A fresh query satisfies the equation. */
  lemma FreshRead(s: State, cfg: Config, c: nat)
    requires Enabled(s, cfg, Query(c)) && DayIntact(s, cfg) && BucketOk(s, cfg)
    ensures ReadOk(Apply(s, cfg, Query(c)), cfg, ReadNow(s, cfg))
  {
    EverythingStep(s, cfg, Query(c));
    ReadAccounts(s, cfg);
    if cfg.burst.Some? {
      TB.LevelLater(s.bucket, s.now, s.now);
      TB.RefillAdd(s.bucket.rate, s.now, s.now, s.now);
    }
    hide DayIntact, U.Queue, TB.Refill, TB.Level, Everything, Outstanding, Q.DailyBytes, TB.Sane;
  }

  lemma QueriesStep(s: State, cfg: Config, e: Event)
    requires Enabled(s, cfg, e)
    ensures Apply(s, cfg, e).queries == if e.Query? then s.queries + [ReadNow(s, cfg)] else s.queries
  {
    hide U.Apply, U.Enabled, TB.TakeTokens, ReadNow, U.Queue, Q.Selects;
  }

  lemma ReadsStep(s: State, cfg: Config, e: Event)
    requires Enabled(s, cfg, e) && Inv(s, cfg)
    ensures ReadsOk(Apply(s, cfg, e), cfg)
  {
    QueriesStep(s, cfg, e);
    var t := Apply(s, cfg, e);
    if e.Query? { FreshRead(s, cfg, e.check); }
    hide Apply, ReadOk, DayIntact, Traced, BucketOk, Enabled;
    forall i | 0 <= i < |t.queries| ensures ReadOk(t, cfg, t.queries[i]) {
      if i < |s.queries| {
        ReadStep(s, cfg, e, s.queries[i]);
      }
    }
  }

  lemma TracedStep(s: State, cfg: Config, e: Event)
    requires Enabled(s, cfg, e) && Traced(s)
    ensures Traced(Apply(s, cfg, e))
  {
    hide U.Apply, U.Enabled, TB.TakeTokens, ReadNow, U.Queue, Q.Selects;
  }

  lemma IntactStep(s: State, cfg: Config, e: Event)
    requires Enabled(s, cfg, e) && DayIntact(s, cfg)
    ensures DayIntact(Apply(s, cfg, e), cfg)
  {
    hide U.Apply, U.ApplyRecord, TB.TakeTokens, ReadNow, U.Queue, Q.Selects, U.Inv, U.Of;
    match e
    case RecordAdmitted(_, x) =>
      DayStep(s, cfg, U.Record(x));
      RecordIsStep(s.usage, x);
    case Background(be) => DayStep(s, cfg, be);
    case _ =>
  }

  lemma RecordIsStep(u: U.State, x: U.Sample)
    ensures U.Apply(u, U.Record(x)) == U.ApplyRecord(u, x)
  {
  }

  lemma BucketStep(s: State, cfg: Config, e: Event)
    requires Enabled(s, cfg, e) && BucketOk(s, cfg)
    ensures BucketOk(Apply(s, cfg, e), cfg)
  {
    hide Apply, Enabled, BucketOk;
    if cfg.burst.Some? {
      BurstStep(s, cfg, e, s.now);
    } else {
      NoBurst(Apply(s, cfg, e), cfg);
    }
  }

  lemma NoBurst(s: State, cfg: Config)
    requires cfg.burst.None?
    ensures BucketOk(s, cfg)
  {
  }

  /** Every event keeps the invariant. */
  lemma Step(s: State, cfg: Config, e: Event)
    requires Inv(s, cfg) && Enabled(s, cfg, e)
    ensures Inv(Apply(s, cfg, e), cfg)
  {
    hide Apply, Enabled, DayIntact, ReadsOk, Traced, BucketOk;
    IntactStep(s, cfg, e);
    ReadsStep(s, cfg, e);
    TracedStep(s, cfg, e);
    BucketStep(s, cfg, e);
  }

  // ----- whole runs -----

  ghost predicate EnabledAll(s: State, cfg: Config, es: seq<Event>)
    decreases |es|
  {
    es == [] || (Enabled(s, cfg, es[0]) && EnabledAll(Apply(s, cfg, es[0]), cfg, es[1..]))
  }

  ghost function Run(s: State, cfg: Config, es: seq<Event>): State
    requires EnabledAll(s, cfg, es)
    decreases |es|
  {
    if es == [] then s else Run(Apply(s, cfg, es[0]), cfg, es[1..])
  }

  /** The limiter at the start of a run: any state of the usage pipeline, no check under way,
      nothing cached, and a full bucket. */
  ghost predicate Start(s: State, cfg: Config)
  {
    && cfg.quota > 0 && DayIntact(s, cfg) && s.checks == [] && s.queries == [] && s.cache.None?
    && (cfg.burst.Some? ==>
          cfg.burst.value > 0 && s.bucket == TB.Full(cfg.burst.value as real, cfg.burst.value as real, s.now))
  }

  lemma {:induction false} RunInv(s: State, cfg: Config, es: seq<Event>)
    requires Inv(s, cfg) && EnabledAll(s, cfg, es)
    ensures Inv(Run(s, cfg, es), cfg)
    decreases |es|
  {
    if es != [] {
      hide Inv, Apply, Enabled;
      Step(s, cfg, es[0]);
      RunInv(Apply(s, cfg, es[0]), cfg, es[1..]);
    }
  }

  lemma StartInv(s: State, cfg: Config)
    requires Start(s, cfg)
    ensures Inv(s, cfg)
  {
    hide DayIntact;
  }

  /** What an admission means, for a check that learned the day's total from query `r`: all bytes
      of the tenant's day, recorded or in flight, are what `r` returned, what the table did not
      show then, and what came in since. So quota plus backlog is a bound if and only if what `r`
      returned and what came in since is within the quota. A burst limit bounds what passed since
      by its rate. */
  ghost predicate Exact(b: State, cfg: Config, check: Check, r: Read, after: State)
    requires check.Knows?
  {
    && check.used == r.used && r.time <= b.now
    && Everything(after, cfg) == r.used + r.outstanding + Since(b, r)
    && (Everything(after, cfg) <= cfg.quota + r.outstanding <==> r.used + Since(b, r) <= cfg.quota)
    && Everything(after, cfg) <= cfg.quota - check.n + r.outstanding + Since(b, r)
    && (cfg.burst.Some? ==>
          Since(b, r) as real <=
          (b.foreign - r.foreign) as real + cfg.burst.value as real +
          TB.Refill(cfg.burst.value as real, b.now - r.time))
  }

  /** The overshoot, exactly, in every run of the day: a check whose total came from a query is
      admitted if and only if that total and its own size are within the quota, and then `Exact`
      holds. */
  lemma Overshoot(s: State, cfg: Config, es: seq<Event>, c: nat)
    requires Start(s, cfg) && EnabledAll(s, cfg, es)
    requires Enabled(Run(s, cfg, es), cfg, Decide(c))
    requires Run(s, cfg, es).checks[c].read.Some?
    ensures var b := Run(s, cfg, es);
            var after := Apply(b, cfg, Decide(c));
            && b.checks[c].read.value < |b.queries|
            && var r := b.queries[b.checks[c].read.value];
            && (after.checks[c].Admitted? <==> r.used + b.checks[c].n <= cfg.quota)
            && (after.checks[c].Admitted? ==> Exact(b, cfg, b.checks[c], r, after))
  {
    StartInv(s, cfg);
    RunInv(s, cfg, es);
    hide Run, EnabledAll, Start, Inv, Exact, Everything;
    OvershootAt(Run(s, cfg, es), cfg, c);
  }

  lemma OvershootAt(b: State, cfg: Config, c: nat)
    requires Inv(b, cfg) && Enabled(b, cfg, Decide(c)) && b.checks[c].read.Some?
    ensures var after := Apply(b, cfg, Decide(c));
            && b.checks[c].read.value < |b.queries|
            && var r := b.queries[b.checks[c].read.value];
            && (after.checks[c].Admitted? <==> r.used + b.checks[c].n <= cfg.quota)
            && (after.checks[c].Admitted? ==> Exact(b, cfg, b.checks[c], r, after))
  {
    CheckRead(b, cfg, c);
    var r := b.queries[b.checks[c].read.value];
    EverythingStep(b, cfg, Decide(c));
    if cfg.burst.Some? { BurstSince(b, cfg, r); }
    hide Inv, ReadOk, Everything, TB.Refill, Since;
  }

  /** The query behind a check, in any state of the machine. */
  lemma CheckRead(b: State, cfg: Config, c: nat)
    requires Inv(b, cfg) && Enabled(b, cfg, Decide(c)) && b.checks[c].read.Some?
    ensures b.checks[c].read.value < |b.queries|
    ensures var r := b.queries[b.checks[c].read.value];
            && ReadOk(b, cfg, r) && b.checks[c].used == r.used && r.time <= b.now
            && Everything(b, cfg) == r.used + r.outstanding + Since(b, r)
  {
    hide DayIntact, BucketOk, Everything, TB.Refill, TB.Level;
    assert ReadOk(b, cfg, b.queries[b.checks[c].read.value]);
  }

  lemma BurstSince(b: State, cfg: Config, r: Read)
    requires Inv(b, cfg) && ReadOk(b, cfg, r) && cfg.burst.Some?
    ensures Since(b, r) as real <=
            (b.foreign - r.foreign) as real + cfg.burst.value as real +
            TB.Refill(cfg.burst.value as real, b.now - r.time)
  {
    hide DayIntact, Everything, TB.Refill, ReadsOk, Traced;
    TB.LevelLater(b.bucket, b.now, b.now);
  }

  lemma {:induction false} RunConcat(s: State, cfg: Config, a: seq<Event>, b: seq<Event>)
    requires EnabledAll(s, cfg, a) && EnabledAll(Run(s, cfg, a), cfg, b)
    ensures EnabledAll(s, cfg, a + b) && Run(s, cfg, a + b) == Run(Run(s, cfg, a), cfg, b)
    decreases |a|
  {
    hide Apply, Enabled;
    if a == [] {
      assert a + b == b;
    } else {
      assert (a + b)[1..] == a[1..] + b;
      RunConcat(Apply(s, cfg, a[0]), cfg, a[1..], b);
    }
  }

  lemma RunCons(s: State, cfg: Config, e: Event, es: seq<Event>)
    requires Enabled(s, cfg, e) && EnabledAll(Apply(s, cfg, e), cfg, es)
    ensures EnabledAll(s, cfg, [e] + es) && Run(s, cfg, [e] + es) == Run(Apply(s, cfg, e), cfg, es)
  {
    assert ([e] + es)[1..] == es;
  }

  /** The cache as the limiter object holds it. */
  function CacheOf(s: State, cfg: Config): L.Cache
  {
    if s.cache.Some? then map[cfg.tenant := L.QuotaEntry(s.cache.value.used, s.cache.value.expires)] else map[]
  }

  /** The effect of one whole `AllowBytes` call whose query, if made, returns `answer`. */
  ghost predicate AfterCall(s: State, t: State, cfg: Config, n: nat, answer: Option<int>)
  {
    && t.now == s.now && t.usage == s.usage && t.burstTotal == s.burstTotal + n
    && t.bucket == TB.TakeTokens(s.bucket, s.now, n as real).1
    && CacheOf(t, cfg) == L.Refreshed(CacheOf(s, cfg), cfg.tenant, s.now, answer)
    && t.checks == s.checks + [if L.Known(CacheOf(s, cfg), cfg.tenant, s.now, answer) + n > cfg.quota
                               then Rejected(n) else Admitted(n)]
  }

  lemma Replace(checks: seq<Check>, x: Check, y: Check)
    ensures (checks + [x])[|checks| := y] == checks + [y] && (checks + [x])[|checks|] == x
  {
  }

  lemma HitCall(s: State, cfg: Config, n: nat, answer: Option<int>) returns (es: seq<Event>)
    requires Enabled(s, cfg, Pass(n)) && L.Cached(CacheOf(s, cfg), cfg.tenant, s.now)
    ensures EnabledAll(s, cfg, es) && AfterCall(s, Run(s, cfg, es), cfg, n, answer)
    ensures Run(s, cfg, es).queries == s.queries
  {
    hide TB.TakeTokens;
    var c := |s.checks|;
    var s1 := Apply(s, cfg, Pass(n));
    var s2 := Apply(s1, cfg, Hit(c));
    var s3 := Apply(s2, cfg, Decide(c));
    Replace(s.checks, PastBurst(n), s2.checks[c]);
    Replace(s.checks, s2.checks[c], s3.checks[c]);
    assert AfterCall(s, s3, cfg, n, answer) && s3.queries == s.queries;
    hide Apply, AfterCall;
    RunCons(s2, cfg, Decide(c), []);
    RunCons(s1, cfg, Hit(c), [Decide(c)]);
    RunCons(s, cfg, Pass(n), [Hit(c), Decide(c)]);
    es := [Pass(n), Hit(c), Decide(c)];
  }

  /** The state after burst limiter and cache miss, and the three steps that follow a miss. */
  function Looked(s: State, n: nat): State
  {
    s.(bucket := TB.TakeTokens(s.bucket, s.now, n as real).1,
       checks := s.checks + [Missed(n)], burstTotal := s.burstTotal + n)
  }

  lemma MissSteps(s: State, cfg: Config, n: nat, es: seq<Event>)
    requires Enabled(s, cfg, Pass(n)) && !L.Cached(CacheOf(s, cfg), cfg.tenant, s.now)
    requires EnabledAll(Looked(s, n), cfg, es)
    ensures var all := [Pass(n)] + ([Miss(|s.checks|)] + es);
            EnabledAll(s, cfg, all) && Run(s, cfg, all) == Run(Looked(s, n), cfg, es)
  {
    hide TB.TakeTokens;
    var c := |s.checks|;
    var s1 := Apply(s, cfg, Pass(n));
    Replace(s.checks, PastBurst(n), Missed(n));
    assert Apply(s1, cfg, Miss(c)) == Looked(s, n);
    hide Apply, Looked;
    RunCons(s1, cfg, Miss(c), es);
    RunCons(s, cfg, Pass(n), [Miss(c)] + es);
  }

  lemma FailCall(s: State, cfg: Config, n: nat) returns (es: seq<Event>)
    requires Enabled(s, cfg, Pass(n)) && !L.Cached(CacheOf(s, cfg), cfg.tenant, s.now)
    ensures EnabledAll(s, cfg, es) && AfterCall(s, Run(s, cfg, es), cfg, n, None)
  {
    hide TB.TakeTokens;
    var c, s2 := |s.checks|, Looked(s, n);
    var s3 := Apply(s2, cfg, QueryFails(c));
    var s4 := Apply(s3, cfg, Decide(c));
    Replace(s.checks, Missed(n), s3.checks[c]);
    Replace(s.checks, s3.checks[c], s4.checks[c]);
    assert AfterCall(s, s4, cfg, n, None);
    hide Apply, AfterCall, Looked;
    RunCons(s3, cfg, Decide(c), []);
    RunCons(s2, cfg, QueryFails(c), [Decide(c)]);
    MissSteps(s, cfg, n, [QueryFails(c), Decide(c)]);
    es := [Pass(n)] + ([Miss(c)] + [QueryFails(c), Decide(c)]);
  }

  lemma QueryCall(s: State, cfg: Config, n: nat) returns (es: seq<Event>)
    requires Enabled(s, cfg, Pass(n)) && !L.Cached(CacheOf(s, cfg), cfg.tenant, s.now)
    requires U.Queue(s.usage) && !s.usage.writer.InTx?
    ensures EnabledAll(s, cfg, es)
    ensures AfterCall(s, Run(s, cfg, es), cfg, n, Some(Q.DailyBytes(s.usage.db.table, cfg.tenant, cfg.today)))
    ensures |Run(s, cfg, es).queries| == |s.queries| + 1
  {
    hide TB.TakeTokens, U.Queue, Q.DailyBytes, Outstanding;
    var c, s2 := |s.checks|, Looked(s, n);
    var s3 := Apply(s2, cfg, Query(c));
    var s4 := Apply(s3, cfg, Store(c));
    var s5 := Apply(s4, cfg, Decide(c));
    Replace(s.checks, Missed(n), s3.checks[c]);
    Replace(s.checks, s3.checks[c], s4.checks[c]);
    Replace(s.checks, s4.checks[c], s5.checks[c]);
    var answer := Some(Q.DailyBytes(s.usage.db.table, cfg.tenant, cfg.today));
    assert AfterCall(s, s5, cfg, n, answer) && |s5.queries| == |s.queries| + 1;
    hide Apply, AfterCall, Looked;
    RunCons(s4, cfg, Decide(c), []);
    RunCons(s3, cfg, Store(c), [Decide(c)]);
    RunCons(s2, cfg, Query(c), [Store(c), Decide(c)]);
    MissSteps(s, cfg, n, [Query(c), Store(c), Decide(c)]);
    es := [Pass(n)] + ([Miss(c)] + [Query(c), Store(c), Decide(c)]);
  }

  /** One `AllowBytes` call that nothing interrupts is a run of the machine, and has the verdict,
      the cache and the tokens of the limiter object. */
  lemma CallIsRun(s: State, cfg: Config, n: nat, queryOk: bool) returns (es: seq<Event>)
    requires Enabled(s, cfg, Pass(n)) && U.Queue(s.usage) && !s.usage.writer.InTx?
    ensures EnabledAll(s, cfg, es)
    ensures var total := Q.DailyBytes(s.usage.db.table, cfg.tenant, cfg.today);
            AfterCall(s, Run(s, cfg, es), cfg, n, if queryOk then Some(total) else None)
  {
    hide Enabled, AfterCall, U.Queue;
    if L.Cached(CacheOf(s, cfg), cfg.tenant, s.now) {
      es := HitCall(s, cfg, n, if queryOk then Some(Q.DailyBytes(s.usage.db.table, cfg.tenant, cfg.today)) else None);
    } else if queryOk {
      es := QueryCall(s, cfg, n);
    } else {
      es := FailCall(s, cfg, n);
    }
  }

  /** A cached answer good for another check of `n` bytes by a tenant without a burst limit. */
  predicate Cached(s: State, cfg: Config, n: nat)
  {
    cfg.burst.None? && s.cache.Some? && s.now < s.cache.value.expires && s.cache.value.used + n <= cfg.quota
  }

  /** One check answered from the cache. */
  lemma CachedCheck(s: State, cfg: Config, n: nat) returns (es: seq<Event>)
    requires Cached(s, cfg, n)
    ensures EnabledAll(s, cfg, es)
    ensures var t := Run(s, cfg, es);
            && Cached(t, cfg, n) && t.queries == s.queries && t.now == s.now
            && Everything(t, cfg) == Everything(s, cfg) + n
  {
    es := HitCall(s, cfg, n, None);
    PendingAppend(s.checks, Admitted(n));
    hide Run, EnabledAll, TB.TakeTokens, Pending, Q.DailyBytes, Q.SampleBytes;
    SameCache(s, Run(s, cfg, es), cfg);
  }

  lemma SameCache(s: State, t: State, cfg: Config)
    requires CacheOf(t, cfg) == CacheOf(s, cfg) && s.cache.Some?
    ensures t.cache.Some? && t.cache.value.used == s.cache.value.used && t.cache.value.expires == s.cache.value.expires
  {
    assert cfg.tenant in CacheOf(t, cfg);
    assert CacheOf(t, cfg)[cfg.tenant] == CacheOf(s, cfg)[cfg.tenant];
  }

  /** Why the bytes let through since the query must be counted: as long as the cached answer is
      valid, any number of checks is admitted in one instant, with no further query. */
  lemma {:induction false} StaleCacheAdmits(s: State, cfg: Config, n: nat, m: nat) returns (es: seq<Event>)
    requires Cached(s, cfg, n)
    ensures EnabledAll(s, cfg, es)
    ensures var t := Run(s, cfg, es);
            && Cached(t, cfg, n) && t.queries == s.queries && t.now == s.now
            && Everything(t, cfg) == Everything(s, cfg) + m * n
    decreases m
  {
    hide Cached, Everything, Apply, Enabled;
    if m == 0 {
      es := [];
    } else {
      var first := CachedCheck(s, cfg, n);
      var more := StaleCacheAdmits(Run(s, cfg, first), cfg, n, m - 1);
      RunConcat(s, cfg, first, more);
      es := first + more;
    }
  }

  /** A first check, answered by a query. */
  lemma ColdCheck(s: State, cfg: Config, n: nat) returns (es: seq<Event>)
    requires Start(s, cfg) && cfg.burst.None? && !s.usage.writer.InTx?
    requires Q.DailyBytes(s.usage.db.table, cfg.tenant, cfg.today) + n <= cfg.quota
    ensures EnabledAll(s, cfg, es)
    ensures Cached(Run(s, cfg, es), cfg, n) && |Run(s, cfg, es).queries| == 1
    ensures Run(s, cfg, es).usage == s.usage
  {
    hide Q.DailyBytes, U.RequestsOk, U.WriterOk, U.Balanced;
    es := QueryCall(s, cfg, n);
    hide Run, EnabledAll, TB.TakeTokens, U.Queue;
    var t := Run(s, cfg, es);
    assert cfg.tenant in CacheOf(t, cfg);
    assert t.cache.Some? && CacheOf(t, cfg)[cfg.tenant] ==
           L.QuotaEntry(Q.DailyBytes(s.usage.db.table, cfg.tenant, cfg.today), s.now + L.CACHE_SECONDS);
  }

  /** A check past the burst limiter uses the cached total exactly while it is less than sixty
      seconds old, and otherwise asks the table. */
  lemma CacheBranch(s: State, cfg: Config, c: nat, w: State, d: nat)
    requires c < |s.checks| && s.checks[c].PastBurst?
    requires Enabled(w, cfg, Store(d)) && s.cache == Apply(w, cfg, Store(d)).cache
    ensures Enabled(s, cfg, Hit(c)) <==> s.now < w.now + 60.0
    ensures Enabled(s, cfg, Miss(c)) <==> !(s.now < w.now + 60.0)
    ensures Enabled(s, cfg, Hit(c)) ==>
            && Apply(s, cfg, Hit(c)).checks[c].used == w.queries[w.checks[d].answer].used
            && Apply(s, cfg, Hit(c)).cache == s.cache
  {
  }

  /** A cached total runs out when its time has come. */
  lemma CacheRunsOut(s: State, cfg: Config, c: nat)
    requires c < |s.checks| && s.checks[c].PastBurst? && s.cache.Some? && s.now <= s.cache.value.expires
    ensures Enabled(s, cfg, Clock(s.cache.value.expires))
    ensures var t := Apply(s, cfg, Clock(s.cache.value.expires));
            t.now == s.cache.value.expires && Enabled(t, cfg, Miss(c)) && !Enabled(t, cfg, Hit(c))
  {
  }

  /** Clearing the cache makes the next check ask the table, and changes nothing else. */
  lemma ClearForcesQuery(s: State, cfg: Config, c: nat)
    requires c < |s.checks| && s.checks[c].PastBurst?
    ensures var t := Apply(s, cfg, ClearCache);
            && !Enabled(t, cfg, Hit(c)) && Enabled(t, cfg, Miss(c))
            && t.checks == s.checks && t.usage == s.usage && t.queries == s.queries
  {
  }

  /** Without a burst limit no constant bounds the overshoot: after a single query, in the same
      instant, the bytes in flight can exceed any limit, whatever the quota. */
  lemma NoBoundWithoutBurst(s: State, cfg: Config, n: nat, limit: nat) returns (es: seq<Event>)
    requires Start(s, cfg) && cfg.burst.None? && !s.usage.writer.InTx? && n > 0
    requires Q.DailyBytes(s.usage.db.table, cfg.tenant, cfg.today) + n <= cfg.quota
    ensures EnabledAll(s, cfg, es)
    ensures |Run(s, cfg, es).queries| == 1 && Everything(Run(s, cfg, es), cfg) > limit
  {
    hide Start, Q.DailyBytes, Cached, Everything;
    var first := ColdCheck(s, cfg, n);
    var t := Run(s, cfg, first);
    var room := limit + 1 + if Everything(t, cfg) < 0 then -Everything(t, cfg) else 0;
    var more := StaleCacheAdmits(t, cfg, n, room);
    RunConcat(s, cfg, first, more);
    es := first + more;
    assert room * n >= room;
  }

  /** A process start on a database with any table is a start of the machine. */
  lemma ProcessStarts(cfg: Config, table: U.Counters, now: real) returns (s: State)
    requires cfg.quota > 0 && (cfg.burst.Some? ==> cfg.burst.value > 0)
    ensures Start(s, cfg) && s.usage == U.Init(table, {cfg.tenant}, cfg.tenant) && s.now == now
  {
    var rate := if cfg.burst.Some? then cfg.burst.value as real else 1.0;
    s := State(now, U.Init(table, {cfg.tenant}, cfg.tenant), TB.Full(rate, rate, now), None, [], [], 0, 0, 0);
    U.InitInv(table, {cfg.tenant}, cfg.tenant);
    hide U.Inv;
  }

  /** So for every quota without a burst limit there is a day on which it is exceeded by any
      amount after one query. */
  lemma QuotaIsExceeded(cfg: Config, n: nat, limit: nat) returns (s: State, es: seq<Event>)
    requires cfg.burst.None? && 0 < n <= cfg.quota
    ensures Start(s, cfg) && EnabledAll(s, cfg, es)
    ensures |Run(s, cfg, es).queries| == 1 && Everything(Run(s, cfg, es), cfg) > limit
  {
    s := ProcessStarts(cfg, map[], 0.0);
    NothingRecorded(cfg);
    hide Start, Q.DailyBytes, Everything;
    es := NoBoundWithoutBurst(s, cfg, n, limit);
  }

  lemma NothingRecorded(cfg: Config)
    ensures Q.DailyBytes(map[], cfg.tenant, cfg.today) == 0
  {
    assert Q.Column(map[], cfg.tenant, cfg.today, U.Volume) == map[];
  }
}
