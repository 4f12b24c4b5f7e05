/** Reading and ageing the usage table (internal/store/usage.go). */
module UsageQueries {
  import opened ByteStrings
  import opened Sums
  import HB = HourBuckets
  import U = Usage

  /** Rows of a tenant from a bucket on. */
  predicate Selects(k: U.Key, tenant: int, since: Bytes) { k.tenant == tenant && !HB.Less(k.hour, since) }

  /** One column of the selected rows. */
  ghost function Column(table: U.Counters, tenant: int, since: Bytes, f: U.Measure): map<U.Key, int>
  {
    map k | k in table && Selects(k, tenant, since) :: U.Of(table, k, f)
  }

  /** `GetDailyByteUsage`, with `today` the current day's `T00` bucket. */
  ghost function DailyBytes(table: U.Counters, tenant: int, today: Bytes): int
  {
    Sum(Column(table, tenant, today, U.Volume))
  }

  /** Which rows count, in terms of hours: those of the tenant from the given hour on. */
  lemma SelectsFrom(k: U.Key, hour: nat, tenant: int, since: nat)
    requires HB.FourDigit(hour) && HB.FourDigit(since) && k.hour == HB.Bucket(hour)
    ensures Selects(k, tenant, HB.Bucket(since)) <==> k.tenant == tenant && hour >= since
  {
    hide HB.Bucket, HB.FourDigit, HB.Less;
    HB.BucketOrder(hour, since);
  }

  /** For the current day: those of the tenant since its midnight. */
  lemma SelectsToday(k: U.Key, hour: nat, tenant: int, now: nat)
    requires HB.FourDigit(hour) && HB.FourDigit(now) && k.hour == HB.Bucket(hour)
    ensures Selects(k, tenant, HB.DayStart(now)) <==> k.tenant == tenant && hour >= 24 * (now / 24)
  {
    HB.DayStartIsBucket(now);
    hide HB.Bucket, HB.FourDigit, HB.DayStart;
    SelectsFrom(k, hour, tenant, 24 * (now / 24));
  }

  /** The rows of a tenant carry buckets of the given hours. */
  ghost predicate Dated(table: U.Counters, tenant: int, hours: map<U.Key, nat>)
  {
    forall k :: k in table && k.tenant == tenant ==>
      k in hours && HB.FourDigit(hours[k]) && k.hour == HB.Bucket(hours[k])
  }

  /** The rows of a tenant from an hour on, and a counter of some rows. */
  function RowsFrom(table: U.Counters, tenant: int, since: int, hours: map<U.Key, nat>): set<U.Key>
  {
    set k | k in table && k.tenant == tenant && k in hours && hours[k] >= since
  }

  function Picked(table: U.Counters, rows: set<U.Key>, f: U.Measure): map<U.Key, int>
  {
    map k | k in rows && k in table :: match f
                                       case Requests => table[k].requests
                                       case Volume => table[k].bytes
                                       case Errors => table[k].errors
  }

  /** A column of a chart holds exactly the rows of the tenant from an hour on. */
  lemma ColumnFrom(table: U.Counters, tenant: int, since: nat, f: U.Measure, hours: map<U.Key, nat>)
    requires HB.FourDigit(since) && Dated(table, tenant, hours)
    ensures Column(table, tenant, HB.Bucket(since), f) == Picked(table, RowsFrom(table, tenant, since, hours), f)
  {
    hide Selects, HB.Bucket, HB.FourDigit;
    var start := HB.Bucket(since);
    forall k | k in table ensures Selects(k, tenant, start) <==> k in RowsFrom(table, tenant, since, hours) {
      if k.tenant == tenant {
        SelectsFrom(k, hours[k], tenant, since);
      } else {
        OtherTenant(k, tenant, start);
      }
    }
  }

  lemma OtherTenant(k: U.Key, tenant: int, since: Bytes)
    requires k.tenant != tenant
    ensures !Selects(k, tenant, since)
  {
  }

  /** `GetDailyByteUsage` at hour `now` is the bytes of all the tenant's rows since midnight. */
  lemma DailyBytesSinceMidnight(table: U.Counters, tenant: int, now: nat, hours: map<U.Key, nat>)
    requires HB.FourDigit(now) && Dated(table, tenant, hours)
    ensures DailyBytes(table, tenant, HB.DayStart(now)) ==
            Sum(Picked(table, RowsFrom(table, tenant, 24 * (now / 24), hours), U.Volume))
  {
    HB.DayStartIsBucket(now);
    ColumnFrom(table, tenant, 24 * (now / 24), U.Volume, hours);
    hide HB.Bucket, HB.FourDigit, HB.DayStart, Selects, Sum, Picked, RowsFrom, Dated, Column;
  }

  const DEFAULT_RETENTION: nat := 90

  function Days(retentionDays: int): nat { if retentionDays <= 0 then DEFAULT_RETENTION else retentionDays }

  /** The bucket before which `CleanupOldCounters` deletes at hour `now`. */
  function Threshold(now: nat, retentionDays: int): Bytes
    requires HB.FourDigit(now) && 24 * Days(retentionDays) <= now
  {
    HB.EarlierFourDigit(now - 24 * Days(retentionDays), now);
    HB.Bucket(now - 24 * Days(retentionDays))
  }

  /** `CleanupOldCounters`. */
  function Retained(table: U.Counters, now: nat, retentionDays: int): U.Counters
    requires HB.FourDigit(now) && 24 * Days(retentionDays) <= now
  {
    table - U.OlderThan(table, Threshold(now, retentionDays))
  }

  /** Text order against the threshold is chronological. */
  lemma ThresholdOrder(now: nat, retentionDays: int, hour: nat)
    requires HB.FourDigit(now) && 24 * Days(retentionDays) <= now && HB.FourDigit(hour)
    ensures HB.Less(HB.Bucket(hour), Threshold(now, retentionDays)) <==> hour < now - 24 * Days(retentionDays)
  {
    hide HB.Bucket, HB.FourDigit, HB.Less;
    HB.EarlierFourDigit(now - 24 * Days(retentionDays), now);
    HB.BucketOrder(hour, now - 24 * Days(retentionDays));
  }

  /** Retention deletes exactly the rows that are chronologically older than the cut. */
  lemma RetentionIsChronological(table: U.Counters, now: nat, retentionDays: int, k: U.Key, hour: nat)
    requires HB.FourDigit(now) && 24 * Days(retentionDays) <= now
    requires k in table && HB.FourDigit(hour) && k.hour == HB.Bucket(hour)
    ensures k in Retained(table, now, retentionDays) <==>
            hour >= now - 24 * if retentionDays > 0 then retentionDays else 90
  {
    hide HB.Bucket, HB.FourDigit, HB.Less, Threshold;
    ThresholdOrder(now, retentionDays, hour);
  }

  /** Retention never changes the current day's byte usage of any tenant. */
  lemma RetentionKeepsToday(table: U.Counters, now: nat, retentionDays: int, tenant: int)
    requires HB.FourDigit(now) && 24 * Days(retentionDays) <= now
    ensures DailyBytes(Retained(table, now, retentionDays), tenant, HB.DayStart(now)) ==
            DailyBytes(table, tenant, HB.DayStart(now))
  {
    hide HB.DateOf, HB.Bucket, HB.DayStart, Sum;
    var after, today := Retained(table, now, retentionDays), HB.DayStart(now);
    forall k | k in table && Selects(k, tenant, today) ensures k in after {
      HB.RetentionSparesToday(now, Days(retentionDays), k.hour);
    }
    assert Column(after, tenant, today, U.Volume) == Column(table, tenant, today, U.Volume);
  }

  // ----- the charts -----

  function HourLabel(k: U.Key): Bytes { k.hour }

  function Substr10(s: Bytes): Bytes { if |s| <= 10 then s else s[..10] }

  function DayLabel(k: U.Key): Bytes { Substr10(k.hour) }

  function SignalLabel(k: U.Key): Bytes { k.signal }

  /** A bar of the per-day chart holds exactly the rows of one day. */
  lemma DayBarIsADay(a: U.Key, b: U.Key, s: nat, t: nat)
    requires HB.FourDigit(s) && HB.FourDigit(t) && a.hour == HB.Bucket(s) && b.hour == HB.Bucket(t)
    ensures DayLabel(a) == DayLabel(b) <==> s / 24 == t / 24
  {
    hide HB.Bucket, HB.FourDigit;
    HB.SameDayLabel(s, t);
  }

  /** The per-day request chart sums the per-hour one bar by bar, and the per-hour, per-day and
      per-signal charts of the same rows have the same total. */
  lemma ChartsAgree(table: U.Counters, tenant: int, since: Bytes)
    ensures var rows := Column(table, tenant, since, U.Requests);
            && Group(Group(rows, HourLabel), Substr10) == Group(rows, DayLabel)
            && Sum(Group(rows, DayLabel)) == Sum(Group(rows, HourLabel)) == Sum(Group(rows, SignalLabel)) == Sum(rows)
  {
    var rows := Column(table, tenant, since, U.Requests);
    GroupOfGroups(rows, HourLabel, Substr10, DayLabel);
    GroupTotal(rows, HourLabel);
    GroupTotal(rows, DayLabel);
    GroupTotal(rows, SignalLabel);
  }

  /** A bar is the sum of the rows that bear its label: of an hour, of a signal. */
  lemma BarsAre(rows: map<U.Key, int>, bar: Bytes)
    ensures At(Group(rows, HourLabel), bar) == Sum(map k | k in rows && k.hour == bar :: rows[k])
    ensures At(Group(rows, SignalLabel), bar) == Sum(map k | k in rows && k.signal == bar :: rows[k])
  {
    GroupAt(rows, HourLabel, bar);
    GroupAt(rows, SignalLabel, bar);
    hide Sum, Group;
    assert Part(rows, HourLabel, bar) == map k | k in rows && k.hour == bar :: rows[k];
    assert Part(rows, SignalLabel, bar) == map k | k in rows && k.signal == bar :: rows[k];
  }

  /** The three charts of `GetUsageData`. */
  datatype UsageData = UsageData(requests: map<Bytes, int>, volumes: map<Bytes, int>, signals: map<Bytes, int>)

  function RangeHours(range: Bytes): nat
  {
    if range == "24h" then 24 else if range == "7d" then 168 else if range == "30d" then 720 else 168
  }

  /** Long ranges show one bar per day. */
  ghost function Charts(table: U.Counters, tenant: int, hours: nat, since: Bytes): UsageData
  {
    var requests := Column(table, tenant, since, U.Requests);
    UsageData(if hours > 168 then Group(requests, DayLabel) else Group(requests, HourLabel),
              Group(Column(table, tenant, since, U.Volume), DayLabel),
              Group(requests, SignalLabel))
  }

  /** `GetUsageData` at hour `now`. */
  ghost function GetUsageData(table: U.Counters, tenant: int, range: Bytes, now: nat): UsageData
    requires HB.FourDigit(now) && RangeHours(range) <= now
  {
    HB.EarlierFourDigit(now - RangeHours(range), now);
    Charts(table, tenant, RangeHours(range), HB.Bucket(now - RangeHours(range)))
  }

  lemma RangeHoursAre(range: Bytes)
    ensures RangeHours("24h") == 24 && RangeHours("7d") == 168 && RangeHours("30d") == 720
    ensures RangeHours(range) == if range == "24h" then 24 else if range == "30d" then 720 else 168
  {
  }

  lemma ChartTotals(table: U.Counters, tenant: int, hours: nat, since: nat, dates: map<U.Key, nat>)
    requires HB.FourDigit(since) && Dated(table, tenant, dates)
    ensures var data, rows := Charts(table, tenant, hours, HB.Bucket(since)), RowsFrom(table, tenant, since, dates);
            && Sum(data.requests) == Sum(data.signals) == Sum(Picked(table, rows, U.Requests))
            && Sum(data.volumes) == Sum(Picked(table, rows, U.Volume))
            && (hours <= 168 ==> data.requests == Group(Picked(table, rows, U.Requests), HourLabel))
  {
    ColumnFrom(table, tenant, since, U.Requests, dates);
    ColumnFrom(table, tenant, since, U.Volume, dates);
    hide HB.Bucket, HB.FourDigit, Sum, Group, Picked, RowsFrom, Dated, Column;
    ChartsAgree(table, tenant, HB.Bucket(since));
    GroupTotal(Column(table, tenant, HB.Bucket(since), U.Volume), DayLabel);
  }

  /** For every range, the request chart and the signal chart have the same total, which is that of
      the tenant's rows of the range's last hours; so has the volume chart for bytes; and ranges up
      to a week are by hour. */
  lemma UsageDataTotals(table: U.Counters, tenant: int, range: Bytes, now: nat, dates: map<U.Key, nat>)
    requires HB.FourDigit(now) && RangeHours(range) <= now && Dated(table, tenant, dates)
    ensures var hours := RangeHours(range);
            var data, rows := GetUsageData(table, tenant, range, now), RowsFrom(table, tenant, now - hours, dates);
            && Sum(data.requests) == Sum(data.signals) == Sum(Picked(table, rows, U.Requests))
            && Sum(data.volumes) == Sum(Picked(table, rows, U.Volume))
            && (hours <= 168 ==> data.requests == Group(Picked(table, rows, U.Requests), HourLabel))
  {
    hide HB.Bucket, HB.FourDigit, Sum, Group, Picked, RowsFrom, Dated, Charts, RangeHours;
    HB.EarlierFourDigit(now - RangeHours(range), now);
    ChartTotals(table, tenant, RangeHours(range), now - RangeHours(range), dates);
  }

  // ----- the table and the samples behind it -----

  /** Bytes of the selected samples. */
  function SampleBytes(samples: seq<U.Sample>, tenant: int, since: Bytes): nat
  {
    if samples == [] then 0
    else
      var last := samples[|samples| - 1];
      SampleBytes(samples[..|samples| - 1], tenant, since) + if Selects(last.key, tenant, since) then last.bytes else 0
  }

  lemma {:induction false} SampleBytesConcat(a: seq<U.Sample>, b: seq<U.Sample>, tenant: int, since: Bytes)
    ensures SampleBytes(a + b, tenant, since) == SampleBytes(a, tenant, since) + SampleBytes(b, tenant, since)
    decreases |b|
  {
    if b == [] {
      assert a + b == a;
    } else {
      var last := |b| - 1;
      assert (a + b)[..|a + b| - 1] == a + b[..last];
      SampleBytesConcat(a, b[..last], tenant, since);
    }
  }

  /** Accumulating samples adds their bytes. */
  lemma {:induction false} AccumulatedBytes(m: U.Counters, samples: seq<U.Sample>, tenant: int, since: Bytes)
    ensures DailyBytes(U.AccumulateAll(m, samples), tenant, since) ==
            DailyBytes(m, tenant, since) + SampleBytes(samples, tenant, since)
  {
    hide Selects, Sum;
    if samples != [] {
      var front, x := samples[..|samples| - 1], samples[|samples| - 1];
      AccumulatedBytes(m, front, tenant, since);
      var m' := U.AccumulateAll(m, front);
      ColumnAdd(m', x, tenant, since);
      SumUpdate(Column(m', tenant, since, U.Volume), x.key, U.Of(m', x.key, U.Volume) + x.bytes);
    }
  }

  lemma ColumnAdd(m: U.Counters, x: U.Sample, tenant: int, since: Bytes)
    ensures var c := Column(m, tenant, since, U.Volume);
            && Column(U.Accumulate(m, x), tenant, since, U.Volume) ==
               (if Selects(x.key, tenant, since) then c[x.key := U.Of(m, x.key, U.Volume) + x.bytes] else c)
            && (Selects(x.key, tenant, since) ==> At(c, x.key) == U.Of(m, x.key, U.Volume))
  {
    hide Selects;
  }

  /** If the selected counters are exactly those of another table plus the totals of some
      samples, the daily usage is that table's plus the bytes of those samples. */
  lemma DailyFromTotals(
    table: U.Counters, base: U.Counters, samples: seq<U.Sample>, tenant: int, today: Bytes)
    requires forall k :: Selects(k, tenant, today) ==>
               U.Of(table, k, U.Volume) == U.Of(base, k, U.Volume) + U.Total(samples, k, U.Volume)
    ensures DailyBytes(table, tenant, today) ==
            DailyBytes(base, tenant, today) + SampleBytes(samples, tenant, today)
  {
    var m := U.AccumulateAll(base, samples);
    AccumulatedBytes(base, samples, tenant, today);
    var a, b := Column(table, tenant, today, U.Volume), Column(m, tenant, today, U.Volume);
    hide Selects, Sum, U.AccumulateAll, U.Total;
    forall k ensures At(a, k) == At(b, k) {
      U.AccumulateAllOf(base, samples, k, U.Volume);
    }
    SumSame(a, b);
  }
}
