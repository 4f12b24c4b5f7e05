# Verified model of the OTLP/syslog tenant proxy

A Dafny model of the stateful core of the proxy, with proofs about every input, every
interleaving and every crash point. `dafny verify dfyconfig.toml` checks all of it.

| file | what it models |
|---|---|
| `ByteStrings.dfy`, `Sums.dfy` | bytes, decimal printing and parsing; sums, groups and sizes of finite collections |
| `Framing.dfy` | the frame scanner (`internal/syslog/frame.go`) and the payload `Forward` writes |
| `Rfc5424.dfy` | the RFC 5424 rewriter (`internal/syslog/rfc5424.go`) |
| `CollectorPool.dfy` | the collector pool as a machine over all interleavings, and the pool object |
| `ConnectionRun.dfy` | the per-connection loop, end to end |
| `Listener.dfy` | all connection handlers at once over one pool, and the shutdown order |
| `ConnectionSlots.dfy` | per-tenant connection slots and the global semaphore |
| `Usage.dfy`, `HourBuckets.dfy`, `UsageQueries.dfy` | usage channel, accumulator, transactional flush, hour buckets, retention and charts |
| `TokenBuckets.dfy`, `Limiter.dfy`, `DailyQuota.dfy` | rate limits, idle eviction, the limiter object, and the daily quota over the usage pipeline |
| `ApiKeys.dfy`, `Migration.dfy` | API-key lifecycle and the migration runner with crashes |
| `LoginThrottle.dfy`, `Downloads.dfy` | login throttle and single-use download tokens |

Concurrent parts are machines: a state, atomic events with a guard (`Enabled`) and an effect
(`Apply`), and theorems about `Run` of every enabled sequence of events. Imperative parts are
classes whose methods are proved against the functions the machines use.

## Main results

- **Stream integrity**: in every interleaving of any number of connections and `Forward` calls,
  with writes that break off anywhere, the collector decodes exactly the union of the stamped
  prefixes of the devices' streams, if and only if these frames are within its cap.
- **Conservation**: from any table, for every counter, found + accepted = queued + accumulated +
  being flushed + persisted + purged, through every fault, drop, purge and stop.
- **Crash recovery**: whatever the crash history, a finished migration equals the uninterrupted
  one. Two hypotheses are needed, both can be checked beforehand, and for every database that
  violates one there is a history that ends differently.
- **Quota overshoot**: whenever a check is admitted, all bytes of the tenant's day, recorded or in
  flight, are exactly the total that was read, what the table did not show then, and what came in
  since. Quota plus backlog is a bound if and only if the total read and what came in since are
  within the quota. A burst limit of B bytes bounds what passed since by B(1 + age of the total).
- **Key lifecycle**: over every interleaving of statements, the keys that resolve to a tenant after
  its last revocation are exactly those inserted since.
- **Eviction is invisible** while limits are unchanged, and the rate bound holds over any window.
- **Stamp / re-parse** and agreement with section 6.3 of RFC 5424, as an if-and-only-if.

## Properties that are false of the code, and what holds instead

- *Escaped brackets.* The scanner ends a structured-data block at the first `]`, escaped or not
  (`internal/syslog/rfc5424.go:89`). `ParseAgreesWithGrammar` shows that the result is right if and
  only if no parameter value holds a `]` and the MSG does not start with a space;
  `EscapedBracketIsCut` is a witness.
- *Quota plus backlog is not a bound.* Checks answered from a cached total all see the same number.
  `QuotaIsExceeded` shows that without a burst limit one query can admit any amount, in one instant.
  `Overshoot` gives the exact count and the exact condition.
- *A tenants table without a users table* is not adopted by an uninterrupted migration but is
  adopted after a crash behind 0001 (`RecoverableIsNeeded`). An ALTER TABLE failure that is ignored
  (`internal/store/migrate.go:175`) on a table without UNIQUE leaves the column missing for good
  (`GuardIsNeeded`, `ColumnsFrozen`).
- *Overlapping key regenerations* leave two live keys (`OverlappingRegenerations`). Exactly one key
  resolves if and only if the tenant is active and exactly one key was inserted after the last
  revocation (`RegenerateLeavesOne`).
- *A counter of a deleted tenant* blocks all later flushes (`StuckForever`, `StuckIsReached`).
- *`Close` with a call in flight* leaves its connection open (`CloseIsTotal` is an
  if-and-only-if, `HeldIsReached` a run); the shutdown order rules this out (`ShutdownClosesAll`).

## Code against documentation

`PATCH_NOTES.md:9` and `docs/AIO_INSTALL.md:121` describe newline framing towards the collector. The
code writes octet-counted frames (`internal/syslog/pool.go:91-102`), and so does the model.

## Assumptions

- SHA-256 is injective on the keys in play and generated secrets and token ids are fresh.
- A failed `Write` emits a strict prefix of its payload, possibly empty; a successful one all of it.
- A failed commit leaves the database unchanged; single statements and transactions are atomic, and
  statements of different callers do not run inside an open transaction (one connection).
- The clock never goes back; one limiter check happens at one instant; tokens are real numbers.
- `golang.org/x/time/rate` is the textbook bucket that starts full.
- The unique index, foreign keys and cascades of `internal/store/migrations/0001_init.sql` hold.
- Rows with equal `tenants.api_key` are returned in ascending id order; any other order is free.
- Download buffers handed to the manager are not shared and not written by anyone else.

## Model

| member | source | states |
|---|---|---|
| `Framing.Scan` | internal/syslog/frame.go:34-43 | a successful read strictly shortens the unread input, and a clean end is reported exactly on empty input |
| `Framing.FrameScanner.ReadFrame` | internal/syslog/frame.go:34-43 | the buffered-reader code is the specification `Scan` |
| `Framing.FrameScanner.ReadOctetCountedFrame` | internal/syslog/frame.go:45-68 | length prefix, cap, and body in the order and with the failures of the code |
| `Framing.FrameScanner.ReadNewlineFrame` | internal/syslog/frame.go:70-79 | a line, or the unterminated rest of the stream |
| `Framing.ScanWire` | internal/syslog/frame.go:34-79 | a frame in either framing is read back whole, whatever follows, if and only if it is within the cap (counted) or has no newline and no leading digit (line) |
| `Framing.ScanTornFrame` | internal/syslog/frame.go:45-68 | a proper nonempty part of a counted frame never yields a frame |
| `Framing.RoundTrip` | internal/syslog/frame.go:34-79 | any mixture of decodable frames, then possibly a torn one, reads back as exactly those frames, and ends cleanly iff nothing is torn |
| `Framing.RoundTripLastLine` | internal/syslog/frame.go:70-79 | a stream that ends in the middle of a line yields the frames before it, then that line as a frame, then a clean end |
| `Framing.GrammarIsRead` | internal/syslog/frame.go:34-79 | everything in the frame grammar (counted within the cap, line, unterminated last line) is read as it stands there |
| `Framing.ReadIsGrammar` | internal/syslog/frame.go:34-79 | nothing else is read as a frame |
| `Framing.TooLargeIff` | internal/syslog/frame.go:52-58 | a frame is refused for its size exactly when its length prefix is a 64-bit number above the cap |
| `Framing.ForwardedRoundTrip` | internal/syslog/pool.go:98-102 | concatenated `Forward` payloads of frames with arbitrary bytes read back as the same sequence, then EOF |
| `Framing.ForwardedFitting` | internal/syslog/frame.go:45-68 | with no hypothesis on the frames, the reader gets exactly those before the first one above its cap |
| `Framing.CountedFrameWithinCap` | internal/syslog/frame.go:52-61 | counted frames never exceed the cap, and the negative-length branch cannot be taken |
| `Framing.LineFrameIgnoresCap` | internal/syslog/frame.go:70-79 | the cap does not apply to newline frames |
| `Framing.CountedWithinCap` | internal/syslog/frame.go:52-61 | every frame read from a stream without newline frames is within the cap |
| `ByteStrings.ItoaParse` | internal/syslog/pool.go:99 | decimal printing and parsing are inverse on all 64-bit integers |
| `Rfc5424.ParseSDAndMsg` | internal/syslog/rfc5424.go:77-103 | the nil cases and the index loop compute the recursive specification |
| `Rfc5424.ScanBlocks` | internal/syslog/rfc5424.go:85-102 | the index loop with its three cases computes the recursive block scan |
| `Rfc5424.FilterBlocks` | internal/syslog/rfc5424.go:42-47 | the loop keeps exactly the blocks that are not a tenant's, in order |
| `Rfc5424.WriteHeader` | internal/syslog/rfc5424.go:59-63 | the builder loop joins the fields with single spaces |
| `Rfc5424.StampSyslogMessage` | internal/syslog/rfc5424.go:20-73 | the whole rewriter computes `Stamp` on every byte string, malformed ones included |
| `Rfc5424.ParseLaid` | internal/syslog/rfc5424.go:21-40 | every text of PRI, spaces, six fields and a rest is taken apart at exactly these places |
| `Rfc5424.MalformedUnchanged` | internal/syslog/rfc5424.go:21-35 | a text of any other form is passed on unchanged |
| `Rfc5424.StampedBodyReads` | internal/syslog/rfc5424.go:66-70 | reading the stamped body back: the first bracket holds the tenant id, then come the bracketed name and the original MSG |
| `Rfc5424.PrefixesDiffer` | internal/syslog/rfc5424.go:68 | tenants with different ids never produce the same body |
| `Rfc5424.BlockReads` | internal/syslog/rfc5424.go:49 | reading the tenant block back gives the id behind the `@` and between the quotes |
| `Rfc5424.ParsePrint` | internal/syslog/rfc5424.go:20-103 | printing a shaped message and parsing it is the identity |
| `Rfc5424.StampReparse` | internal/syslog/rfc5424.go:20-103 | re-parsing a stamped message gives the same PRI and header, the foreign blocks in order and one tenant block last, and an empty or prefixed MSG |
| `Rfc5424.Restamp` | internal/syslog/rfc5424.go:20-73 | stamping again leaves the structured data alone, and another tenant's stamp replaces the first |
| `Rfc5424.StampLength` | internal/syslog/rfc5424.go:49-72 | the output is at most input + tenant block + prefix + 1 long |
| `Rfc5424.Reassemble` | internal/syslog/rfc5424.go:77-103 | blocks, skipped spaces and MSG reassemble every section, except for the nil value |
| `Rfc5424.ParseAgreesWithGrammar` | internal/syslog/rfc5424.go:77-103 | on sections of the RFC 5424 grammar the scan returns exactly the elements and the MSG iff no value holds `]` and the MSG has no leading space |
| `Rfc5424.EscapedBracketIsCut` | internal/syslog/rfc5424.go:89 | a valid element whose value holds an escaped bracket is cut inside the value |
| `Rfc5424.StampConforming` | internal/syslog/rfc5424.go:20-107 | on conforming messages stamping drops the tenant elements, keeps the others in order and appends the tenant's element |
| `CollectorPool.StepInv` | internal/syslog/pool.go:37-125 | every event keeps: each connection idle, held by one call or closed; idle ones carry whole payloads; idle count within the limit |
| `CollectorPool.StreamIntegrity` | internal/syslog/pool.go:37-125 | over every interleaving the payloads complete on the wires are exactly those of the delivered calls, each once |
| `CollectorPool.ReturnedCalls` | internal/syslog/pool.go:98-125 | a call that returned nil has its payload complete exactly once, one that returned an error on no connection |
| `CollectorPool.AttemptDelivers` | internal/syslog/pool.go:104-124 | when the collector can be reached and takes the bytes, an attempt delivers, whatever else is going on |
| `CollectorPool.OneRetry` | internal/syslog/pool.go:109-121 | a first failed write closes the connection and a good second attempt delivers; a second failed write ends the call |
| `CollectorPool.ReusedInOrder` | internal/syslog/pool.go:37-67 | connections are reused in the order in which they were given back, none skipped and none thrown away while there is room |
| `CollectorPool.HealthyIsLastNews` | internal/syslog/pool.go:49-54 | over every run the health flag is the outcome of the last dial, or false after a close |
| `CollectorPool.CollectorSeesDelivered` | internal/syslog/pool.go:91-125 | over every interleaving, decoding the bytes of all connections yields exactly the multiset of delivered frames iff every delivered frame is within the scanner's cap |
| `CollectorPool.CloseIsTotal` | internal/syslog/pool.go:135-146 | `Close` leaves every connection closed iff no call holds one |
| `CollectorPool.HeldIsReached` | internal/syslog/pool.go:37-56 | a run in which a dialled connection survives `Close` |
| `CollectorPool.Collector.GetConn` | internal/syslog/pool.go:37-56 | the first idle connection or a dial; fails iff neither is there |
| `CollectorPool.Collector.Write` | internal/syslog/pool.go:109-110 | a write is one chunk, or a strict prefix followed by closing the connection |
| `CollectorPool.Collector.ReturnConn` | internal/syslog/pool.go:58-67 | keeps the connection while there is room, otherwise closes it |
| `CollectorPool.Collector.Forward` | internal/syslog/pool.go:98-125 | the call is a run of the machine, succeeds exactly when the first attempt delivers or its write failed and the second delivers, and leaves the stated number of idle connections |
| `CollectorPool.Collector.Close` | internal/syslog/pool.go:135-146 | closes the idle connections, empties the list, and keeps the invariant |
| `ConnectionRun.ServeFrame` | internal/syslog/conn.go:87-107 | the status is the one that limiter, idle connections and network determine (429, 200 or 502), and the books grow by the stamped frame exactly on 200 |
| `ConnectionRun.HandleFrames` | internal/syslog/conn.go:76-108 | the loop ends; one sample per frame read with its unstamped length; every status is explained, so 200 and 502 exactly as forwarding succeeds or fails; only the last can be an error; the forwarded frames are the stamped prefix in order |
| `ConnectionRun.HandleConnection` | internal/syslog/conn.go:74-108 | for one connection with the pool to itself: the collector decodes what it did before plus exactly the stamped prefix iff that is within its cap, which holds for counted streams when the cap allows for what stamping adds |
| `ConnectionRun.RunIsMetered` | internal/store/usage.go:202-213 | a run adds one request and the unstamped length per frame read, and one error iff it ended on a refused or undeliverable frame |
| `ConnectionRun.ChargedToTenant` | internal/store/usage.go:202-213 | a run is charged to its own tenant's syslog counters and to no others |
| `Listener.Step` | internal/syslog/server.go:148-174 | every event of any number of handlers, the pool and shutdown keeps the joint invariant: calls in flight and handlers paired one to one, streams accounted for, wires equal to the union of stamped prefixes |
| `Listener.HandlersAccounted` | internal/syslog/conn.go:76-108 | under every interleaving each handler has one sample per frame read with the length read, only the last an error, and gives a frame up only after its own call failed |
| `Listener.RefusedFrame` | internal/syslog/conn.go:87-97 | a frame the limiter refuses is not forwarded: 429 with its length, and the handler ends |
| `Listener.StreamGetsThrough` | internal/syslog/conn.go:76-108 | when limits allow and the collector takes the bytes, every frame a device sends is delivered and recorded, however the rest of the listener stands |
| `Listener.CollectorSeesUnion` | internal/syslog/conn.go:76-108 | for any number of devices at once, each has a prefix of its stream's frames on the wires, and the collector decodes exactly the union of the stamped prefixes iff these are within its cap |
| `Listener.CountedStreamsDecode` | internal/syslog/conn.go:99-101 | with devices that send counted frames, a collector cap of the frame cap plus what stamping adds is enough |
| `Listener.ShutdownClosesAll` | internal/syslog/server.go:148-160 | in every run of the listener, once shutdown has joined the handlers and closed the pool, every handler has ended and every connection is closed |
| `Listener.ShutdownCompletes` | internal/syslog/server.go:148-160 | after the stop nothing is accepted, and when the handlers have ended the pool is closed |
| `ConnectionSlots.SlotsAreExact` | internal/syslog/server.go:103-174 | a tenant's count is its unreleased slots, absent iff zero, never above the cap, and all counts together never exceed the semaphore |
| `ConnectionSlots.GrantedIff` | internal/syslog/server.go:103-115 | over every run a slot is granted iff the tenant has fewer than the configured cap, or 50, unreleased |
| `ConnectionSlots.ReleaseFrees` | internal/syslog/server.go:117-126 | a release takes exactly one from the tenant's unreleased slots |
| `ConnectionSlots.ExitFrees` | internal/syslog/server.go:166 | a handler that exits makes room for another connection |
| `ConnectionSlots.CapacityIsReached` | internal/syslog/server.go:162-169 | as many connections are accepted at once as the semaphore holds |
| `ConnectionSlots.ReleaseTwice` | internal/syslog/server.go:116-126 | releasing twice is releasing once |
| `ConnectionSlots.AcquireThenRelease` | internal/syslog/server.go:111-123 | acquiring and releasing restores the counters |
| `ConnectionSlots.ConnCounts.AcquireConnSlot` | internal/syslog/server.go:103-115 | grants iff the count is below the cap (50 when not configured) |
| `ConnectionSlots.ConnCounts.ReleaseSlot` | internal/syslog/server.go:119-124 | decrements, and removes the entry at zero |
| `Usage.Step` | internal/store/usage.go:65-199 | every event keeps the books of every counter, the channel, and the promises to flush callers |
| `Usage.Conservation` | internal/store/usage.go:65-199 | over every run on any table, for every key and each of requests, bytes and errors: found at the start + accepted = queued + accumulated + in flush + persisted + purged; offered = accepted + dropped |
| `Usage.FaultRestores` | internal/store/usage.go:136-190 | a failed flush restores exactly the accumulator it took and leaves the database alone |
| `Usage.FlushLinearises` | internal/store/usage.go:72-97 | once a flush request or `Stop` has been answered after a commit, every sample enqueued before the call is committed, and what was found plus the committed samples is exactly table plus purged rows |
| `Usage.FaultFreeFlush` | internal/store/usage.go:126-191 | if every accumulated tenant exists, a flush on a tick without faults empties the accumulator and commits everything consumed |
| `Usage.DrainAndFlush` | internal/store/usage.go:76-85 | a request or stop that the writer has seen is carried through without faults: channel and accumulator empty, everything accepted committed, the caller answered yes |
| `Usage.FlushCountersReturns` | internal/store/usage.go:222-231 | a whole `FlushCounters` call without faults returns with everything accepted before it committed |
| `Usage.StopReturns` | internal/store/usage.go:92-97 | a whole `Stop` call without faults ends the writer with everything accepted before it committed |
| `Usage.NothingLost` | internal/store/usage.go:126-191 | everything found and accepted is then in the table, except what was purged |
| `Usage.SelectBranches` | internal/store/usage.go:72-86 | what the select loop can do next, exactly |
| `Usage.RecordExactly` | internal/store/usage.go:193-199 | a sample is accepted iff fewer than 65536 wait, and otherwise dropped and counted |
| `Usage.RowsRemoved` | internal/store/usage.go:382-384 | retention removes exactly the rows before its threshold, deleting a tenant exactly the tenant's |
| `Usage.StuckForever` | internal/store/usage.go:175-183 | a counter of a deleted tenant keeps every later flush from committing, in every continuation |
| `Usage.StuckIsReached` | internal/store/usage.go:193-199 | deleting a tenant while its sample waits leads there, on any database |
| `Usage.AccumulateAllOf` | internal/store/usage.go:99-113 | accumulating samples adds exactly their totals to each counter |
| `Usage.UsageWriter.RecordSample` | internal/store/usage.go:193-199 | enqueues, or counts a drop iff the channel is full |
| `Usage.UsageWriter.AccumulateSample` | internal/store/usage.go:99-113 | adds the sample to its key |
| `Usage.UsageWriter.Drain` | internal/store/usage.go:115-124 | empties the channel into the accumulator |
| `Usage.UsageWriter.Restore` | internal/store/usage.go:138-151 | merges a snapshot key by key |
| `Usage.UsageWriter.Flush` | internal/store/usage.go:126-191 | succeeds iff nothing is to be written, or no statement fails and every tenant exists; all rows on success, no change at all on failure |
| `HourBuckets.BucketOrder` | internal/store/usage.go:203 | for four-digit years text order of hour buckets is chronological order |
| `HourBuckets.BucketReads` | internal/store/usage.go:203 | reading a bucket back: year, month, day and hour at their places, and together they name the hour in the Gregorian calendar |
| `HourBuckets.DateOfCounts` | internal/store/usage.go:203 | the date of a day has as many days before it as the closed form of the Gregorian calendar says |
| `HourBuckets.RetentionSparesToday` | internal/store/usage.go:376-385 | no bucket that counts for today lies below the retention threshold |
| `UsageQueries.RetentionIsChronological` | internal/store/usage.go:376-385 | retention deletes exactly the rows older than the cut |
| `UsageQueries.RetentionKeepsToday` | internal/store/usage.go:244-259 | retention never changes a tenant's byte usage of the current day |
| `UsageQueries.SelectsToday` | internal/store/usage.go:244-251 | a row counts for today iff it is the tenant's and its hour is not before the day's midnight |
| `UsageQueries.DailyBytesSinceMidnight` | internal/store/usage.go:244-259 | the daily usage is the bytes of all the tenant's rows since midnight |
| `UsageQueries.ColumnFrom` | internal/store/usage.go:300-308 | a chart covers exactly the tenant's rows from its first hour on |
| `UsageQueries.ChartsAgree` | internal/store/usage.go:299-371 | the per-day chart sums the per-hour one bar by bar, and per-hour, per-day and per-signal totals agree |
| `UsageQueries.DayBarIsADay` | internal/store/usage.go:304-309 | rows share a bar of the per-day chart iff they are of the same day |
| `UsageQueries.BarsAre` | internal/store/usage.go:350-356 | an hour bar and a signal bar are the sums of the rows of that hour and that signal |
| `UsageQueries.RangeHoursAre` | internal/store/usage.go:271-279 | the ranges are 24, 168 and 720 hours, and 168 for anything else |
| `UsageQueries.UsageDataTotals` | internal/store/usage.go:270-297 | for every range the request and signal charts have the same total, that of the tenant's rows of these hours, and so has the volume chart for bytes; ranges up to a week are by hour |
| `UsageQueries.DailyFromTotals` | internal/store/usage.go:244-259 | a table that holds another one plus the totals of some samples has the other's daily usage plus the bytes of those samples |
| `TokenBuckets.StepAvail` | internal/ratelimit/limiter.go:94-136 | a decision depends only on limits and available tokens, an allowed check draws exactly its cost, eviction draws nothing |
| `TokenBuckets.RequestExactly` | internal/ratelimit/limiter.go:94-112 | a request is refused iff the tenant has a positive rps limit and less than one token; unknown tenants fail the lookup, all others pass, and those without a limit leave no trace |
| `TokenBuckets.BytesExactly` | internal/ratelimit/limiter.go:116-136 | bytes are refused by the burst check iff the tenant has a positive burst limit and they exceed it or the tokens; with a quota only, or no limit, they pass |
| `TokenBuckets.TokensOverTime` | internal/ratelimit/bucket.go:15-38 | a new tenant has its whole limit, and what is drawn comes back at the limit per second, up to the limit |
| `TokenBuckets.FreshBurst` | internal/ratelimit/limiter.go:130-136 | a new tenant may send exactly its burst limit at once, and later exactly what is left and has come back |
| `TokenBuckets.FreshRequests` | internal/ratelimit/limiter.go:107-111 | of a new tenant's requests in one instant exactly its rps limit passes |
| `TokenBuckets.DefaultBuckets` | internal/ratelimit/bucket.go:18-30 | a bucket created while a limit is missing gets 100/200 requests and ten million bytes |
| `TokenBuckets.EvictedAfterAnHour` | internal/ratelimit/bucket.go:41-51 | a bucket survives an eviction iff its tenant was checked within the last hour |
| `TokenBuckets.EvictionInvisible` | internal/ratelimit/bucket.go:40-51 | from any two states that offer the same tokens, a limiter with eviction decides every run like one without |
| `TokenBuckets.EvictionInvisibleFromStart` | internal/ratelimit/bucket.go:13-51 | the same from an empty limiter |
| `TokenBuckets.WindowBound` | internal/ratelimit/limiter.go:94-136 | over any stretch of a run, what is admitted is at most the tokens at its start plus rate times its length |
| `TokenBuckets.RateBound` | internal/ratelimit/limiter.go:94-136 | over T seconds at most rps(1+T) requests and burst(1+T) bytes, across evictions |
| `TokenBuckets.GoodAlways` | internal/ratelimit/bucket.go:13-37 | every run keeps the buckets in the states the bounds start from |
| `TokenBuckets.LiveBucketIgnoresNewLimits` | internal/ratelimit/bucket.go:13-37 | a live bucket decides by the limits it was created with, a new one by the new limits |
| `Limiter.Limiter.GetOrCreateBucket` | internal/ratelimit/bucket.go:15-38 | creates full buckets with the configured or default parameters, and records the access |
| `Limiter.Limiter.AllowRPS` | internal/ratelimit/limiter.go:94-112 | decision and buckets of the specification |
| `Limiter.Limiter.AllowBytes` | internal/ratelimit/limiter.go:116-148 | burst first, then quota against the cached, queried or zero total; each reason exactly when its check fails |
| `Limiter.Limiter.GetDailyUsage` | internal/ratelimit/quota.go:14-37 | cached while valid, otherwise queried and cached for 60 s; a failed query counts as zero and is counted |
| `Limiter.CachedForAMinute` | internal/ratelimit/quota.go:14-37 | a queried total is used for sixty seconds and not a moment longer |
| `Limiter.CacheUntouched` | internal/ratelimit/quota.go:19-29 | using a cached total does not prolong it, and a failed query leaves no trace in the cache |
| `Limiter.Limiter.EvictBuckets` | internal/ratelimit/bucket.go:41-51 | the loop removes exactly the buckets idle for more than an hour |
| `Limiter.Limiter.RefreshQuotaCache` | internal/ratelimit/quota.go:41-45 | the cache is empty afterwards |
| `DailyQuota.Step` | internal/ratelimit/quota.go:14-45 | every event of concurrent checks, cache, channel, writer and clock keeps the invariant that spans them |
| `DailyQuota.EverythingStep` | internal/ratelimit/limiter.go:116-148 | one event, exactly: what passes the burst limiter or is recorded without a check comes in, what the quota refuses goes out, and nothing else changes the bytes recorded or in flight |
| `DailyQuota.ReadAccounts` | internal/store/usage.go:244-259 | at a query, the answer and the outstanding bytes are exactly all bytes of the day, recorded or in flight |
| `DailyQuota.Overshoot` | internal/ratelimit/limiter.go:138-145 | in every run from any table, an admission happens iff total + size is within the quota; then all bytes of the day, recorded or in flight, are exactly total read + outstanding then + what came in since, quota plus backlog is a bound iff total + what came in since is within the quota, and a burst limit bounds the latter |
| `DailyQuota.CallIsRun` | internal/ratelimit/limiter.go:116-148 | an uninterrupted check is a run of the concurrent machine with the verdict, cache and tokens of the limiter object |
| `DailyQuota.CacheBranch` | internal/ratelimit/quota.go:15-21 | a check uses the cached total exactly while it is less than sixty seconds old, without prolonging it |
| `DailyQuota.CacheRunsOut` | internal/ratelimit/quota.go:19-23 | when its time has come the next check asks the table |
| `DailyQuota.ClearForcesQuery` | internal/ratelimit/quota.go:41-45 | clearing the cache makes the next check ask the table |
| `DailyQuota.StaleCacheAdmits` | internal/ratelimit/quota.go:14-21 | while a cached total is valid, any number of checks is admitted on it |
| `DailyQuota.NoBoundWithoutBurst` | internal/ratelimit/quota.go:14-37 | without a burst limit, from every start with room in the quota, one query can be followed by more bytes than any given limit |
| `DailyQuota.QuotaIsExceeded` | internal/ratelimit/quota.go:14-37 | for every quota there is such a day |
| `ApiKeys.GeneratedShape` | internal/store/apikeys.go:17-58 | a generated key parses back to its id, exactly for positive ids |
| `ApiKeys.LegacyShape` | internal/store/apikeys.go:72-75 | a legacy key is exactly 32 lower-case hex digits |
| `ApiKeys.EmbeddedShape` | internal/store/apikeys.go:44-57 | a text of `ing_`, number, `_` and rest carries an id exactly for a positive 64-bit number and 48 hex digits |
| `ApiKeys.EmbeddedOnly` | internal/store/apikeys.go:44-57 | no other text carries an id |
| `ApiKeys.PrefixIs` | internal/store/tenants.go:91 | the displayed prefix is the first twelve characters |
| `ApiKeys.GenerateInjective` | internal/store/apikeys.go:17-23 | different ids or secrets give different keys |
| `ApiKeys.Step` | internal/store/tenants.go:75-150 | every statement keeps: stored keys were issued and have a tenant; dead keys stay dead; deleted ids stay deleted |
| `ApiKeys.LiveRowsRun` | internal/store/apikeys.go:139-152 | over every run the enabled, unrevoked rows of a tenant are those live at the start and those inserted, emptied by each revocation |
| `ApiKeys.LookupIff` | internal/store/apikeys.go:43-136 | a key resolves iff its hash is on an enabled, unrevoked row of an active tenant and an embedded id matches |
| `ApiKeys.ResolvesIff` | internal/store/apikeys.go:43-136 | over every run a key resolves to a tenant iff its row was live at the start or inserted and not revoked since, the tenant is active, and an embedded id matches; only issued keys resolve |
| `ApiKeys.RevokedForever` | internal/store/apikeys.go:147-152 | a revoked or lost key never resolves again |
| `ApiKeys.DeletedForever` | internal/store/tenants.go:130-133 | nothing ever resolves to a deleted tenant |
| `ApiKeys.ResolvingAfterRevoke` | internal/store/tenants.go:137-150 | once all keys of a tenant are revoked, the keys that resolve later are exactly the inserted ones, one per insertion |
| `ApiKeys.RegenerateLeavesOne` | internal/store/tenants.go:137-150 | under any interleaving, after the last revocation as many keys resolve as were inserted since; exactly the returned key does iff the tenant is active and it is the only one inserted |
| `ApiKeys.RegenerateAtOnce` | internal/store/tenants.go:137-150 | with nothing in between, exactly the returned key resolves to the active tenant, older ones are revoked, and other tenants are unaffected |
| `ApiKeys.CreatedKeyResolves` | internal/store/tenants.go:75-111 | exactly the returned key resolves to a new tenant |
| `ApiKeys.CreatedRow` | internal/store/tenants.go:80-87 | a new id, an active row with the given fields and no plaintext, and no other row touched |
| `ApiKeys.UpdatedRow` | internal/store/tenants.go:114-127 | the row read back has the given fields and its old key column; nothing else changes |
| `ApiKeys.DeletedRow` | internal/store/tenants.go:130-133 | the tenant and its keys are gone and nothing else |
| `ApiKeys.InsertedRow` | internal/store/apikeys.go:139-144 | a new key row is the tenant's, enabled, not revoked, with its prefix; other rows stay |
| `ApiKeys.InsertRefusedIff` | internal/store/apikeys.go:139-144 | an insert is refused, and changes nothing, exactly for an unknown tenant or a known hash |
| `ApiKeys.Deactivation` | internal/store/tenants.go:114-127 | deactivating silences exactly the tenant's keys and reactivating restores them |
| `ApiKeys.OverlappingRegenerations` | internal/store/tenants.go:137-150 | two overlapping regenerations leave both new keys live |
| `ApiKeys.Store.LookupTenantByKey` | internal/store/apikeys.go:43-136 | collecting candidates and comparing one by one, in any order, computes `Lookup` |
| `ApiKeys.Store.CreateAPIKey` | internal/store/apikeys.go:139-144 | fails iff the tenant is missing or the hash exists, and then changes nothing |
| `ApiKeys.Store.CreateTenant` | internal/store/tenants.go:75-111 | a fresh id, then its first key; fails iff the hash exists |
| `ApiKeys.Store.UpdateTenant` | internal/store/tenants.go:114-127 | changes the row of an existing tenant except its key column |
| `ApiKeys.Store.RegenerateKey` | internal/store/tenants.go:137-150 | revokes, then inserts; the result of `Regenerate` |
| `Migration.StepInv` | internal/store/migrate.go:57-133 | every step, and every crash, keeps what the runner knows at each point |
| `Migration.StepFinal` | internal/store/migrate.go:57-290 | no step or crash changes what the database will become |
| `Migration.CrashRecovery` | internal/store/migrate.go:57-133 | after any history of crashes a finished migration equals the uninterrupted one, and the versions are always an initial part of 1, 2 |
| `Migration.NoCollision` | internal/store/migrate.go:152-155 | a version is never inserted twice |
| `Migration.Completes` | internal/store/migrate.go:106-118 | from every reachable state a run without failures finishes |
| `Migration.RecoverableIsNeeded` | internal/store/migrate.go:73 | for every database outside the first hypothesis, one crash changes the outcome |
| `Migration.GuardIsNeeded` | internal/store/migrate.go:170-176 | for every database outside the second hypothesis, ignored ALTER failures change the outcome |
| `Migration.ColumnsFrozen` | internal/store/migrate.go:73-99 | once a version is recorded no run touches the columns again |
| `Migration.CredentialsPreserved` | internal/store/migrate.go:249-290 | after any crash history a plaintext key resolves to its tenant iff the tenant is active, the key has an accepted form, and its hash is free, its own, or shared only with higher ids |
| `Migration.DistinctKeysSurvive` | internal/store/migrate.go:249-290 | distinct, unhashed 32-hex keys of active tenants all keep resolving |
| `Migration.DataPreserved` | internal/store/migrate.go:184-290 | plaintext is gone, tenant rows are otherwise unchanged, existing key rows are unchanged, and all other keys resolve as before |
| `Migration.AdoptedShape` | internal/store/migrate.go:169-290 | a legacy database ends with all columns, no UNIQUE and all schema objects, and every new key row is enabled, of a tenant that held the key, with its first twelve characters |
| `Migration.Runner.NormalizeLegacyTenants` | internal/store/migrate.go:169-178 | the loop adds the three columns and the rebuild drops UNIQUE |
| `Migration.Runner.MigratePlaintextKeys` | internal/store/migrate.go:249-290 | the loop over the rows adopts every key and blanks every row |
| `Migration.Runner.ApplyPending` | internal/store/migrate.go:101-118 | the loop applies and records exactly the missing versions, in order |
| `Migration.Runner.Migrate` | internal/store/migrate.go:57-119 | the uninterrupted code succeeds on every database and produces `Final` |
| `LoginThrottle.PotentialPays` | internal/auth/loginlimiter.go:26-41 | every allowed attempt is paid from the potential of its interval |
| `LoginThrottle.AtMostNine` | internal/auth/loginlimiter.go:26-41 | at most nine allowed attempts per key in any closed 15-minute interval of any run |
| `LoginThrottle.AtMostFivePerWindow` | internal/auth/loginlimiter.go:26-41 | at most five per window |
| `LoginThrottle.WindowExactly` | internal/auth/loginlimiter.go:26-41 | of the attempts in the fifteen minutes from the one that opens a window, the first five are allowed and no others |
| `LoginThrottle.FreshAttemptAllowed` | internal/auth/loginlimiter.go:32-35 | an attempt without an open window is allowed and opens one of fifteen minutes, for its key alone |
| `LoginThrottle.NineIsReached` | internal/auth/loginlimiter.go:32-34 | nine is reached |
| `LoginThrottle.LoginLimiter.AllowAttempt` | internal/auth/loginlimiter.go:26-41 | the specification's decision and entries |
| `Downloads.DeliveredAsCreated` | internal/pki/download.go:47-88 | a delivery is exactly what one earlier creation stored, within its ten minutes |
| `Downloads.SingleUse` | internal/pki/download.go:64-88 | each token yields its payload at most once, whatever interleaves |
| `Downloads.GoodForTenMinutes` | internal/pki/download.go:64-118 | consumed for the first time, a token yields what was created iff no more than ten minutes have passed, whatever sweeps happen |
| `Downloads.Zero` | internal/pki/download.go:120-124 | every byte is zero afterwards |
| `Downloads.DownloadManager.CreateToken` | internal/pki/download.go:47-60 | stores the buffers with a ten-minute expiry |
| `Downloads.DownloadManager.ConsumeToken` | internal/pki/download.go:64-88 | the specification's outcome; fresh copies equal to the stored bytes; a removed key buffer is all zero |
| `Downloads.DownloadManager.Cleanup` | internal/pki/download.go:98-118 | the sweep removes exactly the expired tokens and zeroes their keys |

## Left out

- HTTP servers, reverse proxy, TLS, socket deadlines and `closeGracefully`: I/O; only success or failure of dials and writes and finite input streams are represented.
- The health check before the frame loop, and `poolConn.dead`, which is never set.
- Lookup errors inside the limiter are one outcome (`LookupFailed`); the connection loop sees only allowed or refused.
- 64-bit overflow of counters, sizes and ids: integers are unbounded, except where keys and frame lengths are parsed.
- Floating-point rounding and the internals of `x/time/rate`, and an eviction between the two lock regions of one check.
- `FlushCounters` overlapping `Stop`: the request is then never answered; only calls made before `Stop` are covered.
- DailyQuota.Overshoot: assumes no purge or deletion of the tenant's rows of the day, and speaks of checks whose total came from a query that succeeded; a failed query counts as zero and gives no bound.
- Row order of query results (`ORDER BY`), `usage_logs`, timestamps, `last_used_at`, and row ids of `api_keys`.
- Reading and sorting the embedded migration files: the list 1, 2 is fixed. Databases with other recorded versions are not considered.
- Login entries and rate-limit entries are kept in maps; memory growth is not considered.
- `Used` of a download token is never set by the code; the branch is modelled and shown not to matter.
- `internal/ingest`, `internal/config`, the step-ca client, sessions, CSRF, the admin UI and deployment files: libraries, presentation, or lists of independent checks.
