/** The per-connection loop of internal/syslog/conn.go, from the bytes a device sends to the
    bytes the collector receives. */
module ConnectionRun {
  import opened ByteStrings
  import opened Framing
  import Rfc5424
  import opened CollectorPool
  import U = Usage

  /** One `RecordUsage` call: status and the length of the frame as it was read. */
  datatype Sample = Sample(status: int, bytes: nat)

  /** What the environment decides about one frame: the two limiter verdicts and the two
      forwarding attempts. */
  datatype Verdict = Verdict(rpsAllowed: bool, bytesAllowed: bool, first: Attempt, second: Attempt)

  function StampAll(frames: seq<Bytes>, id: int, name: Bytes): seq<Bytes>
  {
    if frames == [] then []
    else StampAll(frames[..|frames| - 1], id, name) + [Rfc5424.Stamp(frames[|frames| - 1], id, name)]
  }

  function Accepted(frames: seq<Bytes>): seq<Sample>
  {
    if frames == [] then []
    else Accepted(frames[..|frames| - 1]) + [Sample(200, |frames[|frames| - 1]|)]
  }

  /** What a run of the loop leaves behind: `sent` frames forwarded, one sample per frame read,
      at most one error sample and that one last. */
  ghost predicate Accounted(frames: seq<Bytes>, sent: nat, samples: seq<Sample>, verdicts: nat -> Verdict)
  {
    && sent <= |frames|
    && (forall i :: 0 <= i < sent ==> verdicts(i).rpsAllowed && verdicts(i).bytesAllowed)
    && if sent == |frames| then samples == Accepted(frames)
       else samples == Accepted(frames[..sent]) +
              [Sample(if verdicts(sent).rpsAllowed && verdicts(sent).bytesAllowed then 502 else 429, |frames[sent]|)]
  }

  predicate Allowed(v: Verdict) { v.rpsAllowed && v.bytesAllowed }

  /** The status of one frame when the pool has so many idle connections. */
  function StatusOf(idle: nat, frame: Bytes, v: Verdict, id: int, name: Bytes): int
  {
    if !Allowed(v) then 429
    else if ForwardSucceeds(idle, Rfc5424.Stamp(frame, id, name), v.first, v.second) then 200
    else 502
  }

  /** Idle connections before the `i`-th frame, when all earlier ones were forwarded. */
  function IdleAt(
    start: nat, maxConns: int, frames: seq<Bytes>, verdicts: nat -> Verdict, id: int, name: Bytes, i: nat): nat
    requires i <= |frames|
  {
    if i == 0 then start
    else IdleAfter(IdleAt(start, maxConns, frames, verdicts, id, name, i - 1), maxConns,
                   Rfc5424.Stamp(frames[i - 1], id, name), verdicts(i - 1).first)
  }

  /** The `i`-th status is the one that the limiter, the pool and the network determine. */
  ghost predicate Explained(
    start: nat, maxConns: int, frames: seq<Bytes>, verdicts: nat -> Verdict, id: int, name: Bytes,
    i: nat, status: int)
    requires i < |frames|
  {
    status == StatusOf(IdleAt(start, maxConns, frames, verdicts, id, name, i), frames[i], verdicts(i), id, name)
  }

  lemma StampAllAppend(frames: seq<Bytes>, f: Bytes, id: int, name: Bytes)
    ensures StampAll(frames + [f], id, name) == StampAll(frames, id, name) + [Rfc5424.Stamp(f, id, name)]
    ensures multiset(StampAll(frames + [f], id, name)) ==
            multiset(StampAll(frames, id, name)) + multiset{Rfc5424.Stamp(f, id, name)}
    ensures Accepted(frames + [f]) == Accepted(frames) + [Sample(200, |f|)]
  {
    hide Rfc5424.Stamp;
    assert (frames + [f])[..|frames|] == frames;
  }

  lemma BookOfForward(before: seq<Op>, after: seq<Op>, frame: Bytes, delivered: bool)
    requires |after| == |before| + 1 && after[|before|] == Op(frame, if delivered then Succeeded else Failed)
    requires forall i :: 0 <= i < |before| ==> after[i] == before[i]
    ensures Book(after, FrameOf) == Book(before, FrameOf) + if delivered then multiset{frame} else multiset{}
  {
    assert after[..|before|] == before;
  }

  /** One frame: limiter checks, stamping, forwarding. The books grow by the stamped frame
      exactly when the status is 200. */
  method ServeFrame(frame: Bytes, v: Verdict, id: int, name: Bytes, pool: Collector) returns (status: int)
    requires Consistent(pool.View())
    modifies pool
    ensures Consistent(pool.View()) && old(pool.ops) <= pool.ops
    ensures status == StatusOf(old(|pool.idle|), frame, v, id, name)
    ensures status == 200 ==>
            |pool.idle| == IdleAfter(old(|pool.idle|), pool.maxConns, Rfc5424.Stamp(frame, id, name), v.first)
    ensures Book(pool.ops, FrameOf) == old(Book(pool.ops, FrameOf)) +
              if status == 200 then multiset{Rfc5424.Stamp(frame, id, name)} else multiset{}
  {
    hide Inv, Run, EnabledAll, Book, Ledger, Rfc5424.Stamp;
    if !v.rpsAllowed {
      return 429;
    }
    if !v.bytesAllowed {
      return 429;
    }
    var stamped := Rfc5424.StampSyslogMessage(frame, id, name);
    ghost var before := pool.View();
    var ok, es := pool.Forward(stamped, v.first, v.second);
    RunKeeps(before, es, FrameOf);
    BookOfForward(before.ops, pool.ops, stamped, ok);
    status := if ok then 200 else 502;
  }

  /** The outcome of a run: the frames are accounted for, and every status is explained. */
  ghost predicate Served(
    frames: seq<Bytes>, sent: nat, samples: seq<Sample>, verdicts: nat -> Verdict,
    start: nat, maxConns: int, id: int, name: Bytes)
  {
    && Accounted(frames, sent, samples, verdicts) && |samples| <= |frames|
    && forall i :: 0 <= i < |samples| ==>
         Explained(start, maxConns, frames, verdicts, id, name, i, samples[i].status)
  }

  /** A run after `n` forwarded frames, with `idle` connections idle. */
  ghost predicate Serving(
    frames: seq<Bytes>, n: nat, samples: seq<Sample>, verdicts: nat -> Verdict,
    start: nat, maxConns: int, id: int, name: Bytes, idle: nat)
  {
    && n <= |frames| && samples == Accepted(frames[..n]) && |samples| == n
    && idle == IdleAt(start, maxConns, frames, verdicts, id, name, n)
    && (forall i :: 0 <= i < n ==> verdicts(i).rpsAllowed && verdicts(i).bytesAllowed)
    && (forall i :: 0 <= i < n ==>
          Explained(start, maxConns, frames, verdicts, id, name, i, samples[i].status))
  }

  lemma ServingStep(
    frames: seq<Bytes>, n: nat, samples: seq<Sample>, verdicts: nat -> Verdict,
    start: nat, maxConns: int, id: int, name: Bytes, idle: nat)
    requires Serving(frames, n, samples, verdicts, start, maxConns, id, name, idle) && n < |frames|
    ensures var status := StatusOf(idle, frames[n], verdicts(n), id, name);
            var more := samples + [Sample(status, |frames[n]|)];
            if status == 200 then
              Serving(frames, n + 1, more, verdicts, start, maxConns, id, name,
                      IdleAfter(idle, maxConns, Rfc5424.Stamp(frames[n], id, name), verdicts(n).first))
            else Served(frames, n, more, verdicts, start, maxConns, id, name)
  {
    hide Rfc5424.Stamp, ForwardSucceeds, IdleAfter;
    assert frames[..n + 1] == frames[..n] + [frames[n]];
    StampAllAppend(frames[..n], frames[n], id, name);
    hide Accepted;
    assert Explained(start, maxConns, frames, verdicts, id, name, n,
                     StatusOf(idle, frames[n], verdicts(n), id, name));
  }

  lemma ServingEnds(
    frames: seq<Bytes>, samples: seq<Sample>, verdicts: nat -> Verdict,
    start: nat, maxConns: int, id: int, name: Bytes, idle: nat)
    requires Serving(frames, |frames|, samples, verdicts, start, maxConns, id, name, idle)
    ensures Served(frames, |frames|, samples, verdicts, start, maxConns, id, name)
  {
    hide Explained, Accepted, IdleAt;
    assert frames[..|frames|] == frames;
  }

  lemma ServingStarts(
    frames: seq<Bytes>, verdicts: nat -> Verdict, start: nat, maxConns: int, id: int, name: Bytes)
    ensures Serving(frames, 0, [], verdicts, start, maxConns, id, name, start)
    ensures StampAll(frames[..0], id, name) == []
  {
  }

  /** Reads frames until the stream ends or a frame is refused. Whatever the device sends and
      the environment does: the loop ends; every frame read yields exactly one sample carrying
      the length read; only the last sample can be an error; each status is the one that limiter,
      pool and network determine; and the pool's books grow by exactly the stamped frames read so
      far, in order. */
  method HandleFrames(stream: Bytes, maxFrame: int, id: int, name: Bytes, verdicts: nat -> Verdict, pool: Collector)
    returns (samples: seq<Sample>, ghost sent: nat)
    requires Consistent(pool.View())
    modifies pool
    ensures Consistent(pool.View()) && old(pool.ops) <= pool.ops
    ensures var frames := ReadAll(stream, maxFrame).0;
            && Served(frames, sent, samples, verdicts, old(|pool.idle|), pool.maxConns, id, name)
            && Book(pool.ops, FrameOf) == old(Book(pool.ops, FrameOf)) + multiset(StampAll(frames[..sent], id, name))
  {
    hide Consistent, Rfc5424.Stamp, ReadAll, Scan, Book, StampAll, Served, Serving, StatusOf, IdleAfter;
    ghost var all, start := ReadAll(stream, maxFrame).0, |pool.idle|;
    var scanner := new FrameScanner(stream, maxFrame);
    var n := 0;
    samples, sent := [], 0;
    ServingStarts(all, verdicts, start, pool.maxConns, id, name);
    while true
      invariant scanner.maxFrame == maxFrame && sent == n <= |all|
      invariant Consistent(pool.View()) && old(pool.ops) <= pool.ops
      invariant ReadAll(scanner.unread, maxFrame).0 == all[n..]
      invariant Serving(all, n, samples, verdicts, start, pool.maxConns, id, name, |pool.idle|)
      invariant Book(pool.ops, FrameOf) == old(Book(pool.ops, FrameOf)) + multiset(StampAll(all[..n], id, name))
      decreases |scanner.unread|
    {
      ReadAllUnfold(scanner.unread, maxFrame);
      var frame := scanner.ReadFrame();
      if !frame.Frame? {
        assert n == |all|;
        ServingEnds(all, samples, verdicts, start, pool.maxConns, id, name, |pool.idle|);
        return;
      }
      NextFrame(all, n, frame.body, ReadAll(scanner.unread, maxFrame).0, id, name);
      ServingStep(all, n, samples, verdicts, start, pool.maxConns, id, name, |pool.idle|);
      var status := ServeFrame(frame.body, verdicts(n), id, name, pool);
      samples := samples + [Sample(status, |frame.body|)];
      if status != 200 {
        return;
      }
      sent, n := sent + 1, n + 1;
    }
  }

  /** Reading one more frame. */
  lemma NextFrame(all: seq<Bytes>, n: nat, f: Bytes, rest: seq<Bytes>, id: int, name: Bytes)
    requires n <= |all| && all[n..] == [f] + rest
    ensures n < |all| && all[n] == f && all[n + 1..] == rest
    ensures multiset(StampAll(all[..n + 1], id, name)) ==
            multiset(StampAll(all[..n], id, name)) + multiset{Rfc5424.Stamp(f, id, name)}
  {
    assert all[n + 1..] == all[n..][1..];
    assert all[..n + 1] == all[..n] + [f];
    StampAllAppend(all[..n], f, id, name);
  }

  predicate AllWithin(frames: seq<Bytes>, maxFrame: int)
  {
    forall i :: 0 <= i < |frames| ==> |frames[i]| <= maxFrame
  }

  /** Delivered frames are within a cap when the books are, before a run and for what it adds. */
  lemma WithinAfter(before: seq<Op>, after: seq<Op>, more: seq<Bytes>, maxFrame: int)
    requires Book(after, FrameOf) == Book(before, FrameOf) + multiset(more) && DeliveredWithin(before, maxFrame)
    ensures DeliveredWithin(after, maxFrame) <==> AllWithin(more, maxFrame)
  {
    hide Book;
    if DeliveredWithin(after, maxFrame) {
      forall i | 0 <= i < |more| ensures |more[i]| <= maxFrame {
        assert more[i] in multiset(more);
        BookMember(after, more[i]);
      }
    }
    if AllWithin(more, maxFrame) {
      forall o | 0 <= o < |after| && Delivered(after[o].pc) ensures |after[o].frame| <= maxFrame {
        BookMember(after, after[o].frame);
        if after[o].frame in Book(before, FrameOf) {
          BookMember(before, after[o].frame);
        } else {
          assert after[o].frame in more;
        }
      }
    }
  }

  /** What stamping can add to a frame. */
  function Overhead(id: int, name: Bytes): nat
  {
    |Rfc5424.TenantBlock(id)| + |Rfc5424.MsgPrefix(id, name)| + 1
  }

  /** A collector that allows for the overhead accepts every stamped frame within the cap. */
  lemma {:induction false} StampedWithin(frames: seq<Bytes>, id: int, name: Bytes, maxFrame: int, collectorMax: int)
    requires AllWithin(frames, maxFrame) && maxFrame + Overhead(id, name) <= collectorMax
    ensures |StampAll(frames, id, name)| == |frames| && AllWithin(StampAll(frames, id, name), collectorMax)
  {
    hide Rfc5424.Stamp, Rfc5424.TenantBlock, Rfc5424.MsgPrefix;
    if frames != [] {
      Rfc5424.StampLength(frames[|frames| - 1], id, name);
      StampedWithin(frames[..|frames| - 1], id, name, maxFrame, collectorMax);
    }
  }

  /** Streams of counted frames need no further hypothesis than that allowance. */
  lemma CountedStreamWithin(stream: Bytes, sent: nat, id: int, name: Bytes, maxFrame: int, collectorMax: int)
    requires CountedOnly(stream, maxFrame) && maxFrame + Overhead(id, name) <= collectorMax
    requires sent <= |ReadAll(stream, maxFrame).0|
    ensures AllWithin(StampAll(ReadAll(stream, maxFrame).0[..sent], id, name), collectorMax)
  {
    CountedWithinCap(stream, maxFrame);
    hide ReadAll, CountedOnly, StampAll;
    StampedWithin(ReadAll(stream, maxFrame).0[..sent], id, name, maxFrame, collectorMax);
  }

  /** End to end, for a connection that has the pool to itself: if the collector could decode
      everything before, it afterwards decodes that and exactly the stamped frames that were sent,
      if and only if these are within its cap; which they are for streams of counted frames when
      the cap allows for what stamping adds. */
  method HandleConnection(
    stream: Bytes, maxFrame: int, id: int, name: Bytes, verdicts: nat -> Verdict, pool: Collector,
    ghost collectorMax: int)
    returns (samples: seq<Sample>, ghost sent: nat)
    requires Consistent(pool.View()) && collectorMax <= MAX_INT64
    modifies pool
    ensures var frames := ReadAll(stream, maxFrame).0;
            && Served(frames, sent, samples, verdicts, old(|pool.idle|), pool.maxConns, id, name)
            && (DeliveredWithin(old(pool.ops), collectorMax) ==>
                  var stamped := StampAll(frames[..sent], id, name);
                  && (Decoded(pool.conns, collectorMax) == old(Decoded(pool.conns, collectorMax)) + multiset(stamped)
                      <==> AllWithin(stamped, collectorMax))
                  && (CountedOnly(stream, maxFrame) && maxFrame + Overhead(id, name) <= collectorMax ==>
                        AllWithin(stamped, collectorMax)))
  {
    ghost var before := pool.View();
    hide Rfc5424.Stamp, ReadAll, StampAll, Decoded, Book, Inv, Ledger, Overhead, CountedOnly, DeliveredWithin, IdleAt;
    ConsistentDecodes(before, collectorMax);
    samples, sent := HandleFrames(stream, maxFrame, id, name, verdicts, pool);
    ConsistentDecodes(pool.View(), collectorMax);
    ghost var stamped := StampAll(ReadAll(stream, maxFrame).0[..sent], id, name);
    if DeliveredWithin(before.ops, collectorMax) {
      WithinAfter(before.ops, pool.ops, stamped, collectorMax);
      if CountedOnly(stream, maxFrame) && maxFrame + Overhead(id, name) <= collectorMax {
        CountedStreamWithin(stream, sent, id, name, maxFrame, collectorMax);
      }
    }
  }

  // ----- what the run adds to the tenant's counters -----

  /** `RecordUsage`: one request, the bytes, and an error from status 400 on. */
  function UsageOf(x: Sample, id: int, hour: Bytes): U.Sample
  {
    U.Sample(U.Key(id, "syslog", hour), 1, x.bytes, x.status >= 400)
  }

  /** One counter summed over all samples, whatever hours they fall in. */
  function Metered(samples: seq<Sample>, id: int, hours: nat -> Bytes, f: U.Measure): nat
  {
    if samples == [] then 0
    else
      var last := |samples| - 1;
      Metered(samples[..last], id, hours, f) + U.Amount(UsageOf(samples[last], id, hours(last)), f)
  }

  function Lengths(frames: seq<Bytes>): nat
  {
    if frames == [] then 0 else Lengths(frames[..|frames| - 1]) + |frames[|frames| - 1]|
  }

  lemma MeteredAppend(samples: seq<Sample>, x: Sample, id: int, hours: nat -> Bytes, f: U.Measure)
    ensures Metered(samples + [x], id, hours, f) ==
            Metered(samples, id, hours, f) + U.Amount(UsageOf(x, id, hours(|samples|)), f)
  {
    assert (samples + [x])[..|samples|] == samples;
  }

  lemma LengthsAppend(frames: seq<Bytes>, f: Bytes)
    ensures Lengths(frames + [f]) == Lengths(frames) + |f|
  {
    assert (frames + [f])[..|frames|] == frames;
  }

  lemma {:induction false} AcceptedMetered(frames: seq<Bytes>, id: int, hours: nat -> Bytes, f: U.Measure)
    ensures |Accepted(frames)| == |frames|
    ensures Metered(Accepted(frames), id, hours, f) ==
            match f case Requests => |frames| case Volume => Lengths(frames) case Errors => 0
  {
    if frames != [] {
      hide Metered;
      var front, last := frames[..|frames| - 1], frames[|frames| - 1];
      AcceptedMetered(front, id, hours, f);
      MeteredAppend(Accepted(front), Sample(200, |last|), id, hours, f);
    } else {
      assert Metered([], id, hours, f) == 0;
    }
  }

  /** The counters grow by one request and the unstamped length per frame read, and by one error
      exactly when the run ended with a refused or undeliverable frame. */
  lemma RunIsMetered(
    frames: seq<Bytes>, sent: nat, samples: seq<Sample>, verdicts: nat -> Verdict, id: int, hours: nat -> Bytes,
    f: U.Measure)
    requires Accounted(frames, sent, samples, verdicts)
    ensures |samples| == if sent < |frames| then sent + 1 else sent
    ensures Metered(samples, id, hours, f) ==
            match f
            case Requests => |samples|
            case Volume => Lengths(frames[..|samples|])
            case Errors => if sent < |frames| then 1 else 0
  {
    hide Metered, Accepted, Lengths;
    AcceptedMetered(frames[..sent], id, hours, f);
    if sent == |frames| {
      assert frames[..sent] == frames;
    } else {
      MeteredAppend(Accepted(frames[..sent]), samples[sent], id, hours, f);
      assert frames[..sent + 1] == frames[..sent] + [frames[sent]];
      LengthsAppend(frames[..sent], frames[sent]);
    }
  }

  /** The samples as the usage writer gets them. */
  function AsUsage(samples: seq<Sample>, id: int, hours: nat -> Bytes): seq<U.Sample>
  {
    if samples == [] then []
    else
      var last := |samples| - 1;
      AsUsage(samples[..last], id, hours) + [UsageOf(samples[last], id, hours(last))]
  }

  /** A run is charged to its own tenant's syslog counters and to no others; within one hour the
      counter of that hour gets all of it. */
  lemma {:induction false} ChargedToTenant(samples: seq<Sample>, id: int, hours: nat -> Bytes, k: U.Key, f: U.Measure)
    ensures k.tenant != id || k.signal != "syslog" ==> U.Total(AsUsage(samples, id, hours), k, f) == 0
    ensures k.tenant == id && k.signal == "syslog" && (forall i :: 0 <= i < |samples| ==> hours(i) == k.hour) ==>
            U.Total(AsUsage(samples, id, hours), k, f) == Metered(samples, id, hours, f)
  {
    if samples != [] {
      var last := |samples| - 1;
      ChargedToTenant(samples[..last], id, hours, k, f);
      U.TotalAppend(AsUsage(samples[..last], id, hours), UsageOf(samples[last], id, hours(last)), k, f);
      hide U.Total, AsUsage, U.Amount;
    }
  }
}
