/** The syslog listener of internal/syslog/server.go with all its connection handlers
    (internal/syslog/conn.go) running at once over one collector pool: every device sends its own
    stream, frames are stamped with the device's tenant, and shutdown joins the handlers before it
    closes the pool. */
module Listener {
  import opened ByteStrings
  import opened Framing
  import opened CollectorPool
  import opened ConnectionRun
  import Rfc5424

  /** Why a handler returned: nothing more to read, a limit, or call `op` for `frame` that failed. */
  datatype Why = Exhausted | Refused | Undelivered(frame: Bytes, op: OpId)

  /** Where a handler is; `Forwarding` is inside call `op` for frame `frame`. */
  datatype Phase = Reading | Forwarding(frame: Bytes, op: OpId) | Ended(why: Why)

  /** One connection: what the device sends, its tenant, what is unread, the frames whose `Forward`
      has returned nil, and the usage samples offered. */
  datatype Feed = Feed(
    stream: Bytes, id: int, name: Bytes, unread: Bytes, sent: seq<Bytes>, samples: seq<Sample>, phase: Phase)

  datatype State = State(maxFrame: int, pool: Pool, feeds: seq<Feed>, stopping: bool, closed: bool)

  /** `Read` is one `ReadFrame` with the limiter's answers for the frame, up to the start of its
      `Forward`; `Returned` is the rest of the loop body. `JoinAndClose` is `wg.Wait` returning,
      then `pool.Close`. */
  datatype Event =
    | Accept(stream: Bytes, id: int, name: Bytes)
    | Read(handler: nat, allowed: bool)
    | Progress(event: CollectorPool.Event)
    | Returned(handler: nat)
    | Stop
    | JoinAndClose

  /** A call that has not returned. */
  predicate InFlight(pc: Pc) { !pc.Succeeded? && !pc.Failed? }

  function Init(maxConns: int, maxFrame: int): State
  {
    State(maxFrame, CollectorPool.Init(maxConns), [], false, false)
  }

  predicate Enabled(s: State, e: Event)
  {
    match e
    case Accept(_, _, _) => !s.stopping
    case Read(h, _) => h < |s.feeds| && s.feeds[h].phase.Reading?
    case Progress(pe) => !pe.Begin? && !pe.CloseAll? && CollectorPool.Enabled(s.pool, pe)
    case Returned(h) =>
      && h < |s.feeds| && s.feeds[h].phase.Forwarding?
      && s.feeds[h].phase.op < |s.pool.ops| && !InFlight(s.pool.ops[s.feeds[h].phase.op].pc)
    case Stop => !s.stopping
    case JoinAndClose =>
      && s.stopping && !s.closed && CollectorPool.Enabled(s.pool, CloseAll)
      && forall h :: 0 <= h < |s.feeds| ==> s.feeds[h].phase.Ended?
  }

  /** The handler after its call returned. */
  function Finish(f: Feed, ok: bool): Feed
    requires f.phase.Forwarding?
  {
    var frame, op := f.phase.frame, f.phase.op;
    if ok then f.(sent := f.sent + [frame], samples := f.samples + [Sample(200, |frame|)], phase := Reading)
    else f.(samples := f.samples + [Sample(502, |frame|)], phase := Ended(Undelivered(frame, op)))
  }

  /** The handler after reading; its call, if it makes one, is `op`. */
  function AfterRead(f: Feed, op: OpId, allowed: bool, maxFrame: int): Feed
  {
    var (first, rest) := Scan(f.unread, maxFrame);
    if !first.Frame? then f.(unread := rest, phase := Ended(Exhausted))
    else if !allowed then
      f.(unread := rest, samples := f.samples + [Sample(429, |first.body|)], phase := Ended(Refused))
    else f.(unread := rest, phase := Forwarding(first.body, op))
  }

  /** What is asked of the pool: the stamped frame, if one was read and allowed. */
  function Asked(f: Feed, allowed: bool, maxFrame: int): Option<Bytes>
  {
    var first := Scan(f.unread, maxFrame).0;
    if first.Frame? && allowed then Some(Rfc5424.Stamp(first.body, f.id, f.name)) else None
  }

  function WithCall(ops: seq<Op>, asked: Option<Bytes>): seq<Op>
  {
    if asked.Some? then ops + [Op(asked.value, Getting(false))] else ops
  }

  function ApplyRead(s: State, h: nat, allowed: bool): State
    requires Enabled(s, Read(h, allowed))
  {
    s.(pool := s.pool.(ops := WithCall(s.pool.ops, Asked(s.feeds[h], allowed, s.maxFrame))),
       feeds := s.feeds[h := AfterRead(s.feeds[h], |s.pool.ops|, allowed, s.maxFrame)])
  }

  function Apply(s: State, e: Event): State
    requires Enabled(s, e)
  {
    match e
    case Accept(stream, id, name) => s.(feeds := s.feeds + [Feed(stream, id, name, stream, [], [], Reading)])
    case Read(h, allowed) => ApplyRead(s, h, allowed)
    case Progress(pe) => s.(pool := CollectorPool.Apply(s.pool, pe))
    case Returned(h) =>
      s.(feeds := s.feeds[h := Finish(s.feeds[h], s.pool.ops[s.feeds[h].phase.op].pc.Succeeded?)])
    case Stop => s.(stopping := true)
    case JoinAndClose => s.(pool := CollectorPool.Apply(s.pool, CloseAll), closed := true)
  }

  // ----- what the handlers have delivered -----

  /** The frames of a connection that are on a wire: those acknowledged, and the one under way once
      its payload is complete. */
  function OnWire(f: Feed, ops: seq<Op>): seq<Bytes>
  {
    if f.phase.Forwarding? && f.phase.op < |ops| && Delivered(ops[f.phase.op].pc) then f.sent + [f.phase.frame]
    else f.sent
  }

  function Part(f: Feed, ops: seq<Op>): multiset<Bytes> { multiset(StampAll(OnWire(f, ops), f.id, f.name)) }

  /** The stamped frames of all connections together. */
  function Union(feeds: seq<Feed>, ops: seq<Op>): multiset<Bytes>
  {
    if feeds == [] then multiset{}
    else Union(feeds[..|feeds| - 1], ops) + Part(feeds[|feeds| - 1], ops)
  }

  // ----- invariants -----

  /** One handler against its stream: what it has sent and what is left are the frames of the
      stream, every frame read has one sample with the length read, and only the last can be an
      error. */
  ghost predicate StreamOk(f: Feed, maxFrame: int)
  {
    var frames := ReadAll(f.stream, maxFrame).0;
    match f.phase
    case Reading => f.sent + ReadAll(f.unread, maxFrame).0 == frames && f.samples == Accepted(f.sent)
    case Forwarding(frame, _) =>
      f.sent + ([frame] + ReadAll(f.unread, maxFrame).0) == frames && f.samples == Accepted(f.sent)
    case Ended(why) => EndedOk(f, frames, why)
  }

  ghost predicate EndedOk(f: Feed, frames: seq<Bytes>, why: Why)
  {
    match why
    case Exhausted => f.sent == frames && f.samples == Accepted(f.sent)
    case Refused => CutShort(f, frames) && f.samples == Accepted(f.sent) + [Sample(429, |frames[|f.sent|]|)]
    case Undelivered(frame, _) =>
      && CutShort(f, frames) && frame == frames[|f.sent|]
      && f.samples == Accepted(f.sent) + [Sample(502, |frame|)]
  }

  predicate CutShort(f: Feed, frames: seq<Bytes>) { |f.sent| < |frames| && f.sent == frames[..|f.sent|] }

  /** One handler against its calls: the call under way carries the stamped frame, and a frame is
      given up only when its call has failed. */
  predicate CallOk(f: Feed, ops: seq<Op>)
  {
    match f.phase
    case Reading => true
    case Forwarding(frame, op) => op < |ops| && ops[op].frame == Rfc5424.Stamp(frame, f.id, f.name)
    case Ended(Undelivered(frame, op)) =>
      op < |ops| && ops[op].pc.Failed? && ops[op].frame == Rfc5424.Stamp(frame, f.id, f.name)
    case Ended(_) => true
  }

  ghost predicate FeedsOk(s: State)
  {
    && (forall h :: 0 <= h < |s.feeds| ==> StreamOk(s.feeds[h], s.maxFrame))
    && (forall h :: 0 <= h < |s.feeds| ==> CallOk(s.feeds[h], s.pool.ops))
  }

  predicate InCall(f: Feed, o: OpId) { f.phase.Forwarding? && f.phase.op == o }

  /** Calls in flight and handlers inside a call belong together one to one. */
  ghost predicate Paired(feeds: seq<Feed>, ops: seq<Op>)
  {
    && (forall o :: 0 <= o < |ops| && InFlight(ops[o].pc) ==> Runs(feeds, o))
    && (forall g, h :: 0 <= g < h < |feeds| && feeds[g].phase.Forwarding? ==> !InCall(feeds[h], feeds[g].phase.op))
  }

  /** Some handler is inside call `o`. */
  ghost predicate Runs(feeds: seq<Feed>, o: OpId) { exists h :: 0 <= h < |feeds| && InCall(feeds[h], o) }

  predicate AllEnded(feeds: seq<Feed>) { forall h :: 0 <= h < |feeds| ==> feeds[h].phase.Ended? }

  predicate AllClosed(conns: seq<Conn>) { forall c :: 0 <= c < |conns| ==> conns[c].state == Closed }

  ghost predicate Inv(s: State)
  {
    && Consistent(s.pool) && Paired(s.feeds, s.pool.ops) && FeedsOk(s)
    && Book(s.pool.ops, FrameOf) == Union(s.feeds, s.pool.ops)
    && (s.closed ==> s.stopping && AllEnded(s.feeds) && AllClosed(s.pool.conns))
  }

  // ----- the union of the parts -----

  lemma {:induction false} UnionSame(a: seq<Feed>, b: seq<Feed>, ops: seq<Op>, ops': seq<Op>)
    requires |a| == |b| && forall h :: 0 <= h < |a| ==> Part(a[h], ops) == Part(b[h], ops')
    ensures Union(a, ops) == Union(b, ops')
  {
    hide Part;
    if a != [] {
      UnionSame(a[..|a| - 1], b[..|b| - 1], ops, ops');
    }
  }

  lemma {:induction false} UnionAdd(feeds: seq<Feed>, h: nat, ops: seq<Op>, ops': seq<Op>, x: Bytes)
    requires h < |feeds| && Part(feeds[h], ops') == Part(feeds[h], ops) + multiset{x}
    requires forall g :: 0 <= g < |feeds| && g != h ==> Part(feeds[g], ops') == Part(feeds[g], ops)
    ensures Union(feeds, ops') == Union(feeds, ops) + multiset{x}
  {
    hide Part;
    var last := |feeds| - 1;
    if h == last {
      UnionSame(feeds[..last], feeds[..last], ops, ops');
    } else {
      UnionAdd(feeds[..last], h, ops, ops', x);
    }
  }

  // ----- progress of the pool -----

  /** Only call `o`, which is in flight, has moved. */
  predicate Moved(ops: seq<Op>, ops': seq<Op>, o: OpId)
  {
    && |ops'| == |ops| && o < |ops| && InFlight(ops[o].pc) && ops'[o].frame == ops[o].frame
    && (forall i :: 0 <= i < |ops| && i != o ==> ops'[i] == ops[i])
    && (Delivered(ops[o].pc) ==> Delivered(ops'[o].pc))
  }

  /** The frame of a call that has just become delivered. */
  function Gain(ops: seq<Op>, ops': seq<Op>, o: OpId): multiset<Bytes>
    requires o < |ops| && o < |ops'|
  {
    if Delivered(ops'[o].pc) && !Delivered(ops[o].pc) then multiset{ops[o].frame} else multiset{}
  }

  /** Progress moves one call, and the book grows by what that gains. */
  lemma ProgressBook(p: Pool, e: CollectorPool.Event)
    requires CollectorPool.Enabled(p, e) && !e.Begin? && !e.CloseAll?
    ensures var q := CollectorPool.Apply(p, e);
            && Moved(p.ops, q.ops, e.op)
            && Book(q.ops, FrameOf) == Book(p.ops, FrameOf) + Gain(p.ops, q.ops, e.op)
  {
    hide Encode, ChunkConn, CollectorPool.Start, Book;
    var q := CollectorPool.Apply(p, e);
    if Delivered(q.ops[e.op].pc) && !Delivered(p.ops[e.op].pc) {
      BookAdd(p.ops, e.op, q.ops[e.op].pc, FrameOf);
    } else {
      BookSame(p.ops, q.ops, FrameOf);
    }
  }

  lemma CallAfterMove(f: Feed, ops: seq<Op>, ops': seq<Op>, o: OpId)
    requires Moved(ops, ops', o) && CallOk(f, ops)
    ensures CallOk(f, ops')
  {
    hide Rfc5424.Stamp;
  }

  lemma PairedAfterMove(feeds: seq<Feed>, ops: seq<Op>, ops': seq<Op>, o: OpId)
    requires Moved(ops, ops', o) && Paired(feeds, ops)
    ensures Paired(feeds, ops')
  {
    hide Runs, InCall;
  }

  /** The part of a handler changes exactly when its own call becomes delivered. */
  lemma PartAfterMove(f: Feed, ops: seq<Op>, ops': seq<Op>, o: OpId)
    requires Moved(ops, ops', o) && CallOk(f, ops)
    ensures Part(f, ops') == Part(f, ops) + if InCall(f, o) then Gain(ops, ops', o) else multiset{}
  {
    hide Rfc5424.Stamp, StampAll, Accepted;
    if f.phase.Forwarding? {
      StampAllAppend(f.sent, f.phase.frame, f.id, f.name);
    }
  }

  /** Exactly one handler is inside a call in flight. */
  lemma TheRunner(feeds: seq<Feed>, ops: seq<Op>, o: OpId) returns (h: nat)
    requires Paired(feeds, ops) && o < |ops| && InFlight(ops[o].pc)
    ensures h < |feeds| && InCall(feeds[h], o)
    ensures forall g :: 0 <= g < |feeds| && g != h ==> !InCall(feeds[g], o)
  {
    assert Runs(feeds, o);
    h :| 0 <= h < |feeds| && InCall(feeds[h], o);
  }

  /** So the union grows by the frame that the call gains. */
  lemma UnionAfterMove(feeds: seq<Feed>, ops: seq<Op>, ops': seq<Op>, o: OpId)
    requires Moved(ops, ops', o) && Paired(feeds, ops)
    requires forall h :: 0 <= h < |feeds| ==> CallOk(feeds[h], ops)
    ensures Union(feeds, ops') == Union(feeds, ops) + Gain(ops, ops', o)
  {
    var h := TheRunner(feeds, ops, o);
    assert o < |ops| && |ops'| == |ops|;
    hide Paired, Part, InCall, Moved, CallOk, Union;
    forall g | 0 <= g < |feeds|
      ensures Part(feeds[g], ops') ==
              Part(feeds[g], ops) + if InCall(feeds[g], o) then Gain(ops, ops', o) else multiset{}
    {
      hide Gain;
      PartAfterMove(feeds[g], ops, ops', o);
    }
    if Gain(ops, ops', o) == multiset{} {
      UnionSame(feeds, feeds, ops, ops');
    } else {
      UnionAdd(feeds, h, ops, ops', ops[o].frame);
    }
  }

  lemma ProgressStep(s: State, e: CollectorPool.Event)
    requires Inv(s) && Enabled(s, Progress(e))
    ensures Inv(Apply(s, Progress(e)))
  {
    hide CollectorPool.Apply, CollectorPool.Enabled, CollectorPool.Inv, Book, Ledger, Union, StreamOk, CallOk, Gain;
    ProgressBook(s.pool, e);
    StepInv(s.pool, e);
    StepLedger(s.pool, e, FrameOf);
    var ops, ops' := s.pool.ops, CollectorPool.Apply(s.pool, e).ops;
    UnionAfterMove(s.feeds, ops, ops', e.op);
    PairedAfterMove(s.feeds, ops, ops', e.op);
    forall h | 0 <= h < |s.feeds| ensures CallOk(s.feeds[h], ops') {
      CallAfterMove(s.feeds[h], ops, ops', e.op);
    }
    if s.closed {
      assert Runs(s.feeds, e.op);
      EndedRunNothing(s.feeds, e.op);
    }
  }

  lemma EndedRunNothing(feeds: seq<Feed>, o: OpId)
    requires AllEnded(feeds)
    ensures !Runs(feeds, o)
  {
  }

  // ----- the handlers' own steps -----

  /** Changing one handler whose part stays the same. */
  lemma UnionReplace(feeds: seq<Feed>, h: nat, f: Feed, ops: seq<Op>)
    requires h < |feeds| && Part(f, ops) == Part(feeds[h], ops)
    ensures Union(feeds[h := f], ops) == Union(feeds, ops)
  {
    hide Part;
    UnionSame(feeds[h := f], feeds, ops, ops);
  }

  /** A new call changes nothing for any handler. */
  lemma NewCallForFeed(f: Feed, ops: seq<Op>, frame: Bytes)
    requires CallOk(f, ops)
    ensures CallOk(f, ops + [Op(frame, Getting(false))])
    ensures Part(f, ops + [Op(frame, Getting(false))]) == Part(f, ops)
  {
    hide Rfc5424.Stamp, StampAll;
  }

  lemma NewCallForAll(feeds: seq<Feed>, ops: seq<Op>, frame: Bytes)
    requires forall h :: 0 <= h < |feeds| ==> CallOk(feeds[h], ops)
    ensures var ops' := ops + [Op(frame, Getting(false))];
            && (forall h :: 0 <= h < |feeds| ==> CallOk(feeds[h], ops'))
            && Book(ops', FrameOf) == Book(ops, FrameOf) && Union(feeds, ops') == Union(feeds, ops)
  {
    var ops' := ops + [Op(frame, Getting(false))];
    assert ops'[..|ops|] == ops;
    assert Book(ops', FrameOf) == Book(ops, FrameOf) + multiset{};
    hide CallOk, Part, Book;
    forall h | 0 <= h < |feeds| ensures CallOk(feeds[h], ops') && Part(feeds[h], ops') == Part(feeds[h], ops) {
      NewCallForFeed(feeds[h], ops, frame);
    }
    UnionSame(feeds, feeds, ops, ops');
  }

  lemma NewCallForPool(p: Pool, frame: Bytes)
    requires Consistent(p)
    ensures Consistent(p.(ops := p.ops + [Op(frame, Getting(false))]))
  {
    assert p.(ops := p.ops + [Op(frame, Getting(false))]) == CollectorPool.Apply(p, Begin(frame));
    hide CollectorPool.Inv, Book, Ledger;
    StepInv(p, Begin(frame));
    StepLedger(p, Begin(frame), FrameOf);
  }

  /** The handler that reads, against its stream and its calls. */
  lemma StreamAfterRead(f: Feed, op: OpId, allowed: bool, maxFrame: int)
    requires StreamOk(f, maxFrame) && f.phase.Reading?
    ensures StreamOk(AfterRead(f, op, allowed, maxFrame), maxFrame)
  {
    ReadAllUnfold(f.unread, maxFrame);
    hide Accepted, ReadAll, Scan;
    var first, rest := Scan(f.unread, maxFrame).0, Scan(f.unread, maxFrame).1;
    if !first.Frame? {
      assert f.sent + [] == f.sent;
    } else {
      FrameAt(f.sent, first.body, ReadAll(rest, maxFrame).0);
    }
  }

  lemma FrameAt(sent: seq<Bytes>, frame: Bytes, rest: seq<Bytes>)
    ensures var all := sent + ([frame] + rest);
            |sent| < |all| && all[..|sent|] == sent && all[|sent|] == frame && sent + [frame] + rest == all
  {
  }

  lemma CallAfterRead(f: Feed, ops: seq<Op>, allowed: bool, maxFrame: int)
    requires f.phase.Reading?
    ensures var after, ops' := AfterRead(f, |ops|, allowed, maxFrame), WithCall(ops, Asked(f, allowed, maxFrame));
            CallOk(after, ops') && Part(after, ops') == Part(f, ops')
  {
    hide Scan, Rfc5424.Stamp, StampAll;
  }

  lemma PairedAfterRead(feeds: seq<Feed>, h: nat, ops: seq<Op>, allowed: bool, maxFrame: int)
    requires h < |feeds| && feeds[h].phase.Reading? && Paired(feeds, ops)
    requires forall g :: 0 <= g < |feeds| ==> CallOk(feeds[g], ops)
    ensures Paired(feeds[h := AfterRead(feeds[h], |ops|, allowed, maxFrame)],
                   WithCall(ops, Asked(feeds[h], allowed, maxFrame)))
  {
    var after, ops' := AfterRead(feeds[h], |ops|, allowed, maxFrame), WithCall(ops, Asked(feeds[h], allowed, maxFrame));
    hide Scan, Rfc5424.Stamp;
    var feeds' := feeds[h := after];
    forall o | 0 <= o < |ops'| && InFlight(ops'[o].pc) ensures Runs(feeds', o) {
      if o < |ops| {
        var g :| 0 <= g < |feeds| && InCall(feeds[g], o);
        assert InCall(feeds'[g], o);
      } else {
        assert InCall(feeds'[h], o);
      }
    }
  }

  lemma OpenWhileRunning(s: State, h: nat)
    requires h < |s.feeds| && !s.feeds[h].phase.Ended? && (s.closed ==> AllEnded(s.feeds))
    ensures !s.closed
  {
  }

  /** One handler and the list of calls change together, and nothing else does. */
  lemma Replaced(s: State, h: nat, f: Feed, ops: seq<Op>)
    requires h < |s.feeds| && !s.closed && Consistent(s.pool.(ops := ops)) && Paired(s.feeds[h := f], ops)
    requires forall g :: 0 <= g < |s.feeds| ==> StreamOk(s.feeds[g], s.maxFrame)
    requires forall g :: 0 <= g < |s.feeds| ==> CallOk(s.feeds[g], ops)
    requires StreamOk(f, s.maxFrame) && CallOk(f, ops) && Part(f, ops) == Part(s.feeds[h], ops)
    requires Book(ops, FrameOf) == Union(s.feeds, ops)
    ensures Inv(s.(pool := s.pool.(ops := ops), feeds := s.feeds[h := f]))
  {
    hide Consistent, StreamOk, CallOk, Part, Union, Book, Paired;
    UnionReplace(s.feeds, h, f, ops);
  }

  lemma ReadStep(s: State, h: nat, allowed: bool)
    requires Inv(s) && Enabled(s, Read(h, allowed))
    ensures Inv(ApplyRead(s, h, allowed))
  {
    hide Asked, AfterRead, Consistent, Paired, StreamOk, CallOk, Part, Union, Book;
    var f, ops, asked := s.feeds[h], s.pool.ops, Asked(s.feeds[h], allowed, s.maxFrame);
    OpenWhileRunning(s, h);
    StreamAfterRead(f, |ops|, allowed, s.maxFrame);
    CallAfterRead(f, ops, allowed, s.maxFrame);
    PairedAfterRead(s.feeds, h, ops, allowed, s.maxFrame);
    if asked.Some? {
      NewCallForPool(s.pool, asked.value);
      NewCallForAll(s.feeds, ops, asked.value);
    } else {
      assert s.pool.(ops := WithCall(ops, asked)) == s.pool;
    }
    hide Inv;
    Replaced(s, h, AfterRead(f, |ops|, allowed, s.maxFrame), WithCall(ops, asked));
  }

  lemma AcceptedAppend(frames: seq<Bytes>, f: Bytes)
    ensures Accepted(frames + [f]) == Accepted(frames) + [Sample(200, |f|)]
  {
    assert (frames + [f])[..|frames|] == frames;
  }

  lemma StreamAfterReturn(f: Feed, ok: bool, maxFrame: int)
    requires StreamOk(f, maxFrame) && f.phase.Forwarding?
    ensures StreamOk(Finish(f, ok), maxFrame)
  {
    hide ReadAll;
    FrameAt(f.sent, f.phase.frame, ReadAll(f.unread, maxFrame).0);
    AcceptedAppend(f.sent, f.phase.frame);
    hide Accepted;
  }

  lemma CallAfterReturn(f: Feed, ops: seq<Op>)
    requires CallOk(f, ops) && f.phase.Forwarding? && !InFlight(ops[f.phase.op].pc)
    ensures var after := Finish(f, ops[f.phase.op].pc.Succeeded?);
            CallOk(after, ops) && Part(after, ops) == Part(f, ops)
  {
    hide Rfc5424.Stamp, StampAll;
  }

  lemma PairedAfterReturn(feeds: seq<Feed>, h: nat, f: Feed, ops: seq<Op>)
    requires h < |feeds| && Paired(feeds, ops) && !f.phase.Forwarding?
    requires feeds[h].phase.Forwarding? && feeds[h].phase.op < |ops| && !InFlight(ops[feeds[h].phase.op].pc)
    ensures Paired(feeds[h := f], ops)
  {
    forall o | 0 <= o < |ops| && InFlight(ops[o].pc) ensures Runs(feeds[h := f], o) {
      var g :| 0 <= g < |feeds| && InCall(feeds[g], o);
      assert g != h && InCall(feeds[h := f][g], o);
    }
  }

  lemma ReturnedStep(s: State, h: nat)
    requires Inv(s) && Enabled(s, Returned(h))
    ensures Inv(Apply(s, Returned(h)))
  {
    var f, ops := s.feeds[h], s.pool.ops;
    var ok := ops[f.phase.op].pc.Succeeded?;
    hide Consistent, StreamOk, CallOk, Part, Union, Book, Paired;
    OpenWhileRunning(s, h);
    StreamAfterReturn(f, ok, s.maxFrame);
    CallAfterReturn(f, ops);
    PairedAfterReturn(s.feeds, h, Finish(f, ok), ops);
    assert s.pool.(ops := ops) == s.pool;
    hide Inv, Finish;
    Replaced(s, h, Finish(f, ok), ops);
  }

  lemma NewFeed(f: Feed, ops: seq<Op>, maxFrame: int)
    requires f.phase.Reading? && f.unread == f.stream && f.sent == [] && f.samples == []
    ensures StreamOk(f, maxFrame) && CallOk(f, ops) && Part(f, ops) == multiset{}
  {
    hide ReadAll;
    assert [] + ReadAll(f.stream, maxFrame).0 == ReadAll(f.stream, maxFrame).0;
  }

  lemma UnionAppend(feeds: seq<Feed>, f: Feed, ops: seq<Op>)
    requires Part(f, ops) == multiset{}
    ensures Union(feeds + [f], ops) == Union(feeds, ops)
  {
    hide Part;
    assert (feeds + [f])[..|feeds|] == feeds;
    assert Union(feeds, ops) + multiset{} == Union(feeds, ops);
  }

  lemma PairedAfterAccept(feeds: seq<Feed>, f: Feed, ops: seq<Op>)
    requires Paired(feeds, ops) && !f.phase.Forwarding?
    ensures Paired(feeds + [f], ops)
  {
    forall o | 0 <= o < |ops| && InFlight(ops[o].pc) ensures Runs(feeds + [f], o) {
      var g :| 0 <= g < |feeds| && InCall(feeds[g], o);
      assert InCall((feeds + [f])[g], o);
    }
  }

  lemma AcceptStep(s: State, stream: Bytes, id: int, name: Bytes)
    requires Inv(s) && Enabled(s, Accept(stream, id, name))
    ensures Inv(Apply(s, Accept(stream, id, name)))
  {
    hide Consistent, StreamOk, CallOk, Part, Union, Book, Paired;
    var f := Feed(stream, id, name, stream, [], [], Reading);
    NewFeed(f, s.pool.ops, s.maxFrame);
    UnionAppend(s.feeds, f, s.pool.ops);
    PairedAfterAccept(s.feeds, f, s.pool.ops);
  }

  lemma CloseShape(p: Pool)
    requires CollectorPool.Enabled(p, CloseAll)
    ensures CollectorPool.Apply(p, CloseAll).ops == p.ops
    ensures |CollectorPool.Apply(p, CloseAll).conns| == |p.conns|
  {
  }

  lemma CloseStep(s: State)
    requires Inv(s) && Enabled(s, JoinAndClose)
    ensures Inv(Apply(s, JoinAndClose))
  {
    hide CollectorPool.Inv, CollectorPool.Apply, CollectorPool.Enabled, Book, Ledger, StreamOk, CallOk, Union, Runs;
    CloseShape(s.pool);
    StepInv(s.pool, CloseAll);
    StepLedger(s.pool, CloseAll, FrameOf);
    CloseIsTotal(s.pool);
    forall o | 0 <= o < |s.pool.ops| ensures !InFlight(s.pool.ops[o].pc) {
      EndedRunNothing(s.feeds, o);
    }
  }

  /** Every event keeps the invariant. */
  lemma Step(s: State, e: Event)
    requires Inv(s) && Enabled(s, e)
    ensures Inv(Apply(s, e))
  {
    match e
    case Accept(stream, id, name) => AcceptStep(s, stream, id, name);
    case Read(h, allowed) => ReadStep(s, h, allowed);
    case Progress(pe) => ProgressStep(s, pe);
    case Returned(h) => ReturnedStep(s, h);
    case Stop => hide Consistent, StreamOk, CallOk, Union, Book;
    case JoinAndClose => CloseStep(s);
  }

  // ----- whole runs -----

  predicate EnabledAll(s: State, es: seq<Event>)
    decreases |es|
  {
    es == [] || (Enabled(s, es[0]) && EnabledAll(Apply(s, es[0]), es[1..]))
  }

  function Run(s: State, es: seq<Event>): State
    requires EnabledAll(s, es)
    decreases |es|
  {
    if es == [] then s else Run(Apply(s, es[0]), es[1..])
  }

  lemma MaxFrameStep(s: State, e: Event)
    requires Enabled(s, e)
    ensures Apply(s, e).maxFrame == s.maxFrame
  {
    hide CollectorPool.Apply, CollectorPool.Enabled, Scan, Rfc5424.Stamp;
  }

  lemma {:induction false} RunInv(s: State, es: seq<Event>)
    requires Inv(s) && EnabledAll(s, es)
    ensures Inv(Run(s, es)) && Run(s, es).maxFrame == s.maxFrame
    decreases |es|
  {
    if es != [] {
      hide Inv, Apply, Enabled;
      Step(s, es[0]);
      MaxFrameStep(s, es[0]);
      RunInv(Apply(s, es[0]), es[1..]);
    }
  }

  lemma InitInv(maxConns: int, maxFrame: int)
    ensures Inv(Init(maxConns, maxFrame))
  {
  }

  /** Because shutdown joins the handlers before `Close`, in every run of the listener every
      connection is closed once `ListenAndServe` has closed the pool, and stays closed. */
  lemma ShutdownClosesAll(maxConns: int, maxFrame: int, es: seq<Event>)
    requires EnabledAll(Init(maxConns, maxFrame), es)
    ensures var s := Run(Init(maxConns, maxFrame), es);
            s.closed ==> AllEnded(s.feeds) && AllClosed(s.pool.conns)
  {
    InitInv(maxConns, maxFrame);
    RunInv(Init(maxConns, maxFrame), es);
  }

  /** Connection-run accounting under concurrency: in every interleaving each handler has offered
      exactly one sample per frame read, with the length read; only the last can be an error; and
      a frame is given up only after its own call has failed. */
  lemma HandlersAccounted(maxConns: int, maxFrame: int, es: seq<Event>)
    requires EnabledAll(Init(maxConns, maxFrame), es)
    ensures var s := Run(Init(maxConns, maxFrame), es);
            forall h :: 0 <= h < |s.feeds| ==> StreamOk(s.feeds[h], maxFrame) && CallOk(s.feeds[h], s.pool.ops)
  {
    InitInv(maxConns, maxFrame);
    RunInv(Init(maxConns, maxFrame), es);
    hide Run, EnabledAll, StreamOk, CallOk, Consistent, Paired, Union, Book;
  }

  lemma OnWirePrefix(f: Feed, ops: seq<Op>, maxFrame: int)
    requires StreamOk(f, maxFrame)
    ensures OnWire(f, ops) <= ReadAll(f.stream, maxFrame).0
  {
    hide ReadAll, Accepted;
    if f.phase.Forwarding? { FrameAt(f.sent, f.phase.frame, ReadAll(f.unread, maxFrame).0); }
  }

  /** End to end, for any number of devices at once: in every interleaving, each handler has a
      prefix of its stream's frames on the wires, and the collector decodes exactly the union of
      these prefixes, stamped, if and only if they are within its cap. */
  lemma CollectorSeesUnion(maxConns: int, maxFrame: int, es: seq<Event>, collectorMax: int)
    requires EnabledAll(Init(maxConns, maxFrame), es) && collectorMax <= MAX_INT64
    ensures var s := Run(Init(maxConns, maxFrame), es);
            && (forall h :: 0 <= h < |s.feeds| ==>
                  OnWire(s.feeds[h], s.pool.ops) <= ReadAll(s.feeds[h].stream, maxFrame).0)
            && (Decoded(s.pool.conns, collectorMax) == Union(s.feeds, s.pool.ops) <==>
                  forall f :: f in Union(s.feeds, s.pool.ops) ==> |f| <= collectorMax)
  {
    InitInv(maxConns, maxFrame);
    RunInv(Init(maxConns, maxFrame), es);
    var s := Run(Init(maxConns, maxFrame), es);
    hide Run, EnabledAll, StreamOk, CallOk, ReadAll, Decoded, Book, Union, Paired, Consistent, OnWire;
    forall h | 0 <= h < |s.feeds| ensures OnWire(s.feeds[h], s.pool.ops) <= ReadAll(s.feeds[h].stream, maxFrame).0 {
      OnWirePrefix(s.feeds[h], s.pool.ops, maxFrame);
    }
    ConsistentDecodes(s.pool, collectorMax);
    WithinBook(s.pool.ops, collectorMax);
  }

  lemma WithinBook(ops: seq<Op>, maxFrame: int)
    ensures DeliveredWithin(ops, maxFrame) <==> forall f :: f in Book(ops, FrameOf) ==> |f| <= maxFrame
  {
    hide Book;
    if DeliveredWithin(ops, maxFrame) {
      forall f | f in Book(ops, FrameOf) ensures |f| <= maxFrame {
        BookMember(ops, f);
      }
    }
    if forall f :: f in Book(ops, FrameOf) ==> |f| <= maxFrame {
      forall o | 0 <= o < |ops| && Delivered(ops[o].pc) ensures |ops[o].frame| <= maxFrame {
        BookMember(ops, ops[o].frame);
      }
    }
  }

  lemma {:induction false} UnionMember(feeds: seq<Feed>, ops: seq<Op>, f: Bytes) returns (h: nat)
    requires f in Union(feeds, ops)
    ensures h < |feeds| && f in Part(feeds[h], ops)
  {
    hide Part;
    var last := |feeds| - 1;
    if f in Part(feeds[last], ops) {
      h := last;
    } else {
      h := UnionMember(feeds[..last], ops, f);
    }
  }

  /** With devices that send counted frames, a cap that allows for what stamping adds is enough. */
  lemma CountedStreamsDecode(maxConns: int, maxFrame: int, es: seq<Event>, collectorMax: int)
    requires EnabledAll(Init(maxConns, maxFrame), es) && collectorMax <= MAX_INT64
    requires forall h :: 0 <= h < |Run(Init(maxConns, maxFrame), es).feeds| ==>
               var f := Run(Init(maxConns, maxFrame), es).feeds[h];
               CountedOnly(f.stream, maxFrame) && maxFrame + Overhead(f.id, f.name) <= collectorMax
    ensures var s := Run(Init(maxConns, maxFrame), es);
            Decoded(s.pool.conns, collectorMax) == Union(s.feeds, s.pool.ops)
  {
    CollectorSeesUnion(maxConns, maxFrame, es, collectorMax);
    var s := Run(Init(maxConns, maxFrame), es);
    hide Run, EnabledAll, Union, OnWire, ReadAll, Decoded, CountedOnly, Overhead, StampAll;
    forall x | x in Union(s.feeds, s.pool.ops) ensures |x| <= collectorMax {
      var h := UnionMember(s.feeds, s.pool.ops, x);
      var f, wire := s.feeds[h], OnWire(s.feeds[h], s.pool.ops);
      CountedStreamWithin(f.stream, |wire|, f.id, f.name, maxFrame, collectorMax);
      assert ReadAll(f.stream, maxFrame).0[..|wire|] == wire;
      assert x in StampAll(wire, f.id, f.name);
    }
  }

  // ----- what a device can count on -----

  lemma RunCons(s: State, e: Event, es: seq<Event>)
    requires Enabled(s, e) && EnabledAll(Apply(s, e), es)
    ensures EnabledAll(s, [e] + es) && Run(s, [e] + es) == Run(Apply(s, e), es)
  {
    assert ([e] + es)[1..] == es;
  }

  lemma RunNothing(s: State)
    ensures EnabledAll(s, []) && Run(s, []) == s
  {
  }

  lemma {:induction false} RunConcat(s: State, a: seq<Event>, b: seq<Event>)
    requires EnabledAll(s, a) && EnabledAll(Run(s, a), b)
    ensures EnabledAll(s, a + b) && Run(s, a + b) == Run(Run(s, a), b)
    decreases |a|
  {
    hide Apply, Enabled;
    if a == [] {
      assert a + b == b;
    } else {
      assert (a + b)[1..] == a[1..] + b;
      RunConcat(Apply(s, a[0]), a[1..], b);
    }
  }

  function Lift(es: seq<CollectorPool.Event>): seq<Event>
  {
    if es == [] then [] else [Progress(es[0])] + Lift(es[1..])
  }

  /** A run of the pool is a run of the listener. */
  lemma {:induction false} LiftRun(s: State, es: seq<CollectorPool.Event>)
    requires CollectorPool.EnabledAll(s.pool, es) && forall i :: 0 <= i < |es| ==> !es[i].Begin? && !es[i].CloseAll?
    ensures EnabledAll(s, Lift(es)) && Run(s, Lift(es)) == s.(pool := CollectorPool.Run(s.pool, es))
    decreases |es|
  {
    if es == [] {
      RunNothing(s);
    } else {
      var e := es[0];
      assert !e.Begin? && !e.CloseAll?;
      assert Enabled(s, Progress(e)) && Apply(s, Progress(e)) == s.(pool := CollectorPool.Apply(s.pool, e));
      hide CollectorPool.Apply, CollectorPool.Enabled, Apply, Enabled;
      LiftRun(s.(pool := CollectorPool.Apply(s.pool, e)), es[1..]);
      RunCons(s, Progress(e), Lift(es[1..]));
    }
  }

  lemma CallReturns(t: State, h: nat)
    requires h < |t.feeds| && t.feeds[h].phase.Forwarding? && t.feeds[h].phase.op < |t.pool.ops|
    requires t.pool.ops[t.feeds[h].phase.op].pc == Succeeded
    ensures EnabledAll(t, [Returned(h)]) && Run(t, [Returned(h)]).feeds == t.feeds[h := Finish(t.feeds[h], true)]
  {
    hide Finish;
    assert [Returned(h)][1..] == [];
    RunNothing(Apply(t, Returned(h)));
  }

  lemma AttemptIsQuiet(op: OpId, frame: Bytes)
    ensures var es := GoodAttempt(op, frame); forall i :: 0 <= i < |es| ==> !es[i].Begin? && !es[i].CloseAll?
  {
    hide Encode;
  }

  /** The call of a handler, when the collector can be reached and takes the bytes. */
  lemma CallDelivers(s: State, h: nat) returns (es: seq<Event>)
    requires Inv(s) && h < |s.feeds| && s.feeds[h].phase.Forwarding?
    requires s.feeds[h].phase.op < |s.pool.ops| && s.pool.ops[s.feeds[h].phase.op].pc == Getting(false)
    ensures EnabledAll(s, es) && |Run(s, es).feeds| == |s.feeds|
    ensures Run(s, es).feeds[h] == Finish(s.feeds[h], true)
  {
    var op := s.feeds[h].phase.op;
    var attempt := GoodAttempt(op, s.pool.ops[op].frame);
    AttemptDelivers(s.pool, op);
    AttemptIsQuiet(op, s.pool.ops[op].frame);
    hide CollectorPool.EnabledAll, CollectorPool.Run, GoodAttempt, Inv, EnabledAll, Run, Lift, Finish;
    LiftRun(s, attempt);
    var t := s.(pool := CollectorPool.Run(s.pool, attempt));
    CallReturns(t, h);
    RunConcat(s, Lift(attempt), [Returned(h)]);
    es := Lift(attempt) + [Returned(h)];
  }

  lemma ReadStarts(s: State, h: nat)
    requires Inv(s) && h < |s.feeds| && s.feeds[h].phase.Reading?
    ensures Enabled(s, Read(h, true))
    ensures var t, first := Apply(s, Read(h, true)), Scan(s.feeds[h].unread, s.maxFrame);
            && |t.feeds| == |s.feeds| && t.feeds[h].stream == s.feeds[h].stream && t.maxFrame == s.maxFrame
            && t.feeds[h].unread == first.1
            && if first.0.Frame? then
                 && t.feeds[h].phase == Forwarding(first.0.body, |s.pool.ops|)
                 && |t.pool.ops| == |s.pool.ops| + 1 && t.pool.ops[|s.pool.ops|].pc == Getting(false)
               else t.feeds[h].phase == Ended(Exhausted)
  {
    hide Scan, Rfc5424.Stamp;
  }

  /** A frame that the limiter refuses is not forwarded: the handler records 429 with its length and
      ends. */
  lemma RefusedFrame(s: State, h: nat)
    requires h < |s.feeds| && s.feeds[h].phase.Reading? && Scan(s.feeds[h].unread, s.maxFrame).0.Frame?
    ensures Enabled(s, Read(h, false))
    ensures var t := Apply(s, Read(h, false));
            && t.pool == s.pool && t.feeds[h].phase == Ended(Refused) && t.feeds[h].sent == s.feeds[h].sent
            && t.feeds[h].samples == s.feeds[h].samples + [Sample(429, |Scan(s.feeds[h].unread, s.maxFrame).0.body|)]
  {
    hide Scan, Rfc5424.Stamp;
  }

  /** Delivery: when limits allow it and the collector takes the bytes, every frame that a device
      sends gets through, however the rest of the listener stands. */
  lemma {:induction false} StreamGetsThrough(s: State, h: nat) returns (es: seq<Event>)
    requires Inv(s) && h < |s.feeds| && s.feeds[h].phase.Reading?
    ensures EnabledAll(s, es) && h < |Run(s, es).feeds|
    ensures var f := Run(s, es).feeds[h];
            && f.stream == s.feeds[h].stream && f.phase == Ended(Exhausted)
            && f.sent == ReadAll(f.stream, s.maxFrame).0 && f.samples == Accepted(f.sent)
    decreases |s.feeds[h].unread|
  {
    ReadStarts(s, h);
    Step(s, Read(h, true));
    var t := Apply(s, Read(h, true));
    if Scan(s.feeds[h].unread, s.maxFrame).0.Frame? {
      hide Inv, Apply, Enabled, ReadAll, Accepted, Scan;
      var call := CallDelivers(t, h);
      RunInv(t, call);
      var u := Run(t, call);
      FinishKeeps(t.feeds[h]);
      var more := StreamGetsThrough(u, h);
      RunConcat(t, call, more);
      RunCons(s, Read(h, true), call + more);
      es := [Read(h, true)] + (call + more);
    } else {
      assert StreamOk(t.feeds[h], t.maxFrame);
      hide Inv, Apply, Enabled, ReadAll, Accepted;
      RunNothing(t);
      RunCons(s, Read(h, true), []);
      es := [Read(h, true)] + [];
    }
  }

  lemma FinishKeeps(f: Feed)
    requires f.phase.Forwarding?
    ensures var g := Finish(f, true); g.phase == Reading && g.unread == f.unread && g.stream == f.stream
  {
  }

  /** Shutdown gets through too: once it has begun nothing is accepted any more, and when the handlers
      have ended the pool is closed. */
  lemma ShutdownCompletes(s: State, stream: Bytes, id: int, name: Bytes)
    requires Inv(s) && !s.stopping && !s.closed && AllEnded(s.feeds)
    ensures Enabled(s, Accept(stream, id, name)) && Enabled(s, Stop)
    ensures var t := Apply(s, Stop);
            && !Enabled(t, Accept(stream, id, name)) && Enabled(t, JoinAndClose)
            && var u := Apply(t, JoinAndClose);
            && u.closed && u.stopping && AllClosed(u.pool.conns)
  {
    CloseEnabled(s.pool);
    Step(s, Stop);
    Step(Apply(s, Stop), JoinAndClose);
  }

  lemma CloseEnabled(p: Pool)
    requires CollectorPool.Inv(p)
    ensures CollectorPool.Enabled(p, CloseAll)
  {
  }
}
