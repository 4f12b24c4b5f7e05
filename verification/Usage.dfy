/** Usage accounting of internal/store/usage.go: the bounded sample channel, the accumulator
    and the transactional flush of the single writer goroutine, interleaved with recorders,
    flush requests, shutdown and other users of the database. */
module Usage {
  import opened ByteStrings
  import HourBuckets

  datatype Key = Key(tenant: int, signal: Bytes, hour: Bytes)
  datatype Sample = Sample(key: Key, requests: nat, bytes: nat, isError: bool)

  /** The three counters of a key, and a name for each of them. */
  datatype Acc = Acc(requests: nat, bytes: nat, errors: nat)
  datatype Measure = Requests | Volume | Errors

  type Counters = map<Key, Acc>

  const BUFFER_SIZE: nat := 65536

  function Add(a: Acc, b: Acc): Acc { Acc(a.requests + b.requests, a.bytes + b.bytes, a.errors + b.errors) }

  function At(m: Counters, k: Key): Acc { if k in m then m[k] else Acc(0, 0, 0) }

  function Get(a: Acc, f: Measure): nat
  {
    match f
    case Requests => a.requests
    case Volume => a.bytes
    case Errors => a.errors
  }

  /** One counter of one key. */
  function Of(m: Counters, k: Key, f: Measure): nat { Get(At(m, k), f) }

  function Weight(s: Sample): Acc { Acc(s.requests, s.bytes, if s.isError then 1 else 0) }

  /** `accumulate`. */
  function Accumulate(m: Counters, s: Sample): Counters { m[s.key := Add(At(m, s.key), Weight(s))] }

  /** Merging counters key by key: what `restore` does, and the upserts of a flush together. */
  function Merge(a: Counters, b: Counters): Counters
  {
    map k | k in a.Keys + b.Keys :: Add(At(a, k), At(b, k))
  }

  /** What a sample counts for: its requests, its bytes, and one error if it is one. */
  function Amount(x: Sample, f: Measure): nat
  {
    match f
    case Requests => x.requests
    case Volume => x.bytes
    case Errors => if x.isError then 1 else 0
  }

  /** Everything the samples add to one counter of one key. */
  function Total(samples: seq<Sample>, k: Key, f: Measure): nat
  {
    if samples == [] then 0
    else
      var last := samples[|samples| - 1];
      Total(samples[..|samples| - 1], k, f) + if last.key == k then Amount(last, f) else 0
  }

  // ----- the machine -----

  /** Why the writer is flushing, which says what it does afterwards. */
  datatype Cause = OnTick | OnRequest(id: nat) | OnStop

  /** Where the writer goroutine is. In a transaction, `pending` is the table it would commit and
      `written` the rows executed so far. */
  datatype Writer =
    | Selecting
    | Draining(cause: Cause)
    | Snapped(cause: Cause, snapshot: Counters)
    | InTx(cause: Cause, snapshot: Counters, written: set<Key>, pending: Counters)
    | Exited

  /** The database; `purged` remembers the rows that were deleted from the table. */
  datatype Db = Db(table: Counters, purged: Counters, tenants: set<int>, maxTenant: int)

  /** The history: `base` is the table the process found; `accepted` are the samples that entered
      the channel, `consumed` of them have left it, and `committed` of them are known to be in the
      table or purged from it; the rest describes flush requests, with `marks` and `stopMark` saying
      how many samples had been accepted when the call was made. */
  datatype Log = Log(
    base: Counters, accepted: seq<Sample>, offered: nat, consumed: nat, committed: nat,
    marks: map<nat, nat>, replies: map<nat, bool>, stopMark: nat, stopOk: bool)

  datatype State = State(
    ch: seq<Sample>, accum: Counters, dropped: nat, writer: Writer, stopping: bool, db: Db, log: Log)

  /** One database connection: other statements wait while a transaction is open. `Fault` is a
      failure of begin, prepare, a row or commit. `Take` serves both the select loop and
      `drain`. */
  datatype Event =
    | Record(sample: Sample)
    | Take
    | Tick
    | CallFlush(id: nat)
    | SeeRequest(id: nat)
    | CallStop
    | SeeStop
    | DrainDone
    | BeginTx
    | Row(key: Key)
    | Commit
    | Fault
    | Purge(threshold: Bytes)
    | DeleteTenant(tenant: int)
    | CreateTenant

  predicate Busy(w: Writer) { w.Snapped? || w.InTx? }

  predicate Enabled(s: State, e: Event)
  {
    match e
    case Record(_) => true
    case Take => (s.writer.Selecting? || s.writer.Draining?) && s.ch != []
    case Tick => s.writer.Selecting?
    case CallFlush(r) => r !in s.log.marks && !s.stopping
    case SeeRequest(r) => s.writer.Selecting? && r in s.log.marks && r !in s.log.replies
    case CallStop => !s.stopping
    case SeeStop => s.writer.Selecting? && s.stopping
    case DrainDone => s.writer.Draining? && s.ch == []
    case BeginTx => s.writer.Snapped?
    case Row(k) => s.writer.InTx? && k in s.writer.snapshot && k !in s.writer.written && k.tenant in s.db.tenants
    case Commit => s.writer.InTx? && s.writer.written == s.writer.snapshot.Keys
    case Fault => Busy(s.writer)
    case Purge(_) => !s.writer.InTx?
    case DeleteTenant(_) => !s.writer.InTx?
    case CreateTenant => !s.writer.InTx?
  }

  /** What the writer does when a flush is over, successful or not. */
  function Finish(s: State, cause: Cause, ok: bool): State
  {
    match cause
    case OnTick => s.(writer := Selecting)
    case OnRequest(r) => s.(writer := Selecting, log := s.log.(replies := s.log.replies[r := ok]))
    case OnStop => s.(writer := Exited, log := s.log.(stopOk := ok))
  }

  /** `flush` up to the point where it takes the snapshot; an empty one ends it. */
  function StartFlush(s: State, cause: Cause): State
  {
    if s.accum == map[] then Finish(s.(log := s.log.(committed := s.log.consumed)), cause, true)
    else s.(writer := Snapped(cause, s.accum), accum := map[])
  }

  /** `BEGIN` to `COMMIT`: the rows written so far become the table. */
  function ApplyTx(s: State, e: Event): State
    requires Enabled(s, e) && (e.BeginTx? || e.Row? || e.Commit? || e.Fault?)
  {
    match e
    case BeginTx => s.(writer := InTx(s.writer.cause, s.writer.snapshot, {}, s.db.table))
    case Row(k) =>
      s.(writer := s.writer.(written := s.writer.written + {k},
                             pending := s.writer.pending[k := Add(At(s.writer.pending, k), s.writer.snapshot[k])]))
    case Commit =>
      Finish(s.(db := s.db.(table := s.writer.pending), log := s.log.(committed := s.log.consumed)),
             s.writer.cause, true)
    case Fault => Finish(s.(accum := Merge(s.accum, s.writer.snapshot)), s.writer.cause, false)
  }

  /** Rows that leave the table go to `purged`. */
  function Discard(d: Db, gone: set<Key>): Db
  {
    d.(table := d.table - gone, purged := Merge(d.purged, d.table - (d.table.Keys - gone)))
  }

  function OlderThan(table: Counters, threshold: Bytes): set<Key>
  {
    set k | k in table && HourBuckets.Less(k.hour, threshold)
  }

  function RowsOf(table: Counters, tenant: int): set<Key> { set k | k in table && k.tenant == tenant }

  function ApplyDb(d: Db, e: Event): Db
    requires e.Purge? || e.DeleteTenant? || e.CreateTenant?
  {
    match e
    case Purge(threshold) => Discard(d, OlderThan(d.table, threshold))
    case DeleteTenant(t) => Discard(d, RowsOf(d.table, t)).(tenants := d.tenants - {t})
    case CreateTenant => d.(tenants := d.tenants + {d.maxTenant + 1}, maxTenant := d.maxTenant + 1)
  }

  /** `record`: never blocks, drops when the channel is full. */
  function ApplyRecord(s: State, x: Sample): State
  {
    var log := s.log.(offered := s.log.offered + 1);
    if |s.ch| < BUFFER_SIZE then s.(ch := s.ch + [x], log := log.(accepted := s.log.accepted + [x]))
    else s.(dropped := s.dropped + 1, log := log)
  }

  function ApplyTake(s: State): State
    requires s.ch != []
  {
    s.(ch := s.ch[1..], accum := Accumulate(s.accum, s.ch[0]), log := s.log.(consumed := s.log.consumed + 1))
  }

  function Apply(s: State, e: Event): State
    requires Enabled(s, e)
  {
    match e
    case Record(x) => ApplyRecord(s, x)
    case Take => ApplyTake(s)
    case Tick => StartFlush(s, OnTick)
    case CallFlush(r) => s.(log := s.log.(marks := s.log.marks[r := |s.log.accepted|]))
    case SeeRequest(r) => s.(writer := Draining(OnRequest(r)))
    case CallStop => s.(stopping := true, log := s.log.(stopMark := |s.log.accepted|))
    case SeeStop => s.(writer := Draining(OnStop))
    case DrainDone => StartFlush(s, s.writer.cause)
    case BeginTx => ApplyTx(s, e)
    case Row(_) => ApplyTx(s, e)
    case Commit => ApplyTx(s, e)
    case Fault => ApplyTx(s, e)
    case Purge(_) => s.(db := ApplyDb(s.db, e))
    case DeleteTenant(_) => s.(db := ApplyDb(s.db, e))
    case CreateTenant => s.(db := ApplyDb(s.db, e))
  }

  function Snapshot(w: Writer): Counters { if Busy(w) then w.snapshot else map[] }

  /** A process that starts on a database with the given table. */
  function Init(table: Counters, tenants: set<int>, maxTenant: int): State
  {
    State([], map[], 0, Selecting, false, Db(table, map[], tenants, maxTenant),
          Log(table, [], 0, 0, 0, map[], map[], 0, false))
  }

  // ----- invariants -----

  /** The channel holds the accepted samples not yet consumed. */
  predicate Queue(s: State)
  {
    && s.log.committed <= s.log.consumed <= |s.log.accepted|
    && s.ch == s.log.accepted[s.log.consumed..]
    && |s.ch| <= BUFFER_SIZE
    && s.log.offered == |s.log.accepted| + s.dropped
  }

  /** During a flush the accumulator is empty; a row is written only for an existing tenant. */
  ghost predicate WriterOk(s: State)
  {
    && (Busy(s.writer) ==> s.accum == map[] && s.writer.snapshot != map[])
    && (s.writer.InTx? ==>
          s.writer.written <= s.writer.snapshot.Keys && forall k :: k in s.writer.written ==> k.tenant in s.db.tenants)
    && (forall t :: t in s.db.tenants ==> t <= s.db.maxTenant)
  }

  function Stored(s: State, k: Key, f: Measure): nat { Of(s.db.table, k, f) + Of(s.db.purged, k, f) }

  /** One counter of one key: what the process found and the samples consumed are exactly what is
      accumulated, in the flush under way, persisted and purged; with only the first `committed`
      of them, exactly what is persisted and purged; an open transaction adds exactly the rows it has written. */
  predicate Balanced(s: State, k: Key, f: Measure)
    requires Queue(s)
  {
    && Of(s.log.base, k, f) + Total(s.log.accepted[..s.log.consumed], k, f) ==
       Of(s.accum, k, f) + Of(Snapshot(s.writer), k, f) + Stored(s, k, f)
    && Of(s.log.base, k, f) + Total(s.log.accepted[..s.log.committed], k, f) == Stored(s, k, f)
    && (s.writer.InTx? ==>
          Of(s.writer.pending, k, f) ==
          Of(s.db.table, k, f) + if k in s.writer.written then Of(s.writer.snapshot, k, f) else 0)
  }

  /** A call is answered yes only once everything enqueued before it is committed. */
  ghost predicate RequestsOk(s: State)
  {
    && (forall r :: r in s.log.marks ==> s.log.marks[r] <= |s.log.accepted|)
    && (forall r :: r in s.log.replies ==>
          r in s.log.marks && (s.log.replies[r] ==> s.log.marks[r] <= s.log.committed))
    && (s.writer.Draining? ==> CauseKnown(s, s.writer.cause))
    && (Busy(s.writer) ==> CauseKnown(s, s.writer.cause) && CauseReady(s, s.writer.cause))
    && s.log.stopMark <= |s.log.accepted|
    && (s.writer.Exited? ==> s.stopping && (s.log.stopOk ==> s.log.stopMark <= s.log.committed))
  }

  predicate CauseKnown(s: State, cause: Cause)
  {
    (cause.OnRequest? ==> cause.id in s.log.marks) && (cause.OnStop? ==> s.stopping)
  }

  /** Everything enqueued before the call has left the channel. */
  predicate CauseReady(s: State, cause: Cause)
    requires CauseKnown(s, cause)
  {
    && (cause.OnRequest? ==> s.log.marks[cause.id] <= s.log.consumed)
    && (cause.OnStop? ==> s.log.stopMark <= s.log.consumed)
  }

  ghost predicate Inv(s: State)
  {
    Queue(s) && WriterOk(s) && RequestsOk(s) && forall k, f :: Balanced(s, k, f)
  }

  lemma RecordQueue(s: State, x: Sample)
    requires Queue(s)
    ensures Queue(ApplyRecord(s, x))
  {
    hide BUFFER_SIZE;
    TailAppend(s.log.accepted, x, s.log.consumed);
  }

  lemma TailAppend(samples: seq<Sample>, x: Sample, from: nat)
    requires from <= |samples|
    ensures (samples + [x])[from..] == samples[from..] + [x]
  {
  }

  lemma TakeQueue(s: State)
    requires Queue(s) && s.ch != []
    ensures Queue(ApplyTake(s))
  {
    hide Accumulate;
    assert s.log.accepted[s.log.consumed..][1..] == s.log.accepted[s.log.consumed + 1..];
  }

  /** What a flush leaves alone: everything but the accumulator, the writer and the answers, and
      the number of committed samples can only move up to those consumed. */
  predicate SameHistory(s: State, t: State)
  {
    && t.ch == s.ch && t.dropped == s.dropped && t.log.base == s.log.base
    && t.log.accepted == s.log.accepted && t.log.consumed == s.log.consumed && t.log.offered == s.log.offered
    && (t.log.committed == s.log.committed || t.log.committed == s.log.consumed)
  }

  lemma FlushFrame(s: State, cause: Cause)
    ensures SameHistory(s, StartFlush(s, cause))
  {
  }

  lemma TxFrame(s: State, e: Event)
    requires Enabled(s, e) && (e.BeginTx? || e.Row? || e.Commit? || e.Fault?)
    ensures SameHistory(s, ApplyTx(s, e))
  {
    hide Merge, Add, At;
    match e
    case BeginTx =>
    case Row(_) =>
    case Commit =>
    case Fault =>
  }

  lemma SameQueue(s: State, t: State)
    requires Queue(s) && SameHistory(s, t)
    ensures Queue(t)
  {
  }

  lemma FlushQueue(s: State, cause: Cause)
    requires Queue(s)
    ensures Queue(StartFlush(s, cause))
  {
    hide Queue, SameHistory, StartFlush;
    FlushFrame(s, cause);
    SameQueue(s, StartFlush(s, cause));
  }

  lemma TxQueue(s: State, e: Event)
    requires Queue(s) && Enabled(s, e) && (e.BeginTx? || e.Row? || e.Commit? || e.Fault?)
    ensures Queue(ApplyTx(s, e))
  {
    hide Queue, SameHistory, ApplyTx;
    TxFrame(s, e);
    SameQueue(s, ApplyTx(s, e));
  }

  lemma QueueStep(s: State, e: Event)
    requires Queue(s) && Enabled(s, e)
    ensures Queue(Apply(s, e))
  {
    hide ApplyRecord, ApplyTake, ApplyDb, ApplyTx, StartFlush;
    match e
    case Record(x) => RecordQueue(s, x);
    case Take => TakeQueue(s);
    case Tick => FlushQueue(s, OnTick);
    case DrainDone => FlushQueue(s, s.writer.cause);
    case BeginTx => TxQueue(s, e);
    case Row(_) => TxQueue(s, e);
    case Commit => TxQueue(s, e);
    case Fault => TxQueue(s, e);
    case _ =>
  }

  lemma WriterStep(s: State, e: Event)
    requires WriterOk(s) && Enabled(s, e)
    ensures WriterOk(Apply(s, e))
  {
    hide Merge, Accumulate;
  }

  /** Ending a flush keeps the promise to its caller. */
  lemma FinishRequests(s: State, cause: Cause, ok: bool)
    requires RequestsOk(s.(writer := Selecting)) && CauseKnown(s, cause)
    requires ok ==> CauseReady(s, cause) && s.log.consumed <= s.log.committed
    ensures RequestsOk(Finish(s, cause, ok))
  {
  }

  lemma FlushRequests(s: State, cause: Cause)
    requires Queue(s) && RequestsOk(s) && !Busy(s.writer) && !s.writer.Exited?
    requires CauseKnown(s, cause) && CauseReady(s, cause)
    ensures RequestsOk(StartFlush(s, cause))
  {
    hide Queue;
    if s.accum == map[] {
      assert s.log.committed <= s.log.consumed by { QueueBounds(s); }
      FinishRequests(s.(log := s.log.(committed := s.log.consumed)), cause, true);
    }
  }

  lemma QueueBounds(s: State)
    requires Queue(s)
    ensures s.log.committed <= s.log.consumed <= |s.log.accepted|
    ensures s.ch == [] ==> s.log.consumed == |s.log.accepted|
  {
  }

  /** What the promises speak of: accepted and committed counts, calls and answers, the writer. */
  predicate SamePromises(s: State, t: State)
  {
    && t.log.marks == s.log.marks && t.log.replies == s.log.replies
    && t.log.stopMark == s.log.stopMark && t.log.stopOk == s.log.stopOk && t.stopping == s.stopping
    && |t.log.accepted| >= |s.log.accepted|
    && t.log.committed == s.log.committed && t.log.consumed >= s.log.consumed
  }

  lemma PromisesKept(s: State, t: State)
    requires RequestsOk(s) && SamePromises(s, t)
    requires t.writer == s.writer || (Busy(s.writer) && Busy(t.writer) && t.writer.cause == s.writer.cause)
    ensures RequestsOk(t)
  {
  }

  /** Events that neither make or see a call nor start or end a flush. */
  lemma QuietRequests(s: State, e: Event)
    requires RequestsOk(s) && Enabled(s, e)
    requires e.Record? || e.Take? || e.BeginTx? || e.Row? || e.Purge? || e.DeleteTenant? || e.CreateTenant?
    ensures RequestsOk(Apply(s, e))
  {
    hide RequestsOk, Accumulate, ApplyDb, Add, At, BUFFER_SIZE;
    PromisesKept(s, Apply(s, e));
  }

  lemma CallRequests(s: State, e: Event)
    requires Queue(s) && RequestsOk(s) && Enabled(s, e)
    requires e.CallFlush? || e.SeeRequest? || e.CallStop? || e.SeeStop?
    ensures RequestsOk(Apply(s, e))
  {
    QueueBounds(s);
    hide Queue;
  }

  lemma EndRequests(s: State, e: Event)
    requires Queue(s) && RequestsOk(s) && Enabled(s, e) && (e.Commit? || e.Fault?)
    ensures RequestsOk(ApplyTx(s, e))
  {
    hide Merge, Queue, Finish;
    QueueBounds(s);
    if e.Commit? {
      FinishRequests(s.(db := s.db.(table := s.writer.pending), log := s.log.(committed := s.log.consumed)),
                     s.writer.cause, true);
    } else {
      FinishRequests(s.(accum := Merge(s.accum, s.writer.snapshot)), s.writer.cause, false);
    }
  }

  lemma RequestsStep(s: State, e: Event)
    requires Queue(s) && RequestsOk(s) && Enabled(s, e)
    ensures RequestsOk(Apply(s, e))
  {
    QueueBounds(s);
    hide Queue, RequestsOk, StartFlush, ApplyTx, ApplyDb, ApplyRecord, ApplyTake;
    match e
    case Tick => FlushRequests(s, OnTick);
    case DrainDone => FlushRequests(s, s.writer.cause);
    case Commit => EndRequests(s, e);
    case Fault => EndRequests(s, e);
    case CallFlush(_) => CallRequests(s, e);
    case SeeRequest(_) => CallRequests(s, e);
    case CallStop => CallRequests(s, e);
    case SeeStop => CallRequests(s, e);
    case _ => QuietRequests(s, e);
  }

  lemma MergeOf(a: Counters, b: Counters, k: Key, f: Measure)
    ensures Of(Merge(a, b), k, f) == Of(a, k, f) + Of(b, k, f)
  {
  }

  lemma AccumulateOf(m: Counters, x: Sample, k: Key, f: Measure)
    ensures Of(Accumulate(m, x), k, f) == Of(m, k, f) + if x.key == k then Amount(x, f) else 0
  {
  }

  lemma TotalAppend(samples: seq<Sample>, x: Sample, k: Key, f: Measure)
    ensures Total(samples + [x], k, f) == Total(samples, k, f) + if x.key == k then Amount(x, f) else 0
  {
    assert (samples + [x])[..|samples|] == samples;
  }

  lemma DiscardOf(d: Db, gone: set<Key>, k: Key, f: Measure)
    ensures var d' := Discard(d, gone);
            Of(d'.table, k, f) + Of(d'.purged, k, f) == Of(d.table, k, f) + Of(d.purged, k, f)
  {
    hide Merge;
    MergeOf(d.purged, d.table - (d.table.Keys - gone), k, f);
  }

  lemma RowOf(pending: Counters, k: Key, a: Acc, j: Key, f: Measure)
    ensures Of(pending[k := Add(At(pending, k), a)], j, f) == Of(pending, j, f) + if j == k then Get(a, f) else 0
  {
  }

  lemma RecordBalance(s: State, x: Sample, k: Key, f: Measure)
    requires Queue(s) && Queue(ApplyRecord(s, x)) && Balanced(s, k, f)
    ensures Balanced(ApplyRecord(s, x), k, f)
  {
    hide Total, Of, Stored;
    var t := ApplyRecord(s, x);
    SameDb(s, t, k, f);
    assert t.log.accepted[..s.log.consumed] == s.log.accepted[..s.log.consumed];
    assert t.log.accepted[..s.log.committed] == s.log.accepted[..s.log.committed];
  }

  lemma TakeBalance(s: State, k: Key, f: Measure)
    requires Queue(s) && Enabled(s, Take) && Queue(ApplyTake(s)) && Balanced(s, k, f)
    ensures Balanced(ApplyTake(s), k, f)
  {
    hide Total, Of, Accumulate;
    var x := s.ch[0];
    assert s.log.accepted[..s.log.consumed + 1] == s.log.accepted[..s.log.consumed] + [x];
    TotalAppend(s.log.accepted[..s.log.consumed], x, k, f);
    AccumulateOf(s.accum, x, k, f);
  }

  lemma FlushBalance(s: State, cause: Cause, k: Key, f: Measure)
    requires Queue(s) && !Busy(s.writer) && Queue(StartFlush(s, cause)) && Balanced(s, k, f)
    ensures Balanced(StartFlush(s, cause), k, f)
  {
    hide Total, Queue;
  }

  lemma AbsentOf(m: Counters, k: Key, f: Measure)
    ensures k !in m ==> Of(m, k, f) == 0
    ensures Of(map[], k, f) == 0
  {
  }

  lemma CommitShape(s: State)
    requires Enabled(s, Commit)
    ensures var t := ApplyTx(s, Commit);
            && t.accum == s.accum && Snapshot(t.writer) == map[] && !t.writer.InTx?
            && t.db.table == s.writer.pending && t.db.purged == s.db.purged
            && t.log.accepted == s.log.accepted && t.log.consumed == t.log.committed == s.log.consumed
  {
  }

  lemma CommitBalance(s: State, k: Key, f: Measure)
    requires Queue(s) && WriterOk(s) && Enabled(s, Commit)
    requires Queue(ApplyTx(s, Commit)) && Balanced(s, k, f)
    ensures Balanced(ApplyTx(s, Commit), k, f)
  {
    CommitShape(s);
    hide Total, Of, Queue, ApplyTx;
    AbsentOf(s.writer.snapshot, k, f);
    AbsentOf(map[], k, f);
  }

  lemma SameDb(s: State, t: State, k: Key, f: Measure)
    requires s.db == t.db
    ensures Stored(s, k, f) == Stored(t, k, f)
  {
  }

  lemma FaultShape(s: State)
    requires Enabled(s, Fault)
    ensures var t := ApplyTx(s, Fault);
            && t.accum == Merge(s.accum, s.writer.snapshot) && Snapshot(t.writer) == map[] && !t.writer.InTx?
            && t.db == s.db && t.log.committed == s.log.committed && SameHistory(s, t)
  {
    hide Merge;
  }

  lemma FaultBalance(s: State, k: Key, f: Measure)
    requires Queue(s) && WriterOk(s) && Enabled(s, Fault)
    requires Queue(ApplyTx(s, Fault)) && Balanced(s, k, f)
    ensures Balanced(ApplyTx(s, Fault), k, f)
  {
    FaultShape(s);
    MergeOf(s.accum, s.writer.snapshot, k, f);
    AbsentOf(map[], k, f);
    SameDb(s, ApplyTx(s, Fault), k, f);
    hide Total, Of, Queue, Merge, Stored, ApplyTx, Snapshot;
    assert s.accum == map[];
    assert Snapshot(s.writer) == s.writer.snapshot by { BusySnapshot(s.writer); }
  }

  lemma BusySnapshot(w: Writer)
    requires Busy(w)
    ensures Snapshot(w) == w.snapshot
  {
  }

  lemma TxBalance(s: State, e: Event, k: Key, f: Measure)
    requires Queue(s) && WriterOk(s) && Enabled(s, e) && (e.BeginTx? || e.Row? || e.Commit? || e.Fault?)
    requires Queue(ApplyTx(s, e)) && Balanced(s, k, f)
    ensures Balanced(ApplyTx(s, e), k, f)
  {
    hide Total, Of, Add, Queue, Merge;
    match e
    case BeginTx =>
    case Row(j) =>
      RowOf(s.writer.pending, j, s.writer.snapshot[j], k, f);
      assert j == k ==> Of(s.writer.snapshot, k, f) == Get(s.writer.snapshot[j], f) by {
        OfPresent(s.writer.snapshot, j, f);
      }
    case Commit => CommitBalance(s, k, f);
    case Fault => FaultBalance(s, k, f);
  }

  lemma OfPresent(m: Counters, k: Key, f: Measure)
    requires k in m
    ensures Of(m, k, f) == Get(m[k], f)
  {
  }

  lemma DbBalance(s: State, e: Event, k: Key, f: Measure)
    requires Queue(s) && Enabled(s, e) && (e.Purge? || e.DeleteTenant? || e.CreateTenant?)
    requires Queue(s.(db := ApplyDb(s.db, e))) && Balanced(s, k, f)
    ensures Balanced(s.(db := ApplyDb(s.db, e)), k, f)
  {
    hide Total, Of, Queue, Discard;
    match e
    case Purge(threshold) => DiscardOf(s.db, OlderThan(s.db.table, threshold), k, f);
    case DeleteTenant(u) => DiscardOf(s.db, RowsOf(s.db.table, u), k, f);
    case CreateTenant =>
  }

  /** The books of every counter stay balanced. */
  lemma BalanceStep(s: State, e: Event, k: Key, f: Measure)
    requires Queue(s) && WriterOk(s) && Enabled(s, e) && Queue(Apply(s, e)) && Balanced(s, k, f)
    ensures Balanced(Apply(s, e), k, f)
  {
    hide Total, Of, Queue, WriterOk, ApplyRecord, ApplyTake, StartFlush, ApplyTx, ApplyDb;
    match e
    case Record(x) => RecordBalance(s, x, k, f);
    case Take => TakeBalance(s, k, f);
    case Tick => FlushBalance(s, OnTick, k, f);
    case DrainDone => FlushBalance(s, s.writer.cause, k, f);
    case BeginTx => TxBalance(s, e, k, f);
    case Row(_) => TxBalance(s, e, k, f);
    case Commit => TxBalance(s, e, k, f);
    case Fault => TxBalance(s, e, k, f);
    case Purge(_) => DbBalance(s, e, k, f);
    case DeleteTenant(_) => DbBalance(s, e, k, f);
    case CreateTenant => DbBalance(s, e, k, f);
    case _ =>
  }

  lemma BaseStep(s: State, e: Event)
    requires Enabled(s, e)
    ensures Apply(s, e).log.base == s.log.base
  {
    hide Accumulate, ApplyDb, ApplyTx, StartFlush;
    match e
    case Tick => FlushFrame(s, OnTick);
    case DrainDone => FlushFrame(s, s.writer.cause);
    case BeginTx => TxFrame(s, e);
    case Row(_) => TxFrame(s, e);
    case Commit => TxFrame(s, e);
    case Fault => TxFrame(s, e);
    case _ =>
  }

  /** Every event keeps the invariant. */
  lemma Step(s: State, e: Event)
    requires Inv(s) && Enabled(s, e)
    ensures Inv(Apply(s, e)) && Apply(s, e).log.base == s.log.base
  {
    BaseStep(s, e);
    hide Apply, Queue, WriterOk, RequestsOk, Balanced;
    QueueStep(s, e);
    WriterStep(s, e);
    RequestsStep(s, e);
    forall k, f ensures Balanced(Apply(s, e), k, f) {
      BalanceStep(s, e, k, f);
    }
  }

  // ----- whole runs -----

  predicate EnabledAll(s: State, es: seq<Event>)
    decreases |es|
  {
    es == [] || (Enabled(s, es[0]) && EnabledAll(Apply(s, es[0]), es[1..]))
  }

  function Run(s: State, es: seq<Event>): State
    requires EnabledAll(s, es)
    decreases |es|
  {
    if es == [] then s else Run(Apply(s, es[0]), es[1..])
  }

  lemma {:induction false} RunInv(s: State, es: seq<Event>)
    requires Inv(s) && EnabledAll(s, es)
    ensures Inv(Run(s, es)) && Run(s, es).log.base == s.log.base
    decreases |es|
  {
    if es != [] {
      hide Inv, Apply, Enabled;
      Step(s, es[0]);
      RunInv(Apply(s, es[0]), es[1..]);
    }
  }

  lemma InitInv(table: Counters, tenants: set<int>, maxTenant: int)
    requires forall t :: t in tenants ==> t <= maxTenant
    ensures Inv(Init(table, tenants, maxTenant))
  {
  }

  lemma {:induction false} TotalConcat(a: seq<Sample>, b: seq<Sample>, k: Key, f: Measure)
    ensures Total(a + b, k, f) == Total(a, k, f) + Total(b, k, f)
    decreases |b|
  {
    if b == [] {
      assert a + b == a;
    } else {
      var front, last := b[..|b| - 1], b[|b| - 1];
      assert a + b == (a + front) + [last] && b == front + [last];
      TotalConcat(a, front, k, f);
      TotalAppend(a + front, last, k, f);
      TotalAppend(front, last, k, f);
    }
  }

  /** Conservation over every run on any database and every failure: for each key and each of
      requests, bytes and errors, found at the start + accepted = queued + accumulated + being
      flushed + persisted + purged; and samples offered = accepted + dropped. */
  lemma Conservation(table: Counters, tenants: set<int>, maxTenant: int, es: seq<Event>, k: Key, f: Measure)
    requires forall t :: t in tenants ==> t <= maxTenant
    requires EnabledAll(Init(table, tenants, maxTenant), es)
    ensures var s := Run(Init(table, tenants, maxTenant), es);
            && Of(table, k, f) + Total(s.log.accepted, k, f) ==
               Total(s.ch, k, f) + Of(s.accum, k, f) + Of(Snapshot(s.writer), k, f) +
               Of(s.db.table, k, f) + Of(s.db.purged, k, f)
            && s.log.offered == |s.log.accepted| + s.dropped
            && |s.ch| <= BUFFER_SIZE
  {
    InitInv(table, tenants, maxTenant);
    RunInv(Init(table, tenants, maxTenant), es);
    var s := Run(Init(table, tenants, maxTenant), es);
    hide Total, Of, Run;
    assert Balanced(s, k, f);
    TotalConcat(s.log.accepted[..s.log.consumed], s.ch, k, f);
    assert s.log.accepted == s.log.accepted[..s.log.consumed] + s.ch;
  }

  lemma MergeEmpty(m: Counters)
    ensures Merge(map[], m) == m
  {
  }

  /** A failed flush puts the accumulator back to exactly what it was when the flush began, and
      leaves the table alone. */
  lemma FaultRestores(s: State)
    requires Inv(s) && Enabled(s, Fault)
    ensures Apply(s, Fault).accum == s.writer.snapshot && Apply(s, Fault).db == s.db
  {
    hide Merge, Balanced;
    MergeEmpty(s.writer.snapshot);
  }

  /** Linearisation: once `FlushCounters` or `Stop` has returned after a successful commit, every
      sample enqueued before the call is among the first `committed`, and those are exactly the
      contents of the table and what was purged from it. */
  lemma FlushLinearises(table: Counters, tenants: set<int>, maxTenant: int, es: seq<Event>)
    requires forall t :: t in tenants ==> t <= maxTenant
    requires EnabledAll(Init(table, tenants, maxTenant), es)
    ensures var s := Run(Init(table, tenants, maxTenant), es);
            && (forall r :: r in s.log.replies && s.log.replies[r] ==>
                  r in s.log.marks && s.log.marks[r] <= s.log.committed)
            && (s.writer.Exited? && s.log.stopOk ==> s.log.stopMark <= s.log.committed)
            && s.log.committed <= |s.log.accepted|
            && (forall k, f :: Of(table, k, f) + Total(s.log.accepted[..s.log.committed], k, f) ==
                               Of(s.db.table, k, f) + Of(s.db.purged, k, f))
  {
    InitInv(table, tenants, maxTenant);
    RunInv(Init(table, tenants, maxTenant), es);
    var s := Run(Init(table, tenants, maxTenant), es);
    hide Total, Of, Run;
    forall k, f ensures Of(table, k, f) + Total(s.log.accepted[..s.log.committed], k, f) ==
                        Of(s.db.table, k, f) + Of(s.db.purged, k, f)
    {
      assert Balanced(s, k, f);
    }
  }

  // ----- progress -----

  /** A counter waits for a tenant that is gone; ids are never handed out twice. */
  predicate Stuck(s: State, k: Key)
  {
    && (k in s.accum || k in Snapshot(s.writer))
    && k.tenant !in s.db.tenants && k.tenant <= s.db.maxTenant
  }

  predicate Shrunk(table: Counters, before: Counters)
  {
    forall j :: j in table ==> j in before && table[j] == before[j]
  }

  lemma StuckStep(s: State, e: Event, k: Key)
    requires WriterOk(s) && Enabled(s, e) && Stuck(s, k)
    ensures var t := Apply(s, e);
            Stuck(t, k) && t.log.committed == s.log.committed && Shrunk(t.db.table, s.db.table)
  {
    hide ApplyTx, StartFlush, Discard, Merge;
    match e
    case Tick => StuckFlush(s, OnTick, k);
    case DrainDone => StuckFlush(s, s.writer.cause, k);
    case BeginTx => StuckTx(s, e, k);
    case Row(_) => StuckTx(s, e, k);
    case Commit => StuckTx(s, e, k);
    case Fault => StuckTx(s, e, k);
    case Purge(threshold) => StuckDiscard(s.db, OlderThan(s.db.table, threshold));
    case DeleteTenant(t) => StuckDiscard(s.db, RowsOf(s.db.table, t));
    case _ =>
  }

  lemma StuckFlush(s: State, cause: Cause, k: Key)
    requires !Busy(s.writer) && Stuck(s, k)
    ensures var t := StartFlush(s, cause); Stuck(t, k) && t.log.committed == s.log.committed && t.db == s.db
  {
  }

  lemma StuckTx(s: State, e: Event, k: Key)
    requires WriterOk(s) && Enabled(s, e) && Stuck(s, k) && (e.BeginTx? || e.Row? || e.Commit? || e.Fault?)
    ensures var t := ApplyTx(s, e); Stuck(t, k) && t.log.committed == s.log.committed && t.db == s.db
  {
    hide Add, At;
  }

  lemma StuckDiscard(d: Db, gone: set<Key>)
    ensures Shrunk(Discard(d, gone).table, d.table)
    ensures Discard(d, gone).tenants == d.tenants && Discard(d, gone).maxTenant == d.maxTenant
  {
    hide Merge;
  }

  /** One counter of a deleted tenant blocks all others: from then on, in every continuation,
      nothing is ever committed again and the table only loses rows. */
  lemma {:induction false} StuckForever(s: State, es: seq<Event>, k: Key)
    requires Inv(s) && EnabledAll(s, es) && Stuck(s, k)
    ensures var t := Run(s, es);
            Stuck(t, k) && t.log.committed == s.log.committed && Shrunk(t.db.table, s.db.table)
    decreases |es|
  {
    if es != [] {
      StuckStep(s, es[0], k);
      Step(s, es[0]);
      hide Apply, Enabled, Stuck, Inv;
      StuckForever(Apply(s, es[0]), es[1..], k);
    }
  }

  /** Such a state is reached whenever a tenant is deleted while its sample waits. */
  lemma StuckIsReached(table: Counters, tenants: set<int>, maxTenant: int, x: Sample)
    requires x.key.tenant in tenants && forall t :: t in tenants ==> t <= maxTenant
    ensures var s, es := Init(table, tenants, maxTenant), [Record(x), Take, DeleteTenant(x.key.tenant)];
            EnabledAll(s, es) && Stuck(Run(s, es), x.key) && Inv(Run(s, es))
  {
    InitInv(table, tenants, maxTenant);
    var s, es := Init(table, tenants, maxTenant), [Record(x), Take, DeleteTenant(x.key.tenant)];
    assert es[1..] == [Take, DeleteTenant(x.key.tenant)] && es[1..][1..] == [DeleteTenant(x.key.tenant)];
    var s1 := Apply(s, es[0]);
    assert s1.ch == [x];
    var s2 := Apply(s1, Take);
    assert x.key in s2.accum;
    var s3 := Apply(s2, DeleteTenant(x.key.tenant));
    hide Inv, Discard, Accumulate;
    assert EnabledAll(s3, []) && Run(s3, []) == s3;
    assert EnabledAll(s2, es[1..][1..]) && Run(s2, es[1..][1..]) == s3;
    assert EnabledAll(s1, es[1..]) && Run(s1, es[1..]) == s3;
    assert Run(s, es) == s3;
    RunInv(s, es);
  }

  lemma {:induction false} WriteRows(s: State) returns (es: seq<Event>)
    requires s.writer.InTx? && s.writer.written <= s.writer.snapshot.Keys
    requires forall k :: k in s.writer.snapshot ==> k.tenant in s.db.tenants
    ensures EnabledAll(s, es) && forall i :: 0 <= i < |es| ==> es[i].Row?
    ensures var t := Run(s, es);
            && t.writer.InTx? && t.writer.written == t.writer.snapshot.Keys && t.writer.cause == s.writer.cause
            && t == s.(writer := t.writer)
    decreases s.writer.snapshot.Keys - s.writer.written
  {
    if k :| k in s.writer.snapshot && k !in s.writer.written {
      hide Add;
      var more := WriteRows(Apply(s, Row(k)));
      es := [Row(k)] + more;
      assert es[1..] == more;
    } else {
      es := [];
      assert s.writer.written == s.writer.snapshot.Keys;
    }
  }

  lemma {:induction false} RunConcat(s: State, a: seq<Event>, b: seq<Event>)
    requires EnabledAll(s, a) && EnabledAll(Run(s, a), b)
    ensures EnabledAll(s, a + b) && Run(s, a + b) == Run(Run(s, a), b)
    decreases |a|
  {
    hide Apply, Enabled;
    if a == [] {
      assert a + b == b;
    } else {
      assert (a + b)[1..] == a[1..] + b;
      RunConcat(Apply(s, a[0]), a[1..], b);
    }
  }

  lemma RunCons(s: State, e: Event, es: seq<Event>)
    requires Enabled(s, e) && EnabledAll(Apply(s, e), es)
    ensures EnabledAll(s, [e] + es) && Run(s, [e] + es) == Run(Apply(s, e), es)
  {
    assert ([e] + es)[1..] == es;
  }

  /** A flush for the given cause has succeeded: the writer is back, or gone, and the caller has its
      answer. */
  predicate Answered(s: State, cause: Cause)
  {
    match cause
    case OnTick => s.writer == Selecting
    case OnRequest(r) => s.writer == Selecting && r in s.log.replies && s.log.replies[r]
    case OnStop => s.writer == Exited && s.log.stopOk
  }

  /** Steps of a writer that meets no fault. */
  predicate FaultFree(e: Event)
  {
    e.SeeRequest? || e.SeeStop? || e.Take? || e.Tick? || e.DrainDone? || e.BeginTx? || e.Row? || e.Commit?
  }

  predicate AllFaultFree(es: seq<Event>) { forall i :: 0 <= i < |es| ==> FaultFree(es[i]) }

  lemma FaultFreeConcat(a: seq<Event>, b: seq<Event>)
    requires AllFaultFree(a) && AllFaultFree(b)
    ensures AllFaultFree(a + b)
  {
    hide FaultFree;
  }

  lemma CommitEnds(s: State)
    requires s.writer.InTx? && s.writer.written == s.writer.snapshot.Keys
    ensures Enabled(s, Commit)
    ensures var t := Apply(s, Commit);
            && Answered(t, s.writer.cause) && t.accum == s.accum && t.ch == s.ch
            && t.log.committed == t.log.consumed == s.log.consumed && t.log.accepted == s.log.accepted
  {
  }

  /** From the snapshot to the answer. */
  lemma FlushEnds(s: State) returns (es: seq<Event>)
    requires s.writer.Snapped? && forall k :: k in s.writer.snapshot ==> k.tenant in s.db.tenants
    ensures EnabledAll(s, es) && forall i :: 0 <= i < |es| ==> es[i] in {BeginTx, Commit} || es[i].Row?
    ensures var t := Run(s, es);
            && Answered(t, s.writer.cause) && t.accum == s.accum && t.ch == s.ch
            && t.log.committed == t.log.consumed == s.log.consumed && t.log.accepted == s.log.accepted
  {
    var open := Apply(s, BeginTx);
    var rows := WriteRows(open);
    var done := Run(open, rows);
    CommitEnds(done);
    hide Apply, Answered, Run, EnabledAll;
    assert EnabledAll(Apply(done, Commit), []) && Run(Apply(done, Commit), []) == Apply(done, Commit) by {
      RunNothing(Apply(done, Commit));
    }
    RunCons(done, Commit, []);
    RunConcat(open, rows, [Commit]);
    RunCons(s, BeginTx, rows + [Commit]);
    es := [BeginTx] + (rows + [Commit]);
  }

  lemma RunNothing(s: State)
    ensures EnabledAll(s, []) && Run(s, []) == s
  {
  }

  /** Every tenant with a sample in the channel or a counter in the accumulator exists. */
  predicate TenantsExist(s: State)
  {
    && (forall k :: k in s.accum ==> k.tenant in s.db.tenants)
    && (forall i :: 0 <= i < |s.ch| ==> s.ch[i].key.tenant in s.db.tenants)
  }

  /** What a flush comes to, from the moment it looks at the accumulator. */
  lemma FlushRun(s: State, e: Event, cause: Cause) returns (es: seq<Event>)
    requires Enabled(s, e) && (e.Tick? || e.DrainDone?) && Apply(s, e) == StartFlush(s, cause) && TenantsExist(s)
    ensures EnabledAll(s, es) && AllFaultFree(es)
    ensures var t := Run(s, es);
            && Answered(t, cause) && t.accum == map[] && t.ch == s.ch
            && t.log.committed == t.log.consumed == s.log.consumed && t.log.accepted == s.log.accepted
  {
    var t := Apply(s, e);
    if s.accum == map[] {
      RunNothing(t);
      es := [];
    } else {
      es := FlushEnds(t);
    }
    hide Apply, Run, EnabledAll, Answered;
    RunCons(s, e, es);
    es := [e] + es;
  }

  /** If every accumulated tenant exists, a flush on a tick without faults commits everything
      consumed and empties the accumulator. */
  lemma FaultFreeFlush(s: State) returns (es: seq<Event>)
    requires s.writer.Selecting? && forall k :: k in s.accum ==> k.tenant in s.db.tenants
    ensures EnabledAll(s, es) && forall i :: 0 <= i < |es| ==> es[i] in {Tick, BeginTx, Commit} || es[i].Row?
    ensures var t := Run(s, es);
            t.accum == map[] && t.log.committed == t.log.consumed && t.writer == Selecting && t.ch == s.ch
  {
    if s.accum == map[] {
      es := [Tick];
      RunNothing(Apply(s, Tick));
      RunCons(s, Tick, []);
    } else {
      es := FlushEnds(Apply(s, Tick));
      RunCons(s, Tick, es);
      es := [Tick] + es;
    }
  }

  /** Draining moves the whole channel into the accumulator. */
  lemma {:induction false} DrainRun(s: State) returns (es: seq<Event>)
    requires Inv(s) && s.writer.Draining? && TenantsExist(s)
    ensures EnabledAll(s, es) && AllFaultFree(es)
    ensures var t := Run(s, es);
            && Inv(t) && t.ch == [] && t.writer == s.writer && TenantsExist(t)
            && t.log.accepted == s.log.accepted && t.log.consumed == |s.log.accepted|
    decreases |s.ch|
  {
    if s.ch == [] {
      RunNothing(s);
      QueueBounds(s);
      es := [];
    } else {
      var t := Apply(s, Take);
      Step(s, Take);
      TakeKeepsTenants(s);
      assert t.writer == s.writer && t.log.accepted == s.log.accepted && |t.ch| < |s.ch|;
      hide Apply, Inv, TenantsExist, Run, EnabledAll;
      es := DrainRun(t);
      RunCons(s, Take, es);
      es := [Take] + es;
    }
  }

  lemma TakeKeepsTenants(s: State)
    requires s.ch != [] && TenantsExist(s)
    ensures TenantsExist(ApplyTake(s))
  {
  }

  /** A flush request or a stop that the writer has seen is carried through: without faults, and if
      every queued and accumulated tenant exists, everything accepted before is written, nothing
      is left behind, and the caller is answered yes. */
  lemma DrainAndFlush(s: State) returns (es: seq<Event>)
    requires Inv(s) && s.writer.Draining? && TenantsExist(s)
    ensures EnabledAll(s, es) && AllFaultFree(es)
    ensures var t := Run(s, es);
            && Answered(t, s.writer.cause) && Inv(t) && t.ch == [] && t.accum == map[]
            && t.log.accepted == s.log.accepted && t.log.committed == |t.log.accepted|
  {
    var takes := DrainRun(s);
    var mid := Run(s, takes);
    assert Enabled(mid, DrainDone) && Apply(mid, DrainDone) == StartFlush(mid, s.writer.cause);
    hide Apply, Inv, Enabled, TenantsExist, StartFlush, Answered, FaultFree;
    var rest := FlushRun(mid, DrainDone, s.writer.cause);
    RunConcat(s, takes, rest);
    FaultFreeConcat(takes, rest);
    es := takes + rest;
    RunInv(s, es);
  }

  /** Everything a process has accepted is then in the table, except what was purged. */
  lemma NothingLost(t: State, k: Key, f: Measure)
    requires Inv(t) && t.log.committed == |t.log.accepted|
    ensures Of(t.db.table, k, f) + Of(t.db.purged, k, f) == Of(t.log.base, k, f) + Total(t.log.accepted, k, f)
  {
    assert Balanced(t, k, f);
    assert t.log.accepted[..t.log.committed] == t.log.accepted;
  }

  /** `FlushCounters`: a request that has been made is answered, with everything written. */
  lemma RequestIsServed(s: State, r: nat) returns (es: seq<Event>)
    requires Inv(s) && s.writer.Selecting? && r in s.log.marks && r !in s.log.replies && TenantsExist(s)
    ensures EnabledAll(s, es) && AllFaultFree(es)
    ensures var t := Run(s, es);
            && t.writer == Selecting && r in t.log.replies && t.log.replies[r]
            && t.ch == [] && t.accum == map[] && Inv(t)
            && t.log.accepted == s.log.accepted && t.log.committed == |t.log.accepted|
  {
    var t := Apply(s, SeeRequest(r));
    Step(s, SeeRequest(r));
    assert TenantsExist(t) && t.writer == Draining(OnRequest(r)) && t.log.accepted == s.log.accepted;
    assert Enabled(s, SeeRequest(r));
    hide Apply, Inv, Enabled, TenantsExist;
    es := DrainAndFlush(t);
    RunCons(s, SeeRequest(r), es);
    es := [SeeRequest(r)] + es;
  }

  /** `Stop`: the writer ends with everything written. */
  lemma StopWritesEverything(s: State) returns (es: seq<Event>)
    requires Inv(s) && s.writer.Selecting? && s.stopping && TenantsExist(s)
    ensures EnabledAll(s, es) && AllFaultFree(es)
    ensures var t := Run(s, es);
            && t.writer == Exited && t.log.stopOk && t.ch == [] && t.accum == map[] && Inv(t)
            && t.log.accepted == s.log.accepted && t.log.committed == |t.log.accepted|
  {
    var t := Apply(s, SeeStop);
    Step(s, SeeStop);
    assert TenantsExist(t) && t.writer == Draining(OnStop) && t.log.accepted == s.log.accepted;
    assert Enabled(s, SeeStop);
    hide Apply, Inv, Enabled, TenantsExist;
    es := DrainAndFlush(t);
    RunCons(s, SeeStop, es);
    es := [SeeStop] + es;
  }

  /** A whole `FlushCounters` call: everything accepted before it is committed when it returns. */
  lemma FlushCountersReturns(s: State, r: nat) returns (es: seq<Event>)
    requires Inv(s) && s.writer.Selecting? && !s.stopping && r !in s.log.marks && TenantsExist(s)
    ensures EnabledAll(s, [CallFlush(r)] + es) && AllFaultFree(es)
    ensures var t := Run(s, [CallFlush(r)] + es);
            && t.writer == Selecting && r in t.log.replies && t.log.replies[r] && r in t.log.marks
            && t.log.marks[r] == |s.log.accepted| == t.log.committed && t.ch == [] && t.accum == map[]
  {
    var t := Apply(s, CallFlush(r));
    Step(s, CallFlush(r));
    assert TenantsExist(t) && r in t.log.marks && t.log.marks[r] == |s.log.accepted|;
    assert r !in t.log.replies;
    es := RequestIsServed(t, r);
    MarksStay(t, es, r);
    hide Apply, Inv, TenantsExist;
    RunCons(s, CallFlush(r), es);
  }

  /** A whole `Stop` call: the writer is gone and everything accepted before it is committed. */
  lemma StopReturns(s: State) returns (es: seq<Event>)
    requires Inv(s) && s.writer.Selecting? && !s.stopping && TenantsExist(s)
    ensures EnabledAll(s, [CallStop] + es) && AllFaultFree(es)
    ensures var t := Run(s, [CallStop] + es);
            && t.writer == Exited && t.log.stopOk && t.ch == [] && t.accum == map[]
            && t.log.committed == |s.log.accepted|
  {
    var t := Apply(s, CallStop);
    Step(s, CallStop);
    assert TenantsExist(t) && t.stopping && t.log.accepted == s.log.accepted;
    es := StopWritesEverything(t);
    hide Apply, Inv, TenantsExist;
    RunCons(s, CallStop, es);
  }

  /** The mark of a call is never moved. */
  lemma {:induction false} MarksStay(s: State, es: seq<Event>, r: nat)
    requires EnabledAll(s, es) && r in s.log.marks
    ensures r in Run(s, es).log.marks && Run(s, es).log.marks[r] == s.log.marks[r]
    decreases |es|
  {
    if es != [] {
      MarkStays(s, es[0], r);
      hide Apply, Enabled;
      MarksStay(Apply(s, es[0]), es[1..], r);
    }
  }

  lemma MarkStays(s: State, e: Event, r: nat)
    requires Enabled(s, e) && r in s.log.marks
    ensures r in Apply(s, e).log.marks && Apply(s, e).log.marks[r] == s.log.marks[r]
  {
    hide Merge, Accumulate, ApplyDb, Add, At, BUFFER_SIZE;
    match e
    case Tick =>
    case DrainDone =>
    case Commit =>
    case Fault =>
    case _ =>
  }

  // ----- what single events of the environment do -----

  /** What the select loop can do next: take a sample if one waits, flush on a tick, see any request
      that has not been answered, and see the stop once it was called. */
  lemma SelectBranches(s: State, r: nat)
    requires s.writer.Selecting?
    ensures Enabled(s, Take) <==> s.ch != []
    ensures Enabled(s, Tick)
    ensures Enabled(s, SeeRequest(r)) <==> r in s.log.marks && r !in s.log.replies
    ensures Enabled(s, SeeStop) <==> s.stopping
    ensures s.ch != [] ==>
            var t := Apply(s, Take);
            t.writer == Selecting && t.ch == s.ch[1..] && t.log.consumed == s.log.consumed + 1
  {
  }


  /** A sample is accepted exactly while fewer than 65536 are waiting; otherwise it is dropped and
      counted. */
  lemma RecordExactly(s: State, x: Sample)
    ensures var t := Apply(s, Record(x));
            if |s.ch| < 65536 then
              t.ch == s.ch + [x] && t.log.accepted == s.log.accepted + [x] && t.dropped == s.dropped
            else t.ch == s.ch && t.log.accepted == s.log.accepted && t.dropped == s.dropped + 1
  {
  }

  /** Retention removes exactly the rows before its threshold, deleting a tenant exactly the
      tenant's; the others keep their counters. */
  lemma RowsRemoved(s: State, e: Event, k: Key)
    requires Enabled(s, e) && (e.Purge? || e.DeleteTenant?)
    ensures var t := Apply(s, e);
            && (k in t.db.table <==> k in s.db.table && if e.Purge? then !HourBuckets.Less(k.hour, e.threshold)
                                                        else k.tenant != e.tenant)
            && (k in t.db.table ==> t.db.table[k] == s.db.table[k])
            && t.accum == s.accum && t.ch == s.ch
            && t.db.tenants == if e.Purge? then s.db.tenants else s.db.tenants - {e.tenant}
  {
    hide Merge, HourBuckets.Less;
  }

  // ----- the imperative code, run without interference -----

  function AccumulateAll(m: Counters, xs: seq<Sample>): Counters
  {
    if xs == [] then m else Accumulate(AccumulateAll(m, xs[..|xs| - 1]), xs[|xs| - 1])
  }

  /** Accumulating a list of samples adds exactly their totals. */
  lemma {:induction false} AccumulateAllOf(m: Counters, xs: seq<Sample>, k: Key, f: Measure)
    ensures Of(AccumulateAll(m, xs), k, f) == Of(m, k, f) + Total(xs, k, f)
  {
    if xs != [] {
      hide Accumulate, Of;
      AccumulateAllOf(m, xs[..|xs| - 1], k, f);
      AccumulateOf(AccumulateAll(m, xs[..|xs| - 1]), xs[|xs| - 1], k, f);
    }
  }

  /** Which statements of a flush fail. */
  datatype Faults = Faults(beginFails: bool, prepareFails: bool, rows: set<Key>, commitFails: bool)

  class UsageWriter {
    var ch: seq<Sample>
    var accum: Counters
    var dropped: nat
    var table: Counters
    var tenants: set<int>

    constructor (table: Counters, tenants: set<int>)
      ensures ch == [] && accum == map[] && dropped == 0 && this.table == table && this.tenants == tenants
    {
      ch, accum, dropped := [], map[], 0;
      this.table, this.tenants := table, tenants;
    }

    method RecordSample(x: Sample)
      modifies this`ch, this`dropped
      ensures if old(|ch|) < BUFFER_SIZE then ch == old(ch) + [x] && dropped == old(dropped)
              else ch == old(ch) && dropped == old(dropped) + 1
    {
      if |ch| < BUFFER_SIZE {
        ch := ch + [x];
      } else {
        dropped := dropped + 1;
      }
    }

    method AccumulateSample(x: Sample)
      modifies this`accum
      ensures accum == Accumulate(old(accum), x)
    {
      var acc := if x.key in accum then accum[x.key] else Acc(0, 0, 0);
      acc := Acc(acc.requests + x.requests, acc.bytes + x.bytes, acc.errors + if x.isError then 1 else 0);
      accum := accum[x.key := acc];
    }

    method Drain()
      modifies this`ch, this`accum
      ensures ch == [] && accum == AccumulateAll(old(accum), old(ch))
    {
      hide Accumulate;
      ghost var n := 0;
      while |ch| > 0
        invariant n <= old(|ch|) && ch == old(ch)[n..]
        invariant accum == AccumulateAll(old(accum), old(ch)[..n])
        decreases |ch|
      {
        assert old(ch)[..n + 1][..n] == old(ch)[..n];
        AccumulateSample(ch[0]);
        ch := ch[1..];
        n := n + 1;
      }
      assert old(ch)[..n] == old(ch);
    }

    /** The closure that merges a snapshot back. */
    method Restore(snapshot: Counters)
      modifies this`accum
      ensures accum == Merge(old(accum), snapshot)
    {
      var todo := snapshot.Keys;
      while todo != {}
        invariant todo <= snapshot.Keys
        invariant accum.Keys == old(accum).Keys + (snapshot.Keys - todo)
        invariant forall k :: k in accum ==>
          accum[k] == if k in snapshot && k !in todo then Add(At(old(accum), k), snapshot[k]) else At(old(accum), k)
        decreases todo
      {
        var k :| k in todo;
        accum := accum[k := Add(At(accum, k), snapshot[k])];
        todo := todo - {k};
      }
    }

    /** `flush`: all or nothing. It succeeds exactly when there is nothing to write, or no
        statement fails and every tenant with a counter still exists. */
    method Flush(faults: Faults) returns (ok: bool)
      modifies this`accum, this`table
      ensures ok <==> old(accum) == map[] ||
                      (!faults.beginFails && !faults.prepareFails && !faults.commitFails &&
                       forall k :: k in old(accum) ==> k !in faults.rows && k.tenant in tenants)
      ensures ok ==> accum == map[] && table == Merge(old(table), old(accum))
      ensures !ok ==> accum == old(accum) && table == old(table)
    {
      var snapshot := accum;
      accum := map[];
      MergeEmpty(snapshot);
      if snapshot == map[] {
        assert Merge(table, map[]) == table;
        return true;
      }
      ok := false;
      if faults.beginFails || faults.prepareFails {
        Restore(snapshot);
        return;
      }
      var pending, todo := table, snapshot.Keys;
      while todo != {}
        invariant todo <= snapshot.Keys && table == old(table) && accum == map[]
        invariant pending.Keys == table.Keys + (snapshot.Keys - todo)
        invariant forall k :: k in pending ==>
          pending[k] == if k in snapshot && k !in todo then Add(At(table, k), snapshot[k]) else At(table, k)
        invariant forall k :: k in snapshot && k !in todo ==> k !in faults.rows && k.tenant in tenants
        decreases todo
      {
        var k :| k in todo;
        if k in faults.rows || k.tenant !in tenants {
          Restore(snapshot);
          return;
        }
        pending := pending[k := Add(At(pending, k), snapshot[k])];
        todo := todo - {k};
      }
      if faults.commitFails {
        Restore(snapshot);
        return;
      }
      table := pending;
      ok := true;
      assert table == Merge(old(table), snapshot);
    }
  }
}
