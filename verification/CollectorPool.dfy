/** The collector connection pool of internal/syslog/pool.go: any number of concurrent
    `Forward` calls over shared TCP connections, as a state machine whose events are the
    pool's critical sections and the individual socket writes, in any interleaving. */
module CollectorPool {
  import opened ByteStrings
  import opened Framing

  type ConnId = nat
  type OpId = nat

  /** One payload that a connection has carried completely. */
  datatype Delivery = Delivery(op: OpId, frame: Bytes)

  datatype ConnState = Idle | Held(op: OpId) | Closed

  /** A dialled connection: who has it and the bytes written so far. `whole` and `torn` split
      those bytes into complete payloads and the part of a payload still being written or
      abandoned (`tornOf` is its frame). */
  datatype Conn = Conn(state: ConnState, sent: Bytes, whole: seq<Delivery>, tornOf: Bytes, torn: Bytes)

  /** Where a `Forward` call is. `retry` tells its second attempt from its first. */
  datatype Pc =
    | Getting(retry: bool)
    | Writing(retry: bool, conn: ConnId)
    | Returning(conn: ConnId)
    | Succeeded
    | Failed

  datatype Op = Op(frame: Bytes, pc: Pc)

  datatype Pool = Pool(maxConns: int, conns: seq<Conn>, idle: seq<ConnId>, healthy: bool, ops: seq<Op>)

  /** Something that happens atomically. `Get` is `getConn` under the mutex with the outcome a
      dial would have; `Chunk` is the kernel accepting `n` more bytes of a `Write`, which
      succeeds when all are accepted; `WriteFail` is a `Write` that fails before that,
      followed by `markDead`; `Return` is `returnConn`; `CloseAll` is `Close`. */
  datatype Event =
    | Begin(frame: Bytes)
    | Get(op: OpId, dialOk: bool)
    | Chunk(op: OpId, n: nat)
    | WriteFail(op: OpId)
    | Return(op: OpId)
    | CloseAll

  function Init(maxConns: int): Pool { Pool(maxConns, [], [], true, []) }

  predicate Enabled(p: Pool, e: Event)
  {
    match e
    case Begin(_) => true
    case Get(op, _) => op < |p.ops| && p.ops[op].pc.Getting?
    case Chunk(op, n) =>
      && op < |p.ops| && p.ops[op].pc.Writing? && p.ops[op].pc.conn < |p.conns|
      && |p.conns[p.ops[op].pc.conn].torn| + n <= |Encode(p.ops[op].frame)|
    case WriteFail(op) =>
      && op < |p.ops| && p.ops[op].pc.Writing? && p.ops[op].pc.conn < |p.conns|
    case Return(op) => op < |p.ops| && p.ops[op].pc.Returning? && p.ops[op].pc.conn < |p.conns|
    case CloseAll => forall i :: 0 <= i < |p.idle| ==> p.idle[i] < |p.conns|
  }

  function SetPc(ops: seq<Op>, op: OpId, pc: Pc): seq<Op>
    requires op < |ops|
  {
    ops[op := ops[op].(pc := pc)]
  }

  function Start(c: Conn, op: OpId, frame: Bytes): Conn
  {
    c.(state := Held(op), tornOf := frame, torn := [])
  }

  /** `getConn`: the front idle connection if there is one, otherwise a dial. */
  function ApplyGet(p: Pool, op: OpId, dialOk: bool): Pool
    requires Enabled(p, Get(op, dialOk))
  {
    var retry, frame := p.ops[op].pc.retry, p.ops[op].frame;
    if p.idle != [] then
      var c := p.idle[0];
      if c < |p.conns| then
        p.(conns := p.conns[c := Start(p.conns[c], op, frame)],
           idle := p.idle[1..],
           ops := SetPc(p.ops, op, Writing(retry, c)))
      else p
    else if dialOk then
      p.(conns := p.conns + [Start(Conn(Closed, [], [], [], []), op, frame)],
         healthy := true,
         ops := SetPc(p.ops, op, Writing(retry, |p.conns|)))
    else
      p.(healthy := false, ops := SetPc(p.ops, op, Failed))
  }

  /** The connection after `n` more bytes of the payload. */
  function ChunkConn(c: Conn, op: OpId, frame: Bytes, n: nat): Conn
    requires |c.torn| + n <= |Encode(frame)|
  {
    var payload, end := Encode(frame), |c.torn| + n;
    var sent := c.sent + payload[|c.torn|..end];
    if end == |payload| then c.(sent := sent, whole := c.whole + [Delivery(op, frame)], torn := [])
    else c.(sent := sent, torn := payload[..end])
  }

  function ApplyChunk(p: Pool, op: OpId, n: nat): Pool
    requires Enabled(p, Chunk(op, n))
  {
    var c, frame := p.ops[op].pc.conn, p.ops[op].frame;
    var complete := |p.conns[c].torn| + n == |Encode(frame)|;
    p.(conns := p.conns[c := ChunkConn(p.conns[c], op, frame, n)],
       ops := if complete then SetPc(p.ops, op, Returning(c)) else p.ops)
  }

  function ApplyWriteFail(p: Pool, op: OpId): Pool
    requires Enabled(p, WriteFail(op))
  {
    var c := p.ops[op].pc.conn;
    p.(conns := p.conns[c := p.conns[c].(state := Closed)],
       ops := SetPc(p.ops, op, if p.ops[op].pc.retry then Failed else Getting(true)))
  }

  /** `returnConn`: keep the connection if there is room, otherwise close it. */
  function ApplyReturn(p: Pool, op: OpId): Pool
    requires Enabled(p, Return(op))
  {
    var c := p.ops[op].pc.conn;
    var keep := |p.idle| < p.maxConns;
    p.(conns := p.conns[c := p.conns[c].(state := if keep then Idle else Closed)],
       idle := if keep then p.idle + [c] else p.idle,
       ops := SetPc(p.ops, op, Succeeded))
  }

  function CloseConns(conns: seq<Conn>, ids: seq<ConnId>): (r: seq<Conn>)
    requires forall i :: 0 <= i < |ids| ==> ids[i] < |conns|
    ensures |r| == |conns|
    ensures forall c :: 0 <= c < |r| ==> r[c] == if c in ids then conns[c].(state := Closed) else conns[c]
    decreases |ids|
  {
    if ids == [] then conns
    else CloseConns(conns[ids[0] := conns[ids[0]].(state := Closed)], ids[1..])
  }

  function Apply(p: Pool, e: Event): Pool
    requires Enabled(p, e)
  {
    match e
    case Begin(frame) => p.(ops := p.ops + [Op(frame, Getting(false))])
    case Get(op, dialOk) => ApplyGet(p, op, dialOk)
    case Chunk(op, n) => ApplyChunk(p, op, n)
    case WriteFail(op) => ApplyWriteFail(p, op)
    case Return(op) => ApplyReturn(p, op)
    case CloseAll => p.(conns := CloseConns(p.conns, p.idle), idle := [], healthy := false)
  }

  /** The states after an enabled sequence of events. */
  predicate EnabledAll(p: Pool, es: seq<Event>)
    decreases |es|
  {
    es == [] || (Enabled(p, es[0]) && EnabledAll(Apply(p, es[0]), es[1..]))
  }

  function Run(p: Pool, es: seq<Event>): Pool
    requires EnabledAll(p, es)
    decreases |es|
  {
    if es == [] then p else Run(Apply(p, es[0]), es[1..])
  }

  // ----- ownership -----

  function FramesOf(ds: seq<Delivery>): seq<Bytes>
  {
    if ds == [] then [] else FramesOf(ds[..|ds| - 1]) + [ds[|ds| - 1].frame]
  }

  /** What the bytes of one connection always look like: whole payloads, then part of one. */
  predicate ConnBytes(c: Conn)
  {
    && c.sent == EncodeAll(FramesOf(c.whole)) + c.torn
    && c.torn < Encode(c.tornOf)
  }

  /** The connection an operation holds in a state of its own. */
  predicate Holds(pc: Pc, c: ConnId) { (pc.Writing? || pc.Returning?) && pc.conn == c }

  ghost predicate OpsOwn(p: Pool)
  {
    forall o :: 0 <= o < |p.ops| && (p.ops[o].pc.Writing? || p.ops[o].pc.Returning?) ==>
      && p.ops[o].pc.conn < |p.conns|
      && p.conns[p.ops[o].pc.conn].state == Held(o)
      && (p.ops[o].pc.Writing? ==> p.conns[p.ops[o].pc.conn].tornOf == p.ops[o].frame)
      && (p.ops[o].pc.Returning? ==> p.conns[p.ops[o].pc.conn].torn == [])
  }

  ghost predicate ConnsOwned(p: Pool)
  {
    forall c :: 0 <= c < |p.conns| ==>
      && ConnBytes(p.conns[c])
      && (p.conns[c].state.Idle? <==> c in p.idle)
      && (p.conns[c].state.Idle? ==> p.conns[c].torn == [])
      && (p.conns[c].state.Held? ==> p.conns[c].state.op < |p.ops| && Holds(p.ops[p.conns[c].state.op].pc, c))
  }

  ghost predicate IdleOk(p: Pool)
  {
    && (forall i :: 0 <= i < |p.idle| ==> p.idle[i] < |p.conns|)
    && (forall i, j :: 0 <= i < j < |p.idle| ==> p.idle[i] != p.idle[j])
    && (p.idle == [] || |p.idle| <= p.maxConns)
  }

  /** Every connection is idle, held by exactly one call, or closed; the idle list is within
      the limit; idle connections carry whole payloads only. */
  ghost predicate Inv(p: Pool) { OpsOwn(p) && ConnsOwned(p) && IdleOk(p) }

  lemma EmptyTorn(frame: Bytes)
    ensures [] < Encode(frame)
    ensures EncodeAll([]) + [] == []
  {
  }

  lemma FreshConn(op: OpId, frame: Bytes)
    ensures ConnBytes(Start(Conn(Closed, [], [], [], []), op, frame))
  {
    EmptyTorn(frame);
  }

  lemma RestartConn(c: Conn, op: OpId, frame: Bytes)
    requires ConnBytes(c) && c.torn == []
    ensures ConnBytes(Start(c, op, frame))
  {
    EmptyTorn(frame);
  }

  lemma TornPrefix(payload: Bytes, torn: Bytes, n: nat)
    requires torn <= payload && |torn| + n <= |payload|
    ensures torn + payload[|torn|..|torn| + n] == payload[..|torn| + n]
    ensures |torn| + n < |payload| ==> payload[..|torn| + n] < payload
    ensures |torn| + n == |payload| ==> payload[..|torn| + n] == payload
  {
  }

  lemma FramesOfAppend(ds: seq<Delivery>, d: Delivery)
    ensures FramesOf(ds + [d]) == FramesOf(ds) + [d.frame]
  {
    assert (ds + [d])[..|ds|] == ds;
  }

  /** A chunk extends the torn payload or turns it into a whole one. */
  lemma ChunkBytes(c: Conn, op: OpId, n: nat)
    requires ConnBytes(c) && |c.torn| + n <= |Encode(c.tornOf)|
    ensures ConnBytes(ChunkConn(c, op, c.tornOf, n))
  {
    hide Encode, EncodeAll, FramesOf;
    var payload, base := Encode(c.tornOf), EncodeAll(FramesOf(c.whole));
    TornPrefix(payload, c.torn, n);
    Assoc(base, c.torn, payload[|c.torn|..|c.torn| + n]);
    if |c.torn| + n == |payload| {
      EncodeAllAppend(FramesOf(c.whole), c.tornOf);
      FramesOfAppend(c.whole, Delivery(op, c.tornOf));
      EmptyTorn(c.tornOf);
    }
  }

  /** Each event keeps the ownership invariant. */
  lemma StepInv(p: Pool, e: Event)
    requires Inv(p) && Enabled(p, e)
    ensures Inv(Apply(p, e))
  {
    hide ConnBytes;
    match e
    case Begin(_) =>
    case Get(op, dialOk) => StepGet(p, op, dialOk);
    case Chunk(op, n) => StepChunk(p, op, n);
    case WriteFail(op) => StepWriteFail(p, op);
    case Return(op) => StepReturn(p, op);
    case CloseAll => StepClose(p);
  }

  lemma StepGet(p: Pool, op: OpId, dialOk: bool)
    requires Inv(p) && Enabled(p, Get(op, dialOk))
    ensures Inv(ApplyGet(p, op, dialOk))
  {
    hide ConnBytes;
    if p.idle != [] {
      hide Inv;
      StepReuse(p, op, dialOk);
    } else if dialOk {
      hide Inv;
      StepDial(p, op);
    }
  }

  lemma StepDial(p: Pool, op: OpId)
    requires Inv(p) && Enabled(p, Get(op, true)) && p.idle == []
    ensures Inv(ApplyGet(p, op, true))
  {
    hide ConnBytes;
    var q := ApplyGet(p, op, true);
    FreshConn(op, p.ops[op].frame);
    assert OpsOwn(q);
    assert ConnsOwned(q);
  }

  lemma StepReuse(p: Pool, op: OpId, dialOk: bool)
    requires Inv(p) && Enabled(p, Get(op, dialOk)) && p.idle != []
    ensures Inv(ApplyGet(p, op, dialOk))
  {
    hide ConnBytes;
    var c, q := p.idle[0], ApplyGet(p, op, dialOk);
    assert p.conns[c].state.Idle?;
    RestartConn(p.conns[c], op, p.ops[op].frame);
    assert forall d :: d in q.idle <==> d in p.idle && d != c by {
      assert p.idle == [c] + q.idle;
    }
    assert IdleOk(q);
    assert ConnsOwned(q);
  }

  lemma StepChunk(p: Pool, op: OpId, n: nat)
    requires Inv(p) && Enabled(p, Chunk(op, n))
    ensures Inv(ApplyChunk(p, op, n))
  {
    hide ConnBytes, Encode;
    ChunkBytes(p.conns[p.ops[op].pc.conn], op, n);
  }

  lemma StepWriteFail(p: Pool, op: OpId)
    requires Inv(p) && Enabled(p, WriteFail(op))
    ensures Inv(ApplyWriteFail(p, op))
  {
    hide Encode, EncodeAll, FramesOf;
  }

  lemma StepReturn(p: Pool, op: OpId)
    requires Inv(p) && Enabled(p, Return(op))
    ensures Inv(ApplyReturn(p, op))
  {
    hide Encode, EncodeAll, FramesOf;
    var c := p.ops[op].pc.conn;
    assert c !in p.idle;
  }

  lemma StepClose(p: Pool)
    requires Inv(p)
    ensures Inv(Apply(p, CloseAll))
  {
    hide Encode, EncodeAll, FramesOf;
  }

  // ----- delivery accounting -----

  predicate Delivered(pc: Pc) { pc.Returning? || pc.Succeeded? }

  function Project<T>(ds: seq<Delivery>, view: Delivery -> T): seq<T>
  {
    if ds == [] then [] else Project(ds[..|ds| - 1], view) + [view(ds[|ds| - 1])]
  }

  /** Every complete payload on any connection, seen through `view`. */
  function Ledger<T>(conns: seq<Conn>, view: Delivery -> T): multiset<T>
  {
    if conns == [] then multiset{}
    else
      var last := |conns| - 1;
      Ledger(conns[..last], view) + multiset(Project(conns[last].whole, view))
  }

  /** Every call whose payload is delivered, once each, seen through `view`. */
  function Book<T>(ops: seq<Op>, view: Delivery -> T): multiset<T>
  {
    if ops == [] then multiset{}
    else
      var last := |ops| - 1;
      Book(ops[..last], view) + Entry(last, ops[last], view)
  }

  lemma {:induction false} LedgerSame<T>(a: seq<Conn>, b: seq<Conn>, view: Delivery -> T)
    requires |a| == |b| && forall i :: 0 <= i < |a| ==> a[i].whole == b[i].whole
    ensures Ledger(a, view) == Ledger(b, view)
  {
    if a != [] {
      LedgerSame(a[..|a| - 1], b[..|b| - 1], view);
    }
  }

  lemma LedgerNew<T>(conns: seq<Conn>, c: Conn, view: Delivery -> T)
    requires c.whole == []
    ensures Ledger(conns + [c], view) == Ledger(conns, view)
  {
    assert (conns + [c])[..|conns|] == conns;
  }

  lemma ProjectAppend<T>(ds: seq<Delivery>, d: Delivery, view: Delivery -> T)
    ensures multiset(Project(ds + [d], view)) == multiset(Project(ds, view)) + multiset{view(d)}
  {
    assert (ds + [d])[..|ds|] == ds;
  }

  lemma Swap<T>(a: multiset<T>, b: multiset<T>, c: multiset<T>)
    ensures a + b + c == a + c + b
  {
  }

  lemma {:induction false} LedgerAdd<T>(conns: seq<Conn>, i: ConnId, c: Conn, d: Delivery, view: Delivery -> T)
    requires i < |conns| && c.whole == conns[i].whole + [d]
    ensures Ledger(conns[i := c], view) == Ledger(conns, view) + multiset{view(d)}
  {
    hide Project;
    var last, more := |conns| - 1, conns[i := c];
    if i == last {
      assert more[..last] == conns[..last];
      ProjectAppend(conns[i].whole, d, view);
    } else {
      assert more[..last] == conns[..last][i := c];
      LedgerAdd(conns[..last], i, c, d, view);
      Swap(Ledger(conns[..last], view), multiset{view(d)}, multiset(Project(conns[last].whole, view)));
    }
  }

  lemma {:induction false} BookSame<T>(a: seq<Op>, b: seq<Op>, view: Delivery -> T)
    requires |a| == |b|
    requires forall i :: 0 <= i < |a| ==> a[i].frame == b[i].frame && (Delivered(a[i].pc) <==> Delivered(b[i].pc))
    ensures Book(a, view) == Book(b, view)
  {
    if a != [] {
      BookSame(a[..|a| - 1], b[..|b| - 1], view);
    }
  }

  /** What call `o` contributes to the book. */
  function Entry<T>(o: OpId, op: Op, view: Delivery -> T): multiset<T>
  {
    if Delivered(op.pc) then multiset{view(Delivery(o, op.frame))} else multiset{}
  }

  lemma {:induction false} BookAdd<T>(ops: seq<Op>, o: OpId, pc: Pc, view: Delivery -> T)
    requires o < |ops| && !Delivered(ops[o].pc) && Delivered(pc)
    ensures Book(SetPc(ops, o, pc), view) == Book(ops, view) + multiset{view(Delivery(o, ops[o].frame))}
  {
    hide Entry;
    var last, more := |ops| - 1, SetPc(ops, o, pc);
    if o == last {
      assert more[..last] == ops[..last];
      EntryOf(o, ops[o], view);
      EntryOf(o, more[o], view);
    } else {
      assert more[..last] == SetPc(ops[..last], o, pc);
      BookAdd(ops[..last], o, pc, view);
      Swap(Book(ops[..last], view), multiset{view(Delivery(o, ops[o].frame))}, Entry(last, ops[last], view));
    }
  }

  lemma EntryOf<T>(o: OpId, op: Op, view: Delivery -> T)
    ensures Entry(o, op, view) == if Delivered(op.pc) then multiset{view(Delivery(o, op.frame))} else multiset{}
  {
  }

  lemma GetLedger<T>(p: Pool, op: OpId, dialOk: bool, view: Delivery -> T)
    requires Inv(p) && Enabled(p, Get(op, dialOk)) && Ledger(p.conns, view) == Book(p.ops, view)
    ensures var q := ApplyGet(p, op, dialOk); Ledger(q.conns, view) == Book(q.ops, view)
  {
    hide Inv, Ledger, Book;
    var q := ApplyGet(p, op, dialOk);
    BookSame(p.ops, q.ops, view);
    if |q.conns| == |p.conns| {
      LedgerSame(p.conns, q.conns, view);
    } else {
      LedgerNew(p.conns, q.conns[|p.conns|], view);
    }
  }

  lemma ChunkLedger<T>(p: Pool, op: OpId, n: nat, view: Delivery -> T)
    requires Inv(p) && Enabled(p, Chunk(op, n)) && Ledger(p.conns, view) == Book(p.ops, view)
    ensures var q := ApplyChunk(p, op, n); Ledger(q.conns, view) == Book(q.ops, view)
  {
    hide ConnBytes, Encode, Inv, Ledger, Book;
    var q, c := ApplyChunk(p, op, n), p.ops[op].pc.conn;
    if q.ops == p.ops {
      LedgerSame(p.conns, q.conns, view);
    } else {
      LedgerAdd(p.conns, c, q.conns[c], Delivery(op, p.ops[op].frame), view);
      BookAdd(p.ops, op, Returning(c), view);
    }
  }

  lemma QuietLedger<T>(p: Pool, e: Event, view: Delivery -> T)
    requires Enabled(p, e) && (e.WriteFail? || e.Return? || e.CloseAll?)
    requires Ledger(p.conns, view) == Book(p.ops, view)
    ensures Ledger(Apply(p, e).conns, view) == Book(Apply(p, e).ops, view)
  {
    hide Ledger, Book, Encode;
    BookSame(p.ops, Apply(p, e).ops, view);
    LedgerSame(p.conns, Apply(p, e).conns, view);
  }

  lemma ApplyIs(p: Pool, e: Event)
    requires Enabled(p, e)
    ensures e.Get? ==> Apply(p, e) == ApplyGet(p, e.op, e.dialOk)
    ensures e.Chunk? ==> Apply(p, e) == ApplyChunk(p, e.op, e.n)
  {
  }

  /** Each event keeps the two books equal, under every view. */
  lemma StepLedger<T>(p: Pool, e: Event, view: Delivery -> T)
    requires Inv(p) && Enabled(p, e) && Ledger(p.conns, view) == Book(p.ops, view)
    ensures Ledger(Apply(p, e).conns, view) == Book(Apply(p, e).ops, view)
  {
    match e
    case Get(op, dialOk) =>
      hide *;
      GetLedger(p, op, dialOk, view);
      ApplyIs(p, e);
    case Chunk(op, n) =>
      hide *;
      ChunkLedger(p, op, n, view);
      ApplyIs(p, e);
    case Begin(_) =>
      assert Apply(p, e).ops[..|p.ops|] == p.ops;
    case _ =>
      QuietLedger(p, e, view);
  }

  lemma {:induction false} RunKeeps<T>(p: Pool, es: seq<Event>, view: Delivery -> T)
    requires Inv(p) && EnabledAll(p, es) && Ledger(p.conns, view) == Book(p.ops, view)
    ensures Inv(Run(p, es)) && Ledger(Run(p, es).conns, view) == Book(Run(p, es).ops, view)
    decreases |es|
  {
    if es != [] {
      hide Inv, Apply, Enabled;
      StepInv(p, es[0]);
      StepLedger(p, es[0], view);
      RunKeeps(Apply(p, es[0]), es[1..], view);
    }
  }

  /** Ownership and delivery over every interleaving: the invariant holds, and the payloads
      on the wires are exactly those of the delivered calls, each once. */
  lemma StreamIntegrity(maxConns: int, es: seq<Event>)
    requires EnabledAll(Init(maxConns), es)
    ensures var p := Run(Init(maxConns), es);
            Inv(p) && Ledger(p.conns, d => d) == Book(p.ops, d => d)
  {
    RunKeeps(Init(maxConns), es, d => d);
  }

  lemma {:induction false} BookCount(ops: seq<Op>, o: OpId, f: Bytes)
    ensures Book(ops, d => d)[Delivery(o, f)] ==
            if o < |ops| && Delivered(ops[o].pc) && ops[o].frame == f then 1 else 0
  {
    if ops != [] {
      BookCount(ops[..|ops| - 1], o, f);
    }
  }

  /** A call that returned nil has its payload complete on exactly one connection, exactly
      once; a call that returned an error has it on none. */
  lemma ReturnedCalls(maxConns: int, es: seq<Event>, o: OpId)
    requires EnabledAll(Init(maxConns), es) && o < |Run(Init(maxConns), es).ops|
    ensures var p := Run(Init(maxConns), es);
            var times := Ledger(p.conns, d => d)[Delivery(o, p.ops[o].frame)];
            && (p.ops[o].pc == Succeeded ==> times == 1)
            && (p.ops[o].pc == Failed ==> times == 0)
  {
    StreamIntegrity(maxConns, es);
    BookCount(Run(Init(maxConns), es).ops, o, Run(Init(maxConns), es).ops[o].frame);
  }

  // ----- what the collector decodes -----

  /** The frames read off all connections by the scanner. */
  function Decoded(conns: seq<Conn>, maxFrame: int): multiset<Bytes>
  {
    if conns == [] then multiset{}
    else
      var last := |conns| - 1;
      Decoded(conns[..last], maxFrame) + multiset(ReadAll(conns[last].sent, maxFrame).0)
  }

  function FrameOf(d: Delivery): Bytes { d.frame }

  lemma {:induction false} ProjectFrames(ds: seq<Delivery>)
    ensures Project(ds, FrameOf) == FramesOf(ds)
  {
    if ds != [] {
      ProjectFrames(ds[..|ds| - 1]);
    }
  }

  /** The frames in the book are those of the delivered calls. */
  lemma {:induction false} BookMember(ops: seq<Op>, f: Bytes)
    ensures f in Book(ops, FrameOf) <==> exists o :: 0 <= o < |ops| && Delivered(ops[o].pc) && ops[o].frame == f
  {
    if ops != [] {
      var last := |ops| - 1;
      BookMember(ops[..last], f);
      assert forall o :: 0 <= o < last ==> ops[..last][o] == ops[o];
      if Delivered(ops[last].pc) && ops[last].frame == f {
        assert f in Book(ops, FrameOf);
      }
    }
  }

  lemma {:induction false} LedgerMember(conns: seq<Conn>, c: ConnId, f: Bytes)
    requires c < |conns| && f in FramesOf(conns[c].whole)
    ensures f in Ledger(conns, FrameOf)
  {
    var last := |conns| - 1;
    ProjectFrames(conns[last].whole);
    if c < last {
      LedgerMember(conns[..last], c, f);
    }
  }

  predicate FramesWithin(conns: seq<Conn>, maxFrame: int)
  {
    forall c, i :: 0 <= c < |conns| && 0 <= i < |FramesOf(conns[c].whole)| ==>
      |FramesOf(conns[c].whole)[i]| <= maxFrame
  }

  lemma {:induction false} DecodedIsLedger(conns: seq<Conn>, maxFrame: int)
    requires maxFrame <= MAX_INT64 && FramesWithin(conns, maxFrame)
    requires forall c :: 0 <= c < |conns| ==> ConnBytes(conns[c])
    ensures Decoded(conns, maxFrame) == Ledger(conns, FrameOf)
  {
    hide ReadAll, Encode, EncodeAll, FramesOf, Project;
    if conns != [] {
      var last := |conns| - 1;
      var c := conns[last];
      ForwardedRoundTrip(FramesOf(c.whole), c.tornOf, c.torn, maxFrame);
      ProjectFrames(c.whole);
      DecodedIsLedger(conns[..last], maxFrame);
    }
  }

  /** Whatever the frames are, what the scanner returns is within its cap. */
  lemma {:induction false} DecodedWithin(conns: seq<Conn>, maxFrame: int, f: Bytes)
    requires maxFrame <= MAX_INT64 && f in Decoded(conns, maxFrame)
    requires forall c :: 0 <= c < |conns| ==> ConnBytes(conns[c])
    ensures |f| <= maxFrame
  {
    hide ReadAll, Encode, EncodeAll, FramesOf;
    var last := |conns| - 1;
    var c := conns[last];
    ForwardedFitting(FramesOf(c.whole), c.tornOf, c.torn, maxFrame);
    if f in Decoded(conns[..last], maxFrame) {
      DecodedWithin(conns[..last], maxFrame, f);
    }
  }

  /** Every frame that was delivered is within the cap. */
  predicate DeliveredWithin(ops: seq<Op>, maxFrame: int)
  {
    forall o :: 0 <= o < |ops| && Delivered(ops[o].pc) ==> |ops[o].frame| <= maxFrame
  }

  /** Ownership and matching books. */
  ghost predicate Consistent(p: Pool) { Inv(p) && Ledger(p.conns, FrameOf) == Book(p.ops, FrameOf) }

  lemma LedgerWithin(p: Pool, maxFrame: int)
    requires Consistent(p) && DeliveredWithin(p.ops, maxFrame)
    ensures FramesWithin(p.conns, maxFrame)
  {
    hide Inv, FramesOf, Ledger, Book;
    forall c, i | 0 <= c < |p.conns| && 0 <= i < |FramesOf(p.conns[c].whole)|
      ensures |FramesOf(p.conns[c].whole)[i]| <= maxFrame
    {
      var f := FramesOf(p.conns[c].whole)[i];
      LedgerMember(p.conns, c, f);
      BookMember(p.ops, f);
    }
  }

  /** Decoding the bytes of all connections, closed and torn ones included, yields exactly the
      multiset of delivered frames, if and only if the scanner's cap admits them all. */
  lemma ConsistentDecodes(p: Pool, maxFrame: int)
    requires Consistent(p) && maxFrame <= MAX_INT64
    ensures Decoded(p.conns, maxFrame) == Book(p.ops, FrameOf) <==> DeliveredWithin(p.ops, maxFrame)
  {
    assert forall c :: 0 <= c < |p.conns| ==> ConnBytes(p.conns[c]);
    hide Inv, FramesOf, Ledger, Book, ConnBytes, Decoded;
    if DeliveredWithin(p.ops, maxFrame) {
      LedgerWithin(p, maxFrame);
      DecodedIsLedger(p.conns, maxFrame);
    }
    if Decoded(p.conns, maxFrame) == Book(p.ops, FrameOf) {
      forall o | 0 <= o < |p.ops| && Delivered(p.ops[o].pc) ensures |p.ops[o].frame| <= maxFrame {
        BookMember(p.ops, p.ops[o].frame);
        DecodedWithin(p.conns, maxFrame, p.ops[o].frame);
      }
    }
  }

  /** The end-to-end statement over every interleaving. */
  lemma CollectorSeesDelivered(maxConns: int, es: seq<Event>, maxFrame: int)
    requires EnabledAll(Init(maxConns), es) && maxFrame <= MAX_INT64
    ensures var p := Run(Init(maxConns), es);
            Decoded(p.conns, maxFrame) == Book(p.ops, FrameOf) <==> DeliveredWithin(p.ops, maxFrame)
  {
    RunKeeps(Init(maxConns), es, FrameOf);
    hide Run, Decoded, Book, DeliveredWithin;
    ConsistentDecodes(Run(Init(maxConns), es), maxFrame);
  }

  // ----- Close -----

  /** `Close` leaves every dialled connection closed if and only if no call holds one. */
  lemma CloseIsTotal(p: Pool)
    requires Inv(p)
    ensures (forall c :: 0 <= c < |p.conns| ==> Apply(p, CloseAll).conns[c].state == Closed)
            <==> (forall o :: 0 <= o < |p.ops| ==> !p.ops[o].pc.Writing? && !p.ops[o].pc.Returning?)
  {
    hide ConnBytes;
    if o :| 0 <= o < |p.ops| && (p.ops[o].pc.Writing? || p.ops[o].pc.Returning?) {
      assert Apply(p, CloseAll).conns[p.ops[o].pc.conn].state == Held(o);
    }
  }

  /** Such a state is reached: after a dial the connection survives `Close`. */
  lemma HeldIsReached(maxConns: int, frame: Bytes)
    ensures var es := [Begin(frame), Get(0, true), CloseAll];
            && EnabledAll(Init(maxConns), es)
            && var p := Run(Init(maxConns), es);
            && |p.conns| == 1 && p.conns[0].state != Closed
  {
    var es := [Begin(frame), Get(0, true), CloseAll];
    assert es[1..] == [Get(0, true), CloseAll] && es[1..][1..] == [CloseAll];
    var p1 := Apply(Init(maxConns), es[0]);
    var p2 := Apply(p1, es[1]);
    var p3 := Apply(p2, es[2]);
    assert EnabledAll(p3, []) && Run(p3, []) == p3;
    assert EnabledAll(p2, es[1..][1..]) && Run(p2, es[1..][1..]) == p3;
    assert EnabledAll(p1, es[1..]) && Run(p1, es[1..]) == p3;
  }

  // ----- what a call can count on -----

  lemma RunCons(p: Pool, e: Event, es: seq<Event>)
    requires Enabled(p, e) && EnabledAll(Apply(p, e), es)
    ensures EnabledAll(p, [e] + es) && Run(p, [e] + es) == Run(Apply(p, e), es)
  {
    assert ([e] + es)[1..] == es;
  }

  lemma RunOne(p: Pool, e: Event)
    requires Enabled(p, e)
    ensures EnabledAll(p, [e]) && Run(p, [e]) == Apply(p, e)
  {
    assert [e][1..] == [];
  }

  lemma GetGives(p: Pool, op: OpId)
    requires Inv(p) && Enabled(p, Get(op, true))
    ensures var q := Apply(p, Get(op, true));
            && q.ops[op].pc.Writing? && q.ops[op].frame == p.ops[op].frame
            && q.ops == SetPc(p.ops, op, q.ops[op].pc)
            && q.ops[op].pc.conn < |q.conns| && q.conns[q.ops[op].pc.conn].torn == []
  {
    hide ConnBytes;
  }

  lemma WriteEnds(p: Pool, op: OpId)
    requires op < |p.ops| && p.ops[op].pc.Writing? && p.ops[op].pc.conn < |p.conns|
    requires p.conns[p.ops[op].pc.conn].torn == []
    ensures var e := Chunk(op, |Encode(p.ops[op].frame)|);
            && Enabled(p, e) && Enabled(Apply(p, e), Return(op))
            && Apply(Apply(p, e), Return(op)).ops == SetPc(p.ops, op, Succeeded)
  {
    hide Encode, ChunkConn;
  }

  /** The events of an attempt that meets no failure. */
  function GoodAttempt(op: OpId, frame: Bytes): seq<Event>
  {
    [Get(op, true)] + ([Chunk(op, |Encode(frame)|)] + [Return(op)])
  }

  /** When the collector can be reached and takes the bytes, an attempt delivers, whatever else is
      going on. */
  lemma AttemptDelivers(p: Pool, op: OpId)
    requires Inv(p) && op < |p.ops| && p.ops[op].pc.Getting?
    ensures var es := GoodAttempt(op, p.ops[op].frame);
            EnabledAll(p, es) && Run(p, es).ops == SetPc(p.ops, op, Succeeded)
  {
    GetGives(p, op);
    var q := Apply(p, Get(op, true));
    WriteEnds(q, op);
    var e := Chunk(op, |Encode(p.ops[op].frame)|);
    hide Apply, Inv, Encode, Run, EnabledAll;
    RunOne(Apply(q, e), Return(op));
    RunCons(q, e, [Return(op)]);
    RunCons(p, Get(op, true), [e] + [Return(op)]);
  }

  /** A call survives its first failed write: the connection is closed, and a second attempt that
      meets no failure delivers. A second failed write ends it. */
  lemma OneRetry(p: Pool, op: OpId)
    requires Inv(p) && Enabled(p, WriteFail(op))
    ensures var q := Apply(p, WriteFail(op));
            && q.conns[p.ops[op].pc.conn].state == Closed
            && if p.ops[op].pc.retry then q.ops[op].pc == Failed
               else
                 var es := [WriteFail(op)] + GoodAttempt(op, p.ops[op].frame);
                 EnabledAll(p, es) && Run(p, es).ops == SetPc(p.ops, op, Succeeded)
  {
    StepInv(p, WriteFail(op));
    var q := Apply(p, WriteFail(op));
    if !p.ops[op].pc.retry {
      AttemptDelivers(q, op);
      RunCons(p, WriteFail(op), GoodAttempt(op, p.ops[op].frame));
      assert SetPc(q.ops, op, Succeeded) == SetPc(p.ops, op, Succeeded);
    }
  }

  // ----- the idle list is a queue, and the health flag the last news -----

  /** The connections that calls took from the idle list, in order; dials are not among them. */
  function Reused(p: Pool, es: seq<Event>): seq<ConnId>
    requires EnabledAll(p, es)
    decreases |es|
  {
    if es == [] then []
    else
      var q := Apply(p, es[0]);
      (if es[0].Get? && p.idle != [] && q.ops[es[0].op].pc.Writing? then [q.ops[es[0].op].pc.conn] else []) +
      Reused(q, es[1..])
  }

  /** The connections that calls gave back while there was room, in order. */
  function GivenBack(p: Pool, es: seq<Event>): seq<ConnId>
    requires EnabledAll(p, es)
    decreases |es|
  {
    if es == [] then []
    else
      (if es[0].Return? && |p.idle| < p.maxConns then [p.ops[es[0].op].pc.conn] else []) +
      GivenBack(Apply(p, es[0]), es[1..])
  }

  lemma QueueStep(p: Pool, e: Event)
    requires Inv(p) && Enabled(p, e) && !e.CloseAll?
    ensures var q := Apply(p, e);
            && q.maxConns == p.maxConns
            && (e.Get? ==> e.op < |q.ops|) && (e.Return? ==> e.op < |p.ops| && p.ops[e.op].pc.Returning?)
            && (e.Get? && p.idle != [] ==> q.ops[e.op].pc.Writing? && p.idle == [q.ops[e.op].pc.conn] + q.idle)
            && (e.Return? && |p.idle| < p.maxConns ==> q.idle == p.idle + [p.ops[e.op].pc.conn])
            && (!(e.Get? && p.idle != []) && !(e.Return? && |p.idle| < p.maxConns) ==> q.idle == p.idle)
  {
    hide ConnBytes, ChunkConn, Encode;
  }

  lemma FromFront(c: ConnId, idle: seq<ConnId>, back: seq<ConnId>, used: seq<ConnId>, rest: seq<ConnId>)
    requires idle + back == used + rest
    ensures [c] + idle + ([] + back) == [c] + used + rest
  {
    assert [c] + idle + back == [c] + (idle + back);
    assert [c] + used + rest == [c] + (used + rest);
  }

  lemma ToBack(c: ConnId, idle: seq<ConnId>, back: seq<ConnId>, used: seq<ConnId>, rest: seq<ConnId>)
    requires idle + [c] + back == used + rest
    ensures idle + ([c] + back) == [] + used + rest
  {
    assert idle + ([c] + back) == idle + [c] + back;
    assert [] + used == used;
  }

  lemma Neither(idle: seq<ConnId>, back: seq<ConnId>, used: seq<ConnId>, rest: seq<ConnId>)
    requires idle + back == used + rest
    ensures idle + ([] + back) == [] + used + rest
  {
    assert [] + back == back && [] + used == used;
  }

  /** Connections are reused in the order in which they were given back, none is skipped and none is
      thrown away while there is room. */
  lemma {:induction false} ReusedInOrder(p: Pool, es: seq<Event>)
    requires Inv(p) && EnabledAll(p, es) && CloseAll !in es
    ensures p.idle + GivenBack(p, es) == Reused(p, es) + Run(p, es).idle
    decreases |es|
  {
    hide Apply, Inv, Enabled;
    if es == [] {
      assert p.idle + [] == [] + p.idle;
    } else {
      var e, q := es[0], Apply(p, es[0]);
      assert e != CloseAll;
      QueueStep(p, e);
      StepInv(p, e);
      ReusedInOrder(q, es[1..]);
      var back, used, rest := GivenBack(q, es[1..]), Reused(q, es[1..]), Run(q, es[1..]).idle;
      if e.Get? && p.idle != [] {
        FromFront(q.ops[e.op].pc.conn, q.idle, back, used, rest);
      } else if e.Return? && |p.idle| < p.maxConns {
        ToBack(p.ops[e.op].pc.conn, p.idle, back, used, rest);
      } else {
        Neither(p.idle, back, used, rest);
      }
    }
  }

  /** What the pool learned about the collector: the outcome of every dial, and `false` for `Close`. */
  function News(p: Pool, es: seq<Event>): seq<bool>
    requires EnabledAll(p, es)
    decreases |es|
  {
    if es == [] then []
    else
      (if es[0].Get? && p.idle == [] then [es[0].dialOk] else if es[0].CloseAll? then [false] else []) +
      News(Apply(p, es[0]), es[1..])
  }

  lemma HealthStep(p: Pool, e: Event)
    requires Inv(p) && Enabled(p, e)
    ensures Apply(p, e).healthy ==
            if e.Get? && p.idle == [] then e.dialOk else if e.CloseAll? then false else p.healthy
  {
    hide ConnBytes, ChunkConn, Encode;
  }

  /** `Healthy` reports the last news: false exactly when the last dial failed or the pool was
      closed since; optimistic at the start. */
  lemma {:induction false} HealthyIsLastNews(p: Pool, es: seq<Event>)
    requires Inv(p) && EnabledAll(p, es)
    ensures Run(p, es).healthy == if News(p, es) == [] then p.healthy else News(p, es)[|News(p, es)| - 1]
    decreases |es|
  {
    if es != [] {
      HealthStep(p, es[0]);
      StepInv(p, es[0]);
      hide Apply, Inv, Enabled;
      HealthyIsLastNews(Apply(p, es[0]), es[1..]);
    }
  }

  // ----- the imperative code, run without interference -----

  lemma {:induction false} RunAppend(p: Pool, es: seq<Event>, e: Event)
    requires EnabledAll(p, es) && Enabled(Run(p, es), e)
    ensures EnabledAll(p, es + [e]) && Run(p, es + [e]) == Apply(Run(p, es), e)
    decreases |es|
  {
    if es == [] {
      assert es + [e] == [e] && [e][1..] == [];
    } else {
      assert (es + [e])[1..] == es[1..] + [e];
      RunAppend(Apply(p, es[0]), es[1..], e);
    }
  }

  /** What the environment does to one attempt: whether a dial would succeed, and how many
      bytes a write is allowed to emit before failing. */
  datatype Attempt = Attempt(dialOk: bool, accepts: nat)

  /** The idle list after a connection was taken from it. */
  function Rest(idle: seq<ConnId>): seq<ConnId> { if idle == [] then [] else idle[1..] }

  /** How many idle connections are left after taking one, and after giving one back. */
  function Taken(idle: nat): nat { if idle == 0 then 0 else idle - 1 }

  function Kept(idle: nat, maxConns: int): nat { if idle < maxConns then idle + 1 else idle }

  /** An attempt delivers when there is a connection and the whole payload is accepted. */
  predicate Delivers(idle: nat, a: Attempt, frame: Bytes)
  {
    (idle > 0 || a.dialOk) && a.accepts >= |Encode(frame)|
  }

  /** When `Forward` returns nil, with the given number of idle connections: the first attempt
      delivers, or it had a connection whose write failed and the second attempt delivers. */
  predicate ForwardSucceeds(idle: nat, frame: Bytes, first: Attempt, second: Attempt)
  {
    Delivers(idle, first, frame) || ((idle > 0 || first.dialOk) && Delivers(Taken(idle), second, frame))
  }

  /** The number of idle connections after a `Forward` that returned nil. */
  function IdleAfter(idle: nat, maxConns: int, frame: Bytes, first: Attempt): nat
  {
    Kept(if Delivers(idle, first, frame) then Taken(idle) else Taken(Taken(idle)), maxConns)
  }

  /** The events of one `Write` on a fresh connection, and that they are a run. */
  lemma WriteEvents(p: Pool, op: OpId, accepts: nat, start: Pool, es: seq<Event>)
    requires Inv(p) && op < |p.ops| && p.ops[op].pc.Writing? && p.ops[op].pc.conn < |p.conns|
    requires p.conns[p.ops[op].pc.conn].torn == []
    requires EnabledAll(start, es) && p == Run(start, es)
    ensures var n := |Encode(p.ops[op].frame)|;
            if accepts >= n then
              && Enabled(p, Chunk(op, n)) && Inv(ApplyChunk(p, op, n))
              && EnabledAll(start, es + [Chunk(op, n)])
              && Run(start, es + [Chunk(op, n)]) == ApplyChunk(p, op, n)
            else
              && Enabled(p, Chunk(op, accepts))
              && var q, more := ApplyChunk(p, op, accepts), es + [Chunk(op, accepts)];
              && Enabled(q, WriteFail(op)) && Inv(ApplyWriteFail(q, op))
              && EnabledAll(start, more + [WriteFail(op)])
              && Run(start, more + [WriteFail(op)]) == ApplyWriteFail(q, op)
  {
    hide ConnBytes, Inv, Run, EnabledAll, Encode, ChunkConn;
    var n := |Encode(p.ops[op].frame)|;
    var e := Chunk(op, if accepts >= n then n else accepts);
    StepInv(p, e);
    RunAppend(start, es, e);
    if accepts < n {
      StepInv(Apply(p, e), WriteFail(op));
      RunAppend(start, es + [e], WriteFail(op));
    }
  }

  lemma HeldAfterGet(p: Pool, op: OpId, dialOk: bool)
    requires Inv(p) && Enabled(p, Get(op, dialOk))
    ensures var q := ApplyGet(p, op, dialOk);
            q.ops[op].pc.Writing? ==>
              && q.ops == SetPc(p.ops, op, Writing(p.ops[op].pc.retry, q.ops[op].pc.conn))
              && q.ops[op].pc.conn < |q.conns| && q.conns[q.ops[op].pc.conn].torn == []
  {
    hide ConnBytes;
  }

  class Collector {
    const maxConns: int
    var conns: seq<Conn>
    var idle: seq<ConnId>
    var healthy: bool
    var ops: seq<Op> // every call so far and where it stands

    ghost function View(): Pool
      reads this
    {
      Pool(maxConns, conns, idle, healthy, ops)
    }

    constructor (maxConns: int)
      ensures View() == Init(maxConns)
    {
      this.maxConns := maxConns;
      conns, idle, healthy, ops := [], [], true, [];
    }

    /** `getConn` for call `op`. */
    method GetConn(op: OpId, frame: Bytes, dialOk: bool) returns (c: Option<ConnId>)
      requires Inv(View()) && Enabled(View(), Get(op, dialOk)) && ops[op].frame == frame
      modifies this
      ensures View() == ApplyGet(old(View()), op, dialOk)
      ensures if c.Some? then ops[op].pc == Writing(old(ops[op].pc.retry), c.value) else ops[op].pc == Failed
      ensures (c.Some? <==> old(idle) != [] || dialOk) && idle == Rest(old(idle))
    {
      if |idle| > 0 {
        var id := idle[0];
        conns := conns[id := Start(conns[id], op, frame)];
        idle := idle[1..];
        ops := SetPc(ops, op, Writing(ops[op].pc.retry, id));
        return Some(id);
      }
      if !dialOk {
        healthy := false;
        ops := SetPc(ops, op, Failed);
        return None;
      }
      healthy := true;
      c := Some(|conns|);
      ops := SetPc(ops, op, Writing(ops[op].pc.retry, |conns|));
      conns := conns + [Start(Conn(Closed, [], [], [], []), op, frame)];
    }

    /** One `Write` of the whole payload; on failure `markDead` closes the connection. */
    method Write(op: OpId, c: ConnId, frame: Bytes, accepts: nat) returns (ok: bool)
      requires Inv(View()) && op < |ops| && ops[op].pc.Writing? && ops[op].pc.conn == c
      requires ops[op].frame == frame && c < |conns| && conns[c].torn == []
      modifies this
      ensures ok == (accepts >= |Encode(frame)|)
      ensures ok ==> View() == ApplyChunk(old(View()), op, |Encode(frame)|)
      ensures !ok ==> View() == ApplyWriteFail(ApplyChunk(old(View()), op, accepts), op)
    {
      hide Inv, Encode;
      var payload := Encode(frame);
      ok := accepts >= |payload|;
      var n := if ok then |payload| else accepts;
      conns := conns[c := ChunkConn(conns[c], op, frame, n)];
      if ok {
        ops := SetPc(ops, op, Returning(c));
      } else {
        ghost var mid := View();
        conns := conns[c := conns[c].(state := Closed)];
        ops := SetPc(ops, op, if ops[op].pc.retry then Failed else Getting(true));
        assert View() == ApplyWriteFail(mid, op);
      }
    }

    method ReturnConn(op: OpId, c: ConnId)
      requires Inv(View()) && Enabled(View(), Return(op)) && ops[op].pc.conn == c
      modifies this
      ensures View() == ApplyReturn(old(View()), op)
    {
      assert c < |conns|;
      hide Inv;
      if |idle| < maxConns {
        idle := idle + [c];
        conns := conns[c := conns[c].(state := Idle)];
      } else {
        conns := conns[c := conns[c].(state := Closed)];
      }
      ops := SetPc(ops, op, Succeeded);
    }

    /** The rest of an attempt once a connection is held: write, then give it back. */
    method WriteAndReturn(op: OpId, c: ConnId, frame: Bytes, accepts: nat, ghost start: Pool, ghost before: seq<Event>)
      returns (ok: bool, ghost es: seq<Event>)
      requires Inv(View()) && op < |ops| && ops[op].pc.Writing? && ops[op].pc.conn == c
      requires ops[op].frame == frame && c < |conns| && conns[c].torn == []
      requires EnabledAll(start, before) && View() == Run(start, before)
      modifies this
      ensures Inv(View()) && |ops| == old(|ops|)
      ensures ops == SetPc(old(ops), op,
                           if ok then Succeeded else if old(ops[op].pc.retry) then Failed else Getting(true))
      ensures (ok <==> accepts >= |Encode(frame)|) && (!ok ==> idle == old(idle))
      ensures ok ==> |idle| == Kept(old(|idle|), maxConns)
      ensures EnabledAll(start, es) && View() == Run(start, es)
    {
      hide Inv, Run, EnabledAll, ConnBytes, Encode, ChunkConn;
      WriteEvents(View(), op, accepts, start, before);
      ok := Write(op, c, frame, accepts);
      if !ok {
        es := before + [Chunk(op, accepts)] + [WriteFail(op)];
        return;
      }
      es := before + [Chunk(op, |Encode(frame)|)];
      RunAppend(start, es, Return(op));
      StepInv(View(), Return(op));
      ReturnConn(op, c);
      es := es + [Return(op)];
    }

    /** One attempt: get a connection, write, and give it back. */
    method Attempt(op: OpId, frame: Bytes, a: Attempt, ghost start: Pool, ghost before: seq<Event>)
      returns (ok: bool, ghost es: seq<Event>)
      requires Inv(View()) && op < |ops| && ops[op].pc.Getting? && ops[op].frame == frame
      requires EnabledAll(start, before) && View() == Run(start, before)
      modifies this
      ensures Inv(View()) && |ops| == old(|ops|)
      ensures ok <==> Delivers(old(|idle|), a, frame)
      ensures ok ==> |idle| == Kept(Taken(old(|idle|)), maxConns)
      ensures ok ==> ops == SetPc(old(ops), op, Succeeded)
      ensures !ok ==> idle == Rest(old(idle))
      ensures !ok ==> ops == SetPc(old(ops), op, if (old(idle) != [] || a.dialOk) && !old(ops[op].pc.retry)
                                                 then Getting(true) else Failed)
      ensures EnabledAll(start, es) && View() == Run(start, es)
    {
      hide Inv, Run, EnabledAll, ConnBytes;
      ok, es := false, before + [Get(op, a.dialOk)];
      RunAppend(start, before, Get(op, a.dialOk));
      StepInv(View(), Get(op, a.dialOk));
      ghost var was := View();
      HeldAfterGet(was, op, a.dialOk);
      var c := GetConn(op, frame, a.dialOk);
      if c.Some? {
        ok, es := WriteAndReturn(op, c.value, frame, a.accepts, start, es);
      }
    }

    /** `Forward`: a second attempt only after a failed write. The call is a run of the machine
        and ends in success or failure as it returns. */
    method Forward(frame: Bytes, first: Attempt, second: Attempt) returns (ok: bool, ghost es: seq<Event>)
      requires Inv(View())
      modifies this
      ensures Inv(View()) && EnabledAll(old(View()), es) && View() == Run(old(View()), es)
      ensures |ops| == old(|ops|) + 1 && ops[|ops| - 1].frame == frame
      ensures forall i :: 0 <= i < old(|ops|) ==> ops[i] == old(ops[i])
      ensures ops[|ops| - 1].pc == if ok then Succeeded else Failed
      ensures ok <==> ForwardSucceeds(old(|idle|), frame, first, second)
      ensures ok ==> |idle| == IdleAfter(old(|idle|), maxConns, frame, first)
    {
      hide Inv, Encode;
      ghost var start := View();
      StepInv(start, Begin(frame));
      RunAppend(start, [], Begin(frame));
      var id := |ops|;
      ops := ops + [Op(frame, Getting(false))];
      es := [] + [Begin(frame)];
      ok, es := Attempt(id, frame, first, start, es);
      if ops[id].pc.Getting? {
        ok, es := Attempt(id, frame, second, start, es);
      }
    }

    method Close()
      requires Inv(View())
      modifies this
      ensures View() == Apply(old(View()), CloseAll) && Inv(View())
    {
      StepInv(View(), CloseAll);
      conns := CloseConns(conns, idle);
      idle := [];
      healthy := false;
    }
  }
}
