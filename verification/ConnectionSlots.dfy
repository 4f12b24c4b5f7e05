/** Connection slots of internal/syslog/server.go: the per-tenant counters behind
    `acquireConnSlot` and its once-only release, under the accept loop's semaphore. */
module ConnectionSlots {
  import opened Sums

  type Tenant = int

  /** One successful acquire: its tenant, the handler that made it, and whether the release
      function has taken effect. */
  datatype Grant = Grant(tenant: Tenant, owner: nat, released: bool)

  /** A handler goroutine before it asks for a slot, while it has grant `slot`, or refused. */
  datatype Handler = Fresh | Holding(slot: nat) | Refused

  datatype Server = Server(
    maxPerTenant: int, capacity: int, counts: map<Tenant, int>, grants: seq<Grant>, handlers: map<nat, Handler>)

  datatype Event =
    | Accept(handler: nat)
    | Acquire(handler: nat, tenant: Tenant)
    | Release(slot: nat)
    | Exit(handler: nat)

  const DEFAULT_PER_TENANT := 50

  function CapOf(maxPerTenant: int): int { if maxPerTenant <= 0 then DEFAULT_PER_TENANT else maxPerTenant }

  function Cap(s: Server): int { CapOf(s.maxPerTenant) }

  /** The counters after a grant and after a release. */
  function Acquired(counts: map<Tenant, int>, t: Tenant): map<Tenant, int> { counts[t := At(counts, t) + 1] }

  function Released(counts: map<Tenant, int>, t: Tenant): map<Tenant, int>
  {
    if At(counts, t) - 1 <= 0 then counts - {t} else counts[t := At(counts, t) - 1]
  }

  /** Handlers exit only after their deferred release has run; the semaphore holds one token
      per live handler. */
  predicate Enabled(s: Server, e: Event)
  {
    match e
    case Accept(h) => h !in s.handlers && |s.handlers| < s.capacity
    case Acquire(h, _) => h in s.handlers && s.handlers[h].Fresh?
    case Release(g) => g < |s.grants|
    case Exit(h) =>
      && h in s.handlers
      && (s.handlers[h].Holding? ==> s.handlers[h].slot < |s.grants| && s.grants[s.handlers[h].slot].released)
  }

  /** `acquireConnSlot`. */
  function ApplyAcquire(s: Server, h: nat, t: Tenant): Server
    requires Enabled(s, Acquire(h, t))
  {
    if At(s.counts, t) >= Cap(s) then s.(handlers := s.handlers[h := Refused])
    else s.(counts := Acquired(s.counts, t),
            grants := s.grants + [Grant(t, h, false)],
            handlers := s.handlers[h := Holding(|s.grants|)])
  }

  /** The release function: only its first call does anything. */
  function ApplyRelease(s: Server, g: nat): Server
    requires Enabled(s, Release(g))
  {
    var t := s.grants[g].tenant;
    if s.grants[g].released then s
    else s.(counts := Released(s.counts, t),
            grants := s.grants[g := s.grants[g].(released := true)])
  }

  function Apply(s: Server, e: Event): Server
    requires Enabled(s, e)
  {
    match e
    case Accept(h) => s.(handlers := s.handlers[h := Fresh])
    case Acquire(h, t) => ApplyAcquire(s, h, t)
    case Release(g) => ApplyRelease(s, g)
    case Exit(h) => s.(handlers := s.handlers - {h})
  }

  /** Granted and not yet released, for one tenant and for all. */
  function LiveOf(grants: seq<Grant>, t: Tenant): set<nat>
  {
    set g: nat | g < |grants| && !grants[g].released && grants[g].tenant == t
  }

  function Live(grants: seq<Grant>): set<nat>
  {
    set g: nat | g < |grants| && !grants[g].released
  }

  ghost predicate Inv(s: Server)
  {
    && (forall t :: At(s.counts, t) == |LiveOf(s.grants, t)| && At(s.counts, t) <= Cap(s))
    && (forall t :: t in s.counts ==> s.counts[t] > 0)
    && Sum(s.counts) == |Live(s.grants)|
    && Held(s)
    && |s.handlers| <= (if s.capacity < 0 then 0 else s.capacity)
  }

  lemma GrantCounts(grants: seq<Grant>, g: Grant, t: Tenant)
    requires !g.released
    ensures |LiveOf(grants + [g], t)| == |LiveOf(grants, t)| + if g.tenant == t then 1 else 0
    ensures |Live(grants + [g])| == |Live(grants)| + 1
  {
    assert LiveOf(grants + [g], t) == LiveOf(grants, t) + if g.tenant == t then {|grants|} else {};
    assert Live(grants + [g]) == Live(grants) + {|grants|};
  }

  lemma ReleaseCounts(grants: seq<Grant>, g: nat, t: Tenant)
    requires g < |grants| && !grants[g].released
    ensures var after := grants[g := grants[g].(released := true)];
            && |LiveOf(after, t)| == |LiveOf(grants, t)| - (if grants[g].tenant == t then 1 else 0)
            && |Live(after)| == |Live(grants)| - 1
  {
    var after := grants[g := grants[g].(released := true)];
    assert g in Live(grants);
    assert Live(after) == Live(grants) - {g};
    if grants[g].tenant == t {
      assert g in LiveOf(grants, t);
      assert LiveOf(after, t) == LiveOf(grants, t) - {g};
    } else {
      assert LiveOf(after, t) == LiveOf(grants, t);
    }
  }

  lemma AcquireStep(s: Server, h: nat, t: Tenant)
    requires Inv(s) && Enabled(s, Acquire(h, t))
    ensures Inv(ApplyAcquire(s, h, t))
  {
    hide LiveOf, Live, Sum;
    var s' := ApplyAcquire(s, h, t);
    assert s'.handlers.Keys == s.handlers.Keys;
    if s'.grants != s.grants {
      SumUpdate(s.counts, t, At(s.counts, t) + 1);
      forall u ensures At(s'.counts, u) == |LiveOf(s'.grants, u)| {
        GrantCounts(s.grants, Grant(t, h, false), u);
      }
      GrantCounts(s.grants, Grant(t, h, false), t);
      assert Sum(s'.counts) == |Live(s'.grants)|;
      forall u ensures At(s'.counts, u) <= Cap(s') {
        assert At(s.counts, u) <= Cap(s);
      }
    }
  }

  lemma ReleaseStep(s: Server, g: nat)
    requires Inv(s) && Enabled(s, Release(g))
    ensures Inv(ApplyRelease(s, g))
  {
    hide LiveOf, Live, Sum;
    var s' := ApplyRelease(s, g);
    if !s.grants[g].released {
      var t := s.grants[g].tenant;
      forall u ensures At(s'.counts, u) == |LiveOf(s'.grants, u)| {
        ReleaseCounts(s.grants, g, u);
      }
      ReleaseCounts(s.grants, g, t);
      assert t in s.counts;
      SumUpdate(s.counts, t, s.counts[t] - 1);
      SumRemove(s.counts, t);
      assert Sum(s'.counts) == |Live(s'.grants)|;
      assert forall u :: At(s'.counts, u) <= At(s.counts, u);
    }
  }

  /** Every unreleased slot belongs to a handler that holds it. */
  ghost predicate Held(s: Server)
  {
    forall g :: 0 <= g < |s.grants| && !s.grants[g].released ==>
      s.grants[g].owner in s.handlers && s.handlers[s.grants[g].owner] == Holding(g)
  }

  lemma HeldAfterAccept(s: Server, h: nat)
    requires Held(s) && h !in s.handlers
    ensures Held(s.(handlers := s.handlers[h := Fresh]))
  {
  }

  lemma HeldAfterExit(s: Server, h: nat)
    requires Held(s) && Enabled(s, Exit(h))
    ensures Held(s.(handlers := s.handlers - {h}))
  {
  }

  lemma HandlerStep(s: Server, e: Event)
    requires Inv(s) && Enabled(s, e) && (e.Accept? || e.Exit?)
    ensures Inv(Apply(s, e))
  {
    hide LiveOf, Live, Sum, Held;
    if e.Accept? {
      HeldAfterAccept(s, e.handler);
      assert |s.handlers[e.handler := Fresh]| == |s.handlers| + 1;
    } else {
      HeldAfterExit(s, e.handler);
      assert |s.handlers - {e.handler}| <= |s.handlers|;
    }
  }

  lemma Step(s: Server, e: Event)
    requires Inv(s) && Enabled(s, e)
    ensures Inv(Apply(s, e))
  {
    hide Inv;
    match e
    case Acquire(h, t) => AcquireStep(s, h, t);
    case Release(g) => ReleaseStep(s, g);
    case _ => HandlerStep(s, e);
  }

  predicate EnabledAll(s: Server, es: seq<Event>)
    decreases |es|
  {
    es == [] || (Enabled(s, es[0]) && EnabledAll(Apply(s, es[0]), es[1..]))
  }

  function Run(s: Server, es: seq<Event>): Server
    requires EnabledAll(s, es)
    decreases |es|
  {
    if es == [] then s else Run(Apply(s, es[0]), es[1..])
  }

  function Init(maxPerTenant: int, capacity: int): Server { Server(maxPerTenant, capacity, map[], [], map[]) }

  lemma {:induction false} RunInv(s: Server, es: seq<Event>)
    requires Inv(s) && EnabledAll(s, es)
    ensures Inv(Run(s, es)) && Run(s, es).capacity == s.capacity && Cap(Run(s, es)) == Cap(s)
    decreases |es|
  {
    hide Inv;
    if es != [] {
      Step(s, es[0]);
      RunInv(Apply(s, es[0]), es[1..]);
    }
  }

  lemma LiveWithinHandlers(s: Server)
    requires Inv(s)
    ensures |Live(s.grants)| <= |s.handlers|
  {
    var owner := map g | g in Live(s.grants) :: s.grants[g].owner;
    Injects(Live(s.grants), s.handlers.Keys, owner);
  }

  /** In every interleaving: a tenant's counter is the number of its unreleased slots, is
      present exactly when that is not zero, never exceeds the cap, and all counters together
      never exceed the semaphore. */
  lemma SlotsAreExact(maxPerTenant: int, capacity: nat, es: seq<Event>)
    requires EnabledAll(Init(maxPerTenant, capacity), es)
    ensures var s := Run(Init(maxPerTenant, capacity), es);
            && (forall t :: At(s.counts, t) == |LiveOf(s.grants, t)| <= if maxPerTenant > 0 then maxPerTenant else 50)
            && (forall t :: t in s.counts <==> LiveOf(s.grants, t) != {})
            && Sum(s.counts) <= |s.handlers| <= capacity
  {
    var init := Init(maxPerTenant, capacity);
    assert forall t :: LiveOf(init.grants, t) == {};
    assert Live(init.grants) == {};
    RunInv(init, es);
    var s := Run(init, es);
    LiveWithinHandlers(s);
    forall t ensures t in s.counts <==> LiveOf(s.grants, t) != {} {
      assert At(s.counts, t) == |LiveOf(s.grants, t)|;
    }
  }

  /** A connection is granted a slot if and only if its tenant has fewer than the cap unreleased, in
      every interleaving; and the slot is the tenant's and the handler's. */
  lemma GrantedIff(maxPerTenant: int, capacity: nat, es: seq<Event>, h: nat, t: Tenant)
    requires EnabledAll(Init(maxPerTenant, capacity), es)
    requires Enabled(Run(Init(maxPerTenant, capacity), es), Acquire(h, t))
    ensures var s := Run(Init(maxPerTenant, capacity), es);
            var after := Apply(s, Acquire(h, t));
            && (after.handlers[h].Holding? <==> |LiveOf(s.grants, t)| < if maxPerTenant > 0 then maxPerTenant else 50)
            && (after.handlers[h].Holding? <==> !after.handlers[h].Refused?)
            && (after.handlers[h].Holding? ==> after.grants == s.grants + [Grant(t, h, false)])
            && (after.handlers[h].Refused? ==> after.grants == s.grants && after.counts == s.counts)
  {
    RunInv(Init(maxPerTenant, capacity), es);
    var s := Run(Init(maxPerTenant, capacity), es);
    hide Run, EnabledAll, LiveOf, Live, Sum, Held;
    assert At(s.counts, t) == |LiveOf(s.grants, t)|;
  }

  /** A release gives the slot back: the tenant has one fewer unreleased, others as many as before. */
  lemma ReleaseFrees(s: Server, g: nat, t: Tenant)
    requires g < |s.grants| && !s.grants[g].released
    ensures var after := ApplyRelease(s, g);
            && |after.grants| == |s.grants| && after.grants[g].released
            && |LiveOf(after.grants, t)| == |LiveOf(s.grants, t)| - (if s.grants[g].tenant == t then 1 else 0)
            && after.handlers == s.handlers
  {
    hide LiveOf, Live;
    ReleaseCounts(s.grants, g, t);
  }

  /** A handler that exits makes room for another connection. */
  lemma ExitFrees(s: Server, h: nat)
    requires Enabled(s, Exit(h))
    ensures var after := Apply(s, Exit(h));
            h !in after.handlers && |after.handlers| == |s.handlers| - 1 && after.counts == s.counts
  {
  }

  /** The listener accepts as many connections at once as the semaphore holds. */
  lemma {:induction false} CapacityIsReached(maxPerTenant: int, capacity: nat, n: nat) returns (es: seq<Event>)
    requires n <= capacity
    ensures EnabledAll(Init(maxPerTenant, capacity), es)
    ensures var s := Run(Init(maxPerTenant, capacity), es);
            |s.handlers| == n && s.capacity == capacity && forall h :: h in s.handlers ==> h < n
  {
    if n == 0 {
      es := [];
    } else {
      var first := CapacityIsReached(maxPerTenant, capacity, n - 1);
      var s := Run(Init(maxPerTenant, capacity), first);
      assert n - 1 !in s.handlers;
      assert |s.handlers[n - 1 := Fresh]| == n;
      RunAppend(Init(maxPerTenant, capacity), first, Accept(n - 1));
      es := first + [Accept(n - 1)];
    }
  }

  lemma {:induction false} RunAppend(s: Server, es: seq<Event>, e: Event)
    requires EnabledAll(s, es) && Enabled(Run(s, es), e)
    ensures EnabledAll(s, es + [e]) && Run(s, es + [e]) == Apply(Run(s, es), e)
    decreases |es|
  {
    if es == [] {
      assert es + [e] == [e] && [e][1..] == [];
    } else {
      assert (es + [e])[1..] == es[1..] + [e];
      RunAppend(Apply(s, es[0]), es[1..], e);
    }
  }

  /** Calling release again has no further effect. */
  lemma ReleaseTwice(s: Server, g: nat)
    requires g < |s.grants|
    ensures ApplyRelease(ApplyRelease(s, g), g) == ApplyRelease(s, g)
  {
  }

  /** Acquiring and releasing restores the counters, when they are all positive, as they are in
      every run. */
  lemma AcquireThenRelease(counts: map<Tenant, int>, t: Tenant)
    requires t in counts ==> counts[t] > 0
    ensures Released(Acquired(counts, t), t) == counts
  {
    if t !in counts {
      assert Acquired(counts, t) - {t} == counts;
    }
  }

  /** The counter code itself, as the machine uses it. */
  class ConnCounts {
    const max: int
    var counts: map<Tenant, int>

    constructor (max: int)
      ensures this.max == max && counts == map[]
    {
      this.max := max;
      counts := map[];
    }

    method AcquireConnSlot(t: Tenant) returns (ok: bool)
      modifies this
      ensures ok <==> At(old(counts), t) < if max > 0 then max else 50
      ensures counts == if ok then Acquired(old(counts), t) else old(counts)
    {
      var cap := max;
      if cap <= 0 {
        cap := DEFAULT_PER_TENANT;
      }
      var count := if t in counts then counts[t] else 0;
      if count >= cap {
        return false;
      }
      counts := counts[t := count + 1];
      ok := true;
    }

    /** The body of the release closure. */
    method ReleaseSlot(t: Tenant)
      modifies this
      ensures counts == Released(old(counts), t)
    {
      counts := counts[t := (if t in counts then counts[t] else 0) - 1];
      if counts[t] <= 0 {
        counts := counts - {t};
      }
    }
  }
}
