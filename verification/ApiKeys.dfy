/** API keys and tenants (internal/store/apikeys.go, internal/store/tenants.go). Only hashes of
    keys are stored; SHA-256 is taken to be injective, so a hash is modelled by the key it came
    from, and generated secrets are taken to be fresh. */
module ApiKeys {
  import opened ByteStrings
  import Sums

  datatype Hash = Sha256(key: Bytes)

  datatype KeyRow = KeyRow(tenant: int, prefix: Bytes, enabled: bool, revoked: bool)

  datatype TenantRow = TenantRow(
    name: Bytes, description: Bytes, apiKey: Bytes, active: bool,
    rps: Option<int>, burst: Option<int>, quota: Option<int>)

  /** The two tables; the unique index on `key_hash` makes hashes keys of a map, and ids are
      never reused (`AUTOINCREMENT`). */
  datatype Tables = Tables(tenants: map<int, TenantRow>, keys: map<Hash, KeyRow>, lastId: nat)

  const SECRET_LENGTH := 48
  const LEGACY_LENGTH := 32
  const PREFIX_LENGTH := 12

  predicate IsHexDigit(c: byte) { '0' <= c <= '9' || 'a' <= c <= 'f' }

  predicate IsHex(s: Bytes) { forall i :: 0 <= i < |s| ==> IsHexDigit(s[i]) }

  predicate IsSecret(s: Bytes) { |s| == SECRET_LENGTH && IsHex(s) }

  /** `GenerateAPIKeyV2` with the given random part. */
  function Generate(id: int, secret: Bytes): Bytes { "ing_" + Itoa(id) + "_" + secret }

  /** How a presented key is understood. */
  datatype Shape = Malformed | Embedded(id: int) | Legacy

  function ShapeOf(key: Bytes): Shape
  {
    if HasPrefix(key, "ing_") then
      var rest := key[4..];
      var at := IndexByte(rest, '_');
      if at < 0 then Malformed
      else
        var id := ParseInt(rest[..at]);
        if id.None? || id.value <= 0 || !IsSecret(rest[at + 1..]) then Malformed else Embedded(id.value)
    else if |key| == LEGACY_LENGTH && IsHex(key) then Legacy
    else Malformed
  }

  /** Rows a lookup accepts: enabled, not revoked, of an active tenant. */
  predicate Live(s: Tables, h: Hash)
  {
    && h in s.keys && s.keys[h].enabled && !s.keys[h].revoked
    && s.keys[h].tenant in s.tenants && s.tenants[s.keys[h].tenant].active
  }

  /** What the query of a lookup returns: for keys with an embedded id, all live rows of that
      tenant; for legacy keys, live rows with the key's hash. */
  function Candidates(s: Tables, key: Bytes): set<Hash>
  {
    match ShapeOf(key)
    case Malformed => {}
    case Embedded(id) => set h | h in s.keys && Live(s, h) && s.keys[h].tenant == id
    case Legacy => set h | h in s.keys && Live(s, h) && h == Sha256(key)
  }

  /** The tenant a key authenticates. */
  function Lookup(s: Tables, key: Bytes): Option<int>
  {
    if Sha256(key) in Candidates(s, key) then Some(s.keys[Sha256(key)].tenant) else None
  }

  // ----- statements -----

  function InsertTenant(s: Tables, row: TenantRow): Tables
  {
    s.(tenants := s.tenants[s.lastId + 1 := row.(apiKey := "", active := true)], lastId := s.lastId + 1)
  }

  /** Fails on an unknown tenant (foreign key) and on a known hash (unique index). */
  function InsertKey(s: Tables, id: int, h: Hash, prefix: Bytes): (bool, Tables)
  {
    if id !in s.tenants || h in s.keys then (false, s)
    else (true, s.(keys := s.keys[h := KeyRow(id, prefix, true, false)]))
  }

  function Revoke(s: Tables, id: int): Tables
  {
    s.(keys := map h | h in s.keys :: if s.keys[h].tenant == id then s.keys[h].(revoked := true) else s.keys[h])
  }

  function Update(s: Tables, id: int, row: TenantRow): Tables
  {
    if id in s.tenants then s.(tenants := s.tenants[id := row.(apiKey := s.tenants[id].apiKey)]) else s
  }

  /** Deleting a tenant cascades to its keys. */
  function Delete(s: Tables, id: int): Tables
  {
    s.(tenants := s.tenants - {id}, keys := map h | h in s.keys && s.keys[h].tenant != id :: s.keys[h])
  }

  // ----- generated keys -----

  /** A generated key parses back to its id, exactly when the id is positive. */
  lemma GeneratedShape(id: int, secret: Bytes)
    requires MIN_INT64 <= id <= MAX_INT64 && IsSecret(secret)
    ensures ShapeOf(Generate(id, secret)) == if id > 0 then Embedded(id) else Malformed
    ensures |Generate(id, secret)| >= PREFIX_LENGTH
  {
    hide Itoa, ParseInt, IsHex;
    var rest := Itoa(id) + ['_'] + secret;
    assert Generate(id, secret) == "ing_" + rest;
    assert Generate(id, secret)[4..] == rest;
    ItoaBytes(id, '_');
    FirstByteAt(Itoa(id), '_', secret);
    ItoaParse(id);
  }

  /** Keys of different tenants, or with different secrets, differ. */
  lemma GenerateInjective(id: int, secret: Bytes, id': int, secret': Bytes)
    requires IsSecret(secret) && IsSecret(secret')
    requires MIN_INT64 <= id <= MAX_INT64 && MIN_INT64 <= id' <= MAX_INT64
    requires Generate(id, secret) == Generate(id', secret')
    ensures id == id' && secret == secret'
  {
    hide Itoa, ParseInt, IsHex;
    var rest, rest' := Itoa(id) + ['_'] + secret, Itoa(id') + ['_'] + secret';
    assert Generate(id, secret)[4..] == rest && Generate(id', secret')[4..] == rest';
    ItoaBytes(id, '_');
    ItoaBytes(id', '_');
    FirstByteAt(Itoa(id), '_', secret);
    FirstByteAt(Itoa(id'), '_', secret');
    ItoaParse(id);
    ItoaParse(id');
  }

  /** A legacy key is exactly 32 lower-case hex digits. */
  lemma LegacyShape(key: Bytes)
    ensures ShapeOf(key) == Legacy <==>
            |key| == 32 && forall i :: 0 <= i < |key| ==> '0' <= key[i] <= '9' || 'a' <= key[i] <= 'f'
  {
    hide ParseInt, IndexByte;
    if |key| == 32 && IsHex(key) {
      assert IsHexDigit(key[0]);
    }
  }

  /** A key with an embedded id is exactly `ing_`, a positive decimal number, `_` and 48 hex digits. */
  lemma EmbeddedShape(key: Bytes, number: Bytes, secret: Bytes)
    requires key == "ing_" + (number + ['_'] + secret) && '_' !in number
    ensures ShapeOf(key) ==
            if ParseInt(number).Some? && ParseInt(number).value > 0 && |secret| == 48 && IsHex(secret)
            then Embedded(ParseInt(number).value) else Malformed
  {
    FirstByteAt(number, '_', secret);
    hide ParseInt, IndexByte, IsHex;
    assert key[4..] == number + ['_'] + secret;
  }

  /** Nothing else has one. */
  lemma EmbeddedOnly(key: Bytes) returns (number: Bytes, secret: Bytes)
    requires ShapeOf(key).Embedded?
    ensures key == "ing_" + (number + ['_'] + secret) && '_' !in number
  {
    var rest := key[4..];
    CutAtFirst(rest, '_');
    hide ParseInt, IndexByte, IsHex;
    number, secret := rest[..IndexByte(rest, '_')], rest[IndexByte(rest, '_') + 1..];
    assert key == "ing_" + rest;
  }

  // ----- rows as the operations leave them -----

  /** The displayed prefix of a key: its first twelve characters. */
  lemma PrefixIs(key: Bytes)
    ensures Prefix(key) <= key && |Prefix(key)| == if |key| < 12 then |key| else 12
  {
  }

  /** Creating a tenant: a new id, an active row with the given fields and no plaintext key, and no
      other row touched. */
  lemma CreatedRow(s: Tables, row: TenantRow, other: int)
    requires forall id :: id in s.tenants ==> id <= s.lastId
    ensures var t := InsertTenant(s, row);
            && t.lastId !in s.tenants && t.lastId in t.tenants
            && t.tenants[t.lastId] == TenantRow(row.name, row.description, "", true, row.rps, row.burst, row.quota)
            && (other != t.lastId ==>
                  (other in t.tenants <==> other in s.tenants) &&
                  (other in s.tenants ==> t.tenants[other] == s.tenants[other]))
            && t.keys == s.keys
  {
  }

  /** Updating a tenant: the row read back has the given fields and its old key column; no other row
      changes, and an unknown id changes nothing. */
  lemma UpdatedRow(s: Tables, id: int, row: TenantRow, other: int)
    ensures var t := Update(s, id, row);
            && t.tenants.Keys == s.tenants.Keys && t.keys == s.keys && t.lastId == s.lastId
            && (id in s.tenants ==>
                  t.tenants[id] == TenantRow(row.name, row.description, s.tenants[id].apiKey, row.active,
                                             row.rps, row.burst, row.quota))
            && (other in s.tenants && other != id ==> t.tenants[other] == s.tenants[other])
  {
  }

  /** Deleting a tenant takes its keys with it, and nothing else. */
  lemma DeletedRow(s: Tables, id: int, other: int, h: Hash)
    ensures var t := Delete(s, id);
            && (other in t.tenants <==> other in s.tenants && other != id)
            && (other in t.tenants ==> t.tenants[other] == s.tenants[other])
            && (h in t.keys <==> h in s.keys && s.keys[h].tenant != id)
            && (h in t.keys ==> t.keys[h] == s.keys[h])
            && t.lastId == s.lastId
  {
  }

  /** A key row as inserted: of the tenant, enabled, not revoked, with its prefix. */
  lemma InsertedRow(s: Tables, id: int, key: Bytes, other: Hash)
    requires id in s.tenants && Sha256(key) !in s.keys
    ensures var (ok, t) := InsertKey(s, id, Sha256(key), Prefix(key));
            && ok && t.tenants == s.tenants && Sha256(key) in t.keys
            && t.keys[Sha256(key)].tenant == id && t.keys[Sha256(key)].enabled && !t.keys[Sha256(key)].revoked
            && t.keys[Sha256(key)].prefix <= key
            && (other in s.keys ==> other in t.keys && t.keys[other] == s.keys[other])
  {
  }

  /** An insert is refused, and changes nothing, exactly for an unknown tenant or a known hash. */
  lemma InsertRefusedIff(s: Tables, id: int, h: Hash, prefix: Bytes)
    ensures !InsertKey(s, id, h, prefix).0 <==> id !in s.tenants || h in s.keys
    ensures !InsertKey(s, id, h, prefix).0 ==> InsertKey(s, id, h, prefix).1 == s
  {
  }

  // ----- every sequence of operations -----

  /** Statements of all operations in the order the database executes them: `CreateTenant` is
      `NewTenant` then `NewKey`, `RegenerateKey` is `RevokeAll` then `NewKey`, and the statements
      of concurrent calls may interleave. */
  datatype Event =
    | NewTenant(row: TenantRow)
    | NewKey(id: int, secret: Bytes)
    | UpdateRow(id: int, row: TenantRow)
    | DeleteRow(id: int)
    | RevokeAll(id: int)

  /** `issued` are all keys that ever existed. */
  datatype World = World(tables: Tables, issued: set<Bytes>)

  predicate Enabled(w: World, e: Event)
  {
    e.NewKey? ==> IsSecret(e.secret) && Generate(e.id, e.secret) !in w.issued
  }

  function Apply(w: World, e: Event): World
    requires Enabled(w, e)
  {
    match e
    case NewTenant(row) => w.(tables := InsertTenant(w.tables, row))
    case NewKey(id, secret) =>
      var key := Generate(id, secret);
      World(InsertKey(w.tables, id, Sha256(key), Prefix(key)).1, w.issued + {key})
    case UpdateRow(id, row) => w.(tables := Update(w.tables, id, row))
    case DeleteRow(id) => w.(tables := Delete(w.tables, id))
    case RevokeAll(id) => w.(tables := Revoke(w.tables, id))
  }

  function Prefix(key: Bytes): Bytes { if |key| > PREFIX_LENGTH then key[..PREFIX_LENGTH] else key }

  predicate EnabledAll(w: World, es: seq<Event>)
    decreases |es|
  {
    es == [] || (Enabled(w, es[0]) && EnabledAll(Apply(w, es[0]), es[1..]))
  }

  function Run(w: World, es: seq<Event>): World
    requires EnabledAll(w, es)
    decreases |es|
  {
    if es == [] then w else Run(Apply(w, es[0]), es[1..])
  }

  /** Every stored key was issued and belongs to an existing tenant; ids are positive and not
      above the last one handed out. */
  ghost predicate Inv(w: World)
  {
    && (forall h :: h in w.tables.keys ==> h.key in w.issued && w.tables.keys[h].tenant in w.tables.tenants)
    && (forall id :: id in w.tables.tenants ==> 0 < id <= w.tables.lastId)
  }

  /** An issued key that is revoked, or whose row is gone. */
  predicate Dead(w: World, key: Bytes)
  {
    key in w.issued && (Sha256(key) in w.tables.keys ==> w.tables.keys[Sha256(key)].revoked)
  }

  /** An id that was handed out and deleted. */
  predicate Gone(w: World, id: int) { id <= w.tables.lastId && id !in w.tables.tenants }

  lemma Step(w: World, e: Event)
    requires Inv(w) && Enabled(w, e)
    ensures Inv(Apply(w, e))
    ensures forall key :: Dead(w, key) ==> Dead(Apply(w, e), key)
    ensures forall id :: Gone(w, id) ==> Gone(Apply(w, e), id)
  {
    hide Generate, IsSecret, Prefix;
  }

  lemma {:induction false} RunKeeps(w: World, es: seq<Event>)
    requires Inv(w) && EnabledAll(w, es)
    ensures Inv(Run(w, es))
    ensures forall key :: Dead(w, key) ==> Dead(Run(w, es), key)
    ensures forall id :: Gone(w, id) ==> Gone(Run(w, es), id)
    decreases |es|
  {
    if es != [] {
      hide Inv, Dead, Gone, Apply, Enabled;
      Step(w, es[0]);
      RunKeeps(Apply(w, es[0]), es[1..]);
    }
  }

  /** The lookup condition in one state: a live row of the tenant, and an embedded id that is the
      tenant's. */
  lemma LookupIff(s: Tables, key: Bytes, id: int)
    ensures Lookup(s, key) == Some(id) <==>
            && Sha256(key) in LiveRows(s, id) && id in s.tenants && s.tenants[id].active
            && ShapeOf(key) in {Legacy, Embedded(id)}
  {
    hide ShapeOf;
  }

  /** The enabled, unrevoked rows of a tenant. */
  function LiveRows(s: Tables, id: int): set<Hash>
  {
    set h | h in s.keys && s.keys[h].tenant == id && s.keys[h].enabled && !s.keys[h].revoked
  }

  /** What an event does to the live rows of an existing tenant, without looking at the tables. */
  function LiveStep(live: set<Hash>, id: int, e: Event): set<Hash>
  {
    match e
    case NewKey(t, secret) => if t == id then live + {Sha256(Generate(id, secret))} else live
    case RevokeAll(t) => if t == id then {} else live
    case _ => live
  }

  function LiveAfter(live: set<Hash>, id: int, es: seq<Event>): set<Hash>
    decreases |es|
  {
    if es == [] then live else LiveAfter(LiveStep(live, id, es[0]), id, es[1..])
  }

  lemma LiveRowsStep(w: World, e: Event, id: int)
    requires Inv(w) && Enabled(w, e) && id in w.tables.tenants && e != DeleteRow(id)
    ensures id in Apply(w, e).tables.tenants
    ensures LiveRows(Apply(w, e).tables, id) == LiveStep(LiveRows(w.tables, id), id, e)
  {
    hide Generate, IsSecret, Prefix;
  }

  /** Over every run, the live rows of a tenant that is not deleted are those live at the start and
      those inserted, emptied by each revocation. */
  lemma {:induction false} LiveRowsRun(w: World, es: seq<Event>, id: int)
    requires Inv(w) && EnabledAll(w, es) && id in w.tables.tenants && DeleteRow(id) !in es
    ensures Inv(Run(w, es)) && id in Run(w, es).tables.tenants
    ensures LiveRows(Run(w, es).tables, id) == LiveAfter(LiveRows(w.tables, id), id, es)
    decreases |es|
  {
    if es != [] {
      hide Inv, Apply, Enabled, LiveRows, LiveStep;
      Step(w, es[0]);
      LiveRowsStep(w, es[0], id);
      LiveRowsRun(Apply(w, es[0]), es[1..], id);
    }
  }

  /** Over every run, a key resolves to a tenant that is not deleted exactly when its row was live
      at the start or inserted, and not revoked since; the tenant is active; and an embedded id is
      the tenant's. Only issued keys resolve at all. */
  lemma ResolvesIff(w: World, es: seq<Event>, key: Bytes, id: int)
    requires Inv(w) && EnabledAll(w, es) && id in w.tables.tenants && DeleteRow(id) !in es
    ensures var s := Run(w, es).tables;
            && id in s.tenants
            && (Lookup(s, key) == Some(id) <==>
                  && Sha256(key) in LiveAfter(LiveRows(w.tables, id), id, es)
                  && s.tenants[id].active && ShapeOf(key) in {Legacy, Embedded(id)})
            && (Lookup(s, key).Some? ==> key in Run(w, es).issued && 0 < Lookup(s, key).value <= s.lastId)
  {
    LiveRowsRun(w, es, id);
    LookupIff(Run(w, es).tables, key, id);
    RunKeeps(w, es);
    hide LiveAfter, LiveRows, ShapeOf, Run;
  }

  /** A key that was revoked, or lost with its tenant, never resolves again. */
  lemma RevokedForever(w: World, es: seq<Event>, key: Bytes)
    requires Inv(w) && Dead(w, key) && EnabledAll(w, es)
    ensures Lookup(Run(w, es).tables, key).None?
  {
    RunKeeps(w, es);
  }

  /** No key ever resolves to a deleted tenant. */
  lemma DeletedForever(w: World, es: seq<Event>, id: int, key: Bytes)
    requires Inv(w) && Gone(w, id) && EnabledAll(w, es)
    ensures Lookup(Run(w, es).tables, key) != Some(id)
  {
    RunKeeps(w, es);
  }

  /** `RegenerateKey` with nothing in between. */
  function Regenerate(s: Tables, id: int, secret: Bytes): (bool, Tables)
  {
    var key := Generate(id, secret);
    InsertKey(Revoke(s, id), id, Sha256(key), Prefix(key))
  }

  /** After a regeneration with nothing in between only the returned key resolves to the tenant, as
      long as it is active; other tenants keep their keys. */
  lemma RegenerateAtOnce(w: World, id: int, secret: Bytes, key: Bytes, other: int)
    requires Inv(w) && Enabled(w, NewKey(id, secret)) && id in w.tables.tenants && id <= MAX_INT64
    ensures var (ok, s) := Regenerate(w.tables, id, secret);
            && ok
            && (Lookup(s, key) == Some(id) <==> key == Generate(id, secret) && w.tables.tenants[id].active)
            && (other != id ==> (Lookup(s, key) == Some(other) <==> Lookup(w.tables, key) == Some(other)))
            && (key != Generate(id, secret) && Lookup(w.tables, key) == Some(id) ==>
                  Sha256(key) in s.keys && s.keys[Sha256(key)].revoked)
  {
    GeneratedShape(id, secret);
    hide Generate, IsSecret, Prefix, ShapeOf;
  }

  function InsertedKeys(es: seq<Event>, id: int): nat
  {
    if es == [] then 0
    else (if es[0].NewKey? && es[0].id == id then 1 else 0) + InsertedKeys(es[1..], id)
  }

  /** Without a revocation every insertion adds one live row, because secrets are fresh; and a row
      was live already or inserted. */
  lemma {:induction false} LiveGrows(w: World, live: set<Hash>, es: seq<Event>, id: int)
    requires EnabledAll(w, es) && RevokeAll(id) !in es && forall h :: h in live ==> h.key in w.issued
    ensures |LiveAfter(live, id, es)| == |live| + InsertedKeys(es, id)
    ensures forall h :: h in LiveAfter(live, id, es) <==>
              h in live || exists i :: 0 <= i < |es| && Inserts(es[i], id, h)
    decreases |es|
  {
    if es != [] {
      assert es[0] != RevokeAll(id);
      var more := LiveStep(live, id, es[0]);
      hide Generate, IsSecret, InsertKey;
      LiveGrows(Apply(w, es[0]), more, es[1..], id);
      forall h ensures h in LiveAfter(live, id, es) <==>
                       h in live || exists i :: 0 <= i < |es| && Inserts(es[i], id, h) {
        InsertedFirst(es, id, h);
      }
    }
  }

  predicate Inserts(e: Event, id: int, h: Hash)
  {
    e.NewKey? && e.id == id && h == Sha256(Generate(id, e.secret))
  }

  lemma InsertedFirst(es: seq<Event>, id: int, h: Hash)
    requires es != []
    ensures (exists i :: 0 <= i < |es| && Inserts(es[i], id, h)) <==>
            Inserts(es[0], id, h) || exists i :: 0 <= i < |es[1..]| && Inserts(es[1..][i], id, h)
  {
    if i :| 0 <= i < |es| && Inserts(es[i], id, h) {
      assert i == 0 || Inserts(es[1..][i - 1], id, h);
    }
    if i :| 0 <= i < |es[1..]| && Inserts(es[1..][i], id, h) {
      assert Inserts(es[i + 1], id, h);
    }
  }

  lemma {:induction false} SecretsOf(w: World, es: seq<Event>, i: nat)
    requires EnabledAll(w, es) && i < |es| && es[i].NewKey?
    ensures IsSecret(es[i].secret)
    decreases |es|
  {
    if i > 0 {
      hide Apply, IsSecret;
      SecretsOf(Apply(w, es[0]), es[1..], i - 1);
    }
  }

  /** The rows whose keys resolve to a tenant. */
  function Resolving(s: Tables, id: int): set<Hash> { set h | h in s.keys && Lookup(s, h.key) == Some(id) }

  /** From a state in which all keys of the tenant are revoked: the keys that resolve afterwards
      are exactly the ones inserted, one for each insertion. */
  lemma ResolvingAfterRevoke(w: World, es: seq<Event>, id: int)
    requires Inv(w) && EnabledAll(w, es) && id in w.tables.tenants && id <= MAX_INT64
    requires DeleteRow(id) !in es && RevokeAll(id) !in es && LiveRows(w.tables, id) == {}
    ensures var s := Run(w, es).tables;
            && id in s.tenants
            && Resolving(s, id) == (if s.tenants[id].active then LiveAfter({}, id, es) else {})
            && |LiveAfter({}, id, es)| == InsertedKeys(es, id)
  {
    LiveRowsRun(w, es, id);
    LiveGrows(w, {}, es, id);
    var s := Run(w, es).tables;
    hide Generate, Lookup, ShapeOf, Run, LiveAfter, InsertedKeys, EnabledAll;
    forall h ensures h in Resolving(s, id) <==> h in LiveRows(s, id) && s.tenants[id].active {
      LookupIff(s, h.key, id);
      if h in LiveRows(s, id) {
        var i :| 0 <= i < |es| && Inserts(es[i], id, h);
        SecretsOf(w, es, i);
        GeneratedShape(id, es[i].secret);
      }
    }
  }

  /** Regeneration under any interleaving: after the last revocation of a tenant's keys, as many of
      its keys resolve as were inserted since. So exactly one does if and only if the tenant is
      active and exactly one key was inserted, and it is the returned key if and only if that was
      the one. */
  lemma RegenerateLeavesOne(w: World, before: seq<Event>, es: seq<Event>, id: int, secret: Bytes)
    requires Inv(w) && EnabledAll(w, before + [RevokeAll(id)] + es) && id in w.tables.tenants && id <= MAX_INT64
    requires DeleteRow(id) !in before && DeleteRow(id) !in es && RevokeAll(id) !in es && IsSecret(secret)
    ensures var s := Run(w, before + [RevokeAll(id)] + es).tables;
            && id in s.tenants
            && |Resolving(s, id)| == (if s.tenants[id].active then InsertedKeys(es, id) else 0)
            && (Resolving(s, id) == {Sha256(Generate(id, secret))} <==>
                  s.tenants[id].active && InsertedKeys(es, id) == 1 && NewKey(id, secret) in es)
  {
    var first := before + [RevokeAll(id)];
    RunSplit(w, first, es);
    RunSplit(w, before, [RevokeAll(id)]);
    LiveRowsRun(w, before, id);
    var v := Run(w, before);
    assert Run(v, [RevokeAll(id)]) == Apply(v, RevokeAll(id)) by { assert [RevokeAll(id)][1..] == []; }
    Step(v, RevokeAll(id));
    LiveRowsStep(v, RevokeAll(id), id);
    var u := Apply(v, RevokeAll(id));
    ResolvingAfterRevoke(u, es, id);
    LiveGrows(u, {}, es, id);
    hide Inv, Apply, Run, EnabledAll, Enabled, LiveRows, Resolving, IsSecret;
    ReturnedKey(es, id, secret, LiveAfter({}, id, es));
  }

  /** The inserted keys are just one given key. */
  lemma ReturnedKey(es: seq<Event>, id: int, secret: Bytes, live: set<Hash>)
    requires |live| == InsertedKeys(es, id)
    requires forall h :: h in live <==> exists i :: 0 <= i < |es| && Inserts(es[i], id, h)
    ensures live == {Sha256(Generate(id, secret))} <==> InsertedKeys(es, id) == 1 && NewKey(id, secret) in es
  {
    var key := Sha256(Generate(id, secret));
    if live == {key} {
      assert key in live;
      var i :| 0 <= i < |es| && Inserts(es[i], id, key);
      SameSecret(id, es[i].secret, secret);
      assert es[i] == NewKey(id, secret);
    }
    if |live| == 1 && NewKey(id, secret) in es {
      var i :| 0 <= i < |es| && es[i] == NewKey(id, secret);
      assert Inserts(es[i], id, key);
      assert |live - {key}| == 0;
      assert live == {key};
    }
  }

  lemma SameSecret(id: int, a: Bytes, b: Bytes)
    requires Generate(id, a) == Generate(id, b)
    ensures a == b
  {
    var head := "ing_" + Itoa(id) + "_";
    assert Generate(id, a)[|head|..] == a && Generate(id, b)[|head|..] == b;
  }

  lemma {:induction false} RunSplit(w: World, a: seq<Event>, b: seq<Event>)
    requires EnabledAll(w, a + b)
    ensures EnabledAll(w, a) && EnabledAll(Run(w, a), b) && Run(w, a + b) == Run(Run(w, a), b)
    decreases |a|
  {
    hide Apply, Enabled;
    if a == [] {
      assert a + b == b;
    } else {
      assert (a + b)[1..] == a[1..] + b;
      RunSplit(Apply(w, a[0]), a[1..], b);
    }
  }

  /** A new tenant's key resolves to it, and nothing else does. */
  lemma CreatedKeyResolves(w: World, row: TenantRow, secret: Bytes, key: Bytes)
    requires Inv(w) && Enabled(w, NewKey(w.tables.lastId + 1, secret)) && w.tables.lastId < MAX_INT64
    ensures var id := w.tables.lastId + 1;
            var s := Apply(Apply(w, NewTenant(row)), NewKey(id, secret)).tables;
            Lookup(s, key) == Some(id) <==> key == Generate(id, secret)
  {
    GeneratedShape(w.tables.lastId + 1, secret);
    hide Generate, IsSecret, Prefix, ShapeOf;
  }

  /** Deactivating a tenant silences its keys, and reactivating brings exactly them back. */
  lemma Deactivation(s: Tables, id: int, inactive: TenantRow, active: TenantRow, key: Bytes)
    requires id in s.tenants && s.tenants[id].active && !inactive.active && active.active
    ensures Lookup(Update(s, id, inactive), key) ==
            if Lookup(s, key) == Some(id) then None else Lookup(s, key)
    ensures Lookup(Update(Update(s, id, inactive), id, active), key) == Lookup(s, key)
  {
    hide ShapeOf;
  }

  /** Two overlapping regenerations both revoke before either inserts: both new keys live. */
  lemma OverlappingRegenerations(w: World, id: int, a: Bytes, b: Bytes)
    requires Inv(w) && id in w.tables.tenants && w.tables.tenants[id].active && id <= MAX_INT64 && a != b
    requires Enabled(w, NewKey(id, a)) && Enabled(w, NewKey(id, b))
    ensures var es := [RevokeAll(id), RevokeAll(id), NewKey(id, a), NewKey(id, b)];
            && EnabledAll(w, es)
            && Lookup(Run(w, es).tables, Generate(id, a)) == Some(id)
            && Lookup(Run(w, es).tables, Generate(id, b)) == Some(id)
  {
    assert Generate(id, a) != Generate(id, b) by {
      if Generate(id, a) == Generate(id, b) { GenerateInjective(id, a, id, b); }
    }
    hide Generate, IsSecret, Prefix, ShapeOf;
    var w1 := Apply(w, RevokeAll(id));
    var w2 := Apply(w1, RevokeAll(id));
    var w3 := Apply(w2, NewKey(id, a));
    BothLive(w2, id, a, b);
    hide Apply, Lookup;
    RunCons(w3, NewKey(id, b), []);
    RunCons(w2, NewKey(id, a), [NewKey(id, b)]);
    RunCons(w1, RevokeAll(id), [NewKey(id, a), NewKey(id, b)]);
    RunCons(w, RevokeAll(id), [RevokeAll(id), NewKey(id, a), NewKey(id, b)]);
  }

  lemma RunCons(w: World, e: Event, es: seq<Event>)
    requires Enabled(w, e) && EnabledAll(Apply(w, e), es)
    ensures EnabledAll(w, [e] + es) && Run(w, [e] + es) == Run(Apply(w, e), es)
  {
    assert ([e] + es)[1..] == es;
  }

  lemma BothLive(w: World, id: int, a: Bytes, b: Bytes)
    requires Inv(w) && id in w.tables.tenants && w.tables.tenants[id].active && id <= MAX_INT64
    requires Enabled(w, NewKey(id, a)) && Enabled(w, NewKey(id, b)) && Generate(id, a) != Generate(id, b)
    ensures var w' := Apply(w, NewKey(id, a));
            && Enabled(w', NewKey(id, b))
            && Lookup(Apply(w', NewKey(id, b)).tables, Generate(id, a)) == Some(id)
            && Lookup(Apply(w', NewKey(id, b)).tables, Generate(id, b)) == Some(id)
  {
    GeneratedShape(id, a);
    GeneratedShape(id, b);
    hide Generate, IsSecret, Prefix, ShapeOf;
  }

  // ----- the store -----

  class Store {
    var tables: Tables

    constructor (tables: Tables)
      ensures this.tables == tables
    {
      this.tables := tables;
    }

    /** The candidates are collected first and then compared one by one. */
    method LookupTenantByKey(key: Bytes) returns (tenant: Option<int>)
      ensures tenant == Lookup(tables, key)
    {
      hide ShapeOf;
      var todo := Candidates(tables, key);
      while todo != {}
        invariant todo <= Candidates(tables, key)
        invariant Sha256(key) in Candidates(tables, key) ==> Sha256(key) in todo
        decreases todo
      {
        var h := Sums.AnyOf(todo);
        if h == Sha256(key) {
          return Some(tables.keys[h].tenant);
        }
        todo := todo - {h};
      }
      return None;
    }

    method CreateAPIKey(id: int, h: Hash, prefix: Bytes) returns (ok: bool)
      modifies this
      ensures (ok, tables) == InsertKey(old(tables), id, h, prefix)
    {
      if id !in tables.tenants || h in tables.keys { return false; }
      tables := tables.(keys := tables.keys[h := KeyRow(id, prefix, true, false)]);
      return true;
    }

    method RevokeAllKeysForTenant(id: int)
      modifies this
      ensures tables == Revoke(old(tables), id)
    {
      tables := Revoke(tables, id);
    }

    /** The key is handed out once, in `key`; a failure leaves the tenant without a key. */
    method CreateTenant(row: TenantRow, secret: Bytes) returns (ok: bool, id: int, key: Bytes)
      modifies this
      ensures id == old(tables).lastId + 1 && key == Generate(id, secret)
      ensures (ok, tables) == InsertKey(InsertTenant(old(tables), row), id, Sha256(key), Prefix(key))
      ensures ok <==> Sha256(key) !in old(tables).keys
    {
      hide Generate;
      tables := InsertTenant(tables, row);
      id := tables.lastId;
      key := Generate(id, secret);
      ok := CreateAPIKey(id, Sha256(key), Prefix(key));
    }

    method UpdateTenant(id: int, row: TenantRow)
      modifies this
      ensures tables == Update(old(tables), id, row)
    {
      if id in tables.tenants {
        var apiKey := tables.tenants[id].apiKey;
        tables := tables.(tenants := tables.tenants[id := row.(apiKey := apiKey)]);
      }
    }

    method DeleteTenant(id: int)
      modifies this
      ensures tables == Delete(old(tables), id)
    {
      tables := Delete(tables, id);
    }

    method RegenerateKey(id: int, secret: Bytes) returns (ok: bool, key: Bytes)
      modifies this
      ensures key == Generate(id, secret)
      ensures (ok, tables) == Regenerate(old(tables), id, secret)
    {
      hide Generate;
      RevokeAllKeysForTenant(id);
      key := Generate(id, secret);
      ok := CreateAPIKey(id, Sha256(key), Prefix(key));
    }
  }
}
