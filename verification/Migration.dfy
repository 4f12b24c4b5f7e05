/** The migration runner of internal/store/migrate.go as a machine over committed steps: the
    process may die between any two of them and start over on the database it left. Timestamps
    and row ids of `api_keys` are not part of the state. */
module Migration {
  import opened ByteStrings
  import K = ApiKeys
  import Sums

  /** Schema objects; `TenantsIndex` stands for all indexes of the baseline. */
  datatype Object =
    | Bookkeeping | Users | Tenants | TenantsIndex | UsageLogs | Certificates | UsageCounters | KeyTable | HourIndex

  datatype Column = Rps | Burst | Quota

  /** `columns` are the rate-limit columns of the tenants table, and `unique` says that its
      definition still has the legacy UNIQUE constraint. */
  datatype Db = Db(
    schema: set<Object>, versions: seq<int>, columns: set<Column>, unique: bool,
    tenants: map<int, K.TenantRow>, keys: map<K.Hash, K.KeyRow>)

  const BASELINE: set<Object> := {Users, Tenants, TenantsIndex, UsageLogs, Certificates, UsageCounters, KeyTable}

  const ALL_COLUMNS: set<Column> := {Rps, Burst, Quota}

  /** The shape of a database at rest. A missing table is described as the empty table that
      0001 would create. */
  ghost predicate Wf(db: Db)
  {
    && db.versions <= [1, 2]
    && (Bookkeeping !in db.schema ==> db.versions == [])
    && (Tenants !in db.schema ==> db.tenants == map[] && db.columns == ALL_COLUMNS && !db.unique)
    && (KeyTable !in db.schema ==> db.keys == map[])
    && (|db.versions| >= 1 ==> BASELINE <= db.schema)
    && (|db.versions| >= 2 ==> HourIndex in db.schema)
  }

  /** Core tables without bookkeeping. */
  predicate Legacy(db: Db) { db.versions == [] && Users in db.schema && Tenants in db.schema }

  // ----- statements -----

  /** Everything in the SQL files is `IF NOT EXISTS`. */
  function Sql(version: int): set<Object> { if version == 1 then BASELINE else {HourIndex} }

  function AddObjects(db: Db, version: int): Db { db.(schema := db.schema + Sql(version)) }

  function Record(db: Db, version: int): Db { db.(versions := db.versions + [version]) }

  function ColumnAt(i: nat): Column
    requires i < 3
  {
    if i == 0 then Rps else if i == 1 then Burst else Quota
  }

  function PlainKeys(tenants: map<int, K.TenantRow>): map<int, Bytes>
  {
    map id | id in tenants && tenants[id].apiKey != "" :: tenants[id].apiKey
  }

  /** `INSERT OR IGNORE`. */
  function InsertOrIgnore(db: Db, id: int, key: Bytes): Db
  {
    if K.Sha256(key) in db.keys then db
    else db.(keys := db.keys[K.Sha256(key) := K.KeyRow(id, K.Prefix(key), true, false)])
  }

  function BlankRow(tenants: map<int, K.TenantRow>, id: int): map<int, K.TenantRow>
  {
    if id in tenants then tenants[id := tenants[id].(apiKey := "")] else tenants
  }

  // ----- the machine -----

  /** Where the process is. `todo` are the plaintext rows read before the loop, and `applied` the
      versions read before the other loop. */
  datatype Pc =
    | Boot
    | Checking
    | Baseline
    | Alter(column: nat)
    | Rebuild
    | Collect
    | Insert(todo: map<int, Bytes>)
    | Blank(id: int, todo: map<int, Bytes>)
    | RecordBaseline
    | Reload
    | Loop(next: nat, applied: set<int>)
    | Recording(next: nat, applied: set<int>)
    | Done

  datatype State = State(db: Db, pc: Pc)

  /** `AlterFails` is a failure of ALTER TABLE for another reason than an existing column, which
      the code ignores; any other failure ends the process and is a `Crash`. */
  datatype Event =
    | CreateBookkeeping
    | Check
    | ApplyBaseline
    | AlterColumn
    | AlterFails
    | RebuildTable
    | CollectKeys
    | InsertHash(row: int)
    | BlankKey
    | KeysDone
    | RecordOne
    | ReloadVersions
    | Skip
    | ApplyNext
    | RecordNext
    | Finish
    | Crash

  /** Rows come in an unspecified order, except that among equal keys the lower id comes first
      (a scan by row id and a scan of the index on `api_key` both have this property). */
  predicate First(todo: map<int, Bytes>, id: int)
  {
    id in todo && forall j :: j in todo && todo[j] == todo[id] ==> id <= j
  }

  predicate Enabled(s: State, e: Event)
  {
    match e
    case CreateBookkeeping => s.pc.Boot?
    case Check => s.pc.Checking?
    case ApplyBaseline => s.pc.Baseline?
    case AlterColumn => s.pc.Alter? && s.pc.column < 3
    case AlterFails => s.pc.Alter? && s.pc.column < 3
    case RebuildTable => s.pc.Rebuild? && (s.db.unique ==> s.db.columns == ALL_COLUMNS)
    case CollectKeys => s.pc.Collect?
    case InsertHash(id) => s.pc.Insert? && First(s.pc.todo, id)
    case BlankKey => s.pc.Blank?
    case KeysDone => s.pc.Insert? && s.pc.todo == map[]
    case RecordOne => s.pc.RecordBaseline? && 1 !in s.db.versions
    case ReloadVersions => s.pc.Reload?
    case Skip => s.pc.Loop? && s.pc.next < 2 && s.pc.next + 1 in s.pc.applied
    case ApplyNext => s.pc.Loop? && s.pc.next < 2 && s.pc.next + 1 !in s.pc.applied
    case RecordNext => s.pc.Recording? && s.pc.next + 1 !in s.db.versions
    case Finish => s.pc.Loop? && s.pc.next == 2
    case Crash => true
  }

  function AfterAlter(i: nat): Pc { if i == 2 then Rebuild else Alter(i + 1) }

  function Apply(s: State, e: Event): State
    requires Enabled(s, e)
  {
    match e
    case CreateBookkeeping => State(s.db.(schema := s.db.schema + {Bookkeeping}), Checking)
    case Check => s.(pc := if Legacy(s.db) then Baseline else Reload)
    case ApplyBaseline => State(AddObjects(s.db, 1), Alter(0))
    case AlterColumn => State(s.db.(columns := s.db.columns + {ColumnAt(s.pc.column)}), AfterAlter(s.pc.column))
    case AlterFails => s.(pc := AfterAlter(s.pc.column))
    case RebuildTable => State(s.db.(unique := false), Collect)
    case CollectKeys => s.(pc := Insert(PlainKeys(s.db.tenants)))
    case InsertHash(id) => State(InsertOrIgnore(s.db, id, s.pc.todo[id]), Blank(id, s.pc.todo - {id}))
    case BlankKey => State(s.db.(tenants := BlankRow(s.db.tenants, s.pc.id)), Insert(s.pc.todo))
    case KeysDone => s.(pc := RecordBaseline)
    case RecordOne => State(Record(s.db, 1), Reload)
    case ReloadVersions => s.(pc := Loop(0, set v | v in s.db.versions))
    case Skip => s.(pc := Loop(s.pc.next + 1, s.pc.applied))
    case ApplyNext => State(AddObjects(s.db, s.pc.next + 1), Recording(s.pc.next, s.pc.applied))
    case RecordNext => State(Record(s.db, s.pc.next + 1), Loop(s.pc.next + 1, s.pc.applied))
    case Finish => s.(pc := Done)
    case Crash => s.(pc := Boot)
  }

  // ----- the outcome -----

  /** The tenant with the lowest id among those that hold a key. */
  ghost predicate Holds(tenants: map<int, K.TenantRow>, id: int, key: Bytes)
  {
    && id in tenants && tenants[id].apiKey == key
    && forall j :: j in tenants && tenants[j].apiKey == key ==> id <= j
  }

  ghost function Holder(tenants: map<int, K.TenantRow>, key: Bytes): int
  {
    if exists id :: Holds(tenants, id, key) then var id :| Holds(tenants, id, key); id else 0
  }

  function PlainHashes(tenants: map<int, K.TenantRow>): set<K.Hash>
  {
    set id | id in tenants && tenants[id].apiKey != "" :: K.Sha256(tenants[id].apiKey)
  }

  /** The keys table with the plaintext keys of `tenants` added. */
  ghost function Adopted(keys: map<K.Hash, K.KeyRow>, tenants: map<int, K.TenantRow>): map<K.Hash, K.KeyRow>
  {
    map h | h in keys.Keys + PlainHashes(tenants) ::
      if h in keys then keys[h] else K.KeyRow(Holder(tenants, h.key), K.Prefix(h.key), true, false)
  }

  function Blanked(tenants: map<int, K.TenantRow>): map<int, K.TenantRow>
  {
    map id | id in tenants :: tenants[id].(apiKey := "")
  }

  /** What an uninterrupted migration makes of a database. */
  ghost function Final(db: Db): Db
  {
    var schema := db.schema + {Bookkeeping} + BASELINE + {HourIndex};
    if Legacy(db) then
      Db(schema, [1, 2], ALL_COLUMNS, false, Blanked(db.tenants), Adopted(db.keys, db.tenants))
    else
      db.(schema := schema, versions := [1, 2])
  }

  /** The tenants table needs no adoption. */
  predicate Settled(db: Db) { db.columns == ALL_COLUMNS && !db.unique && PlainKeys(db.tenants) == map[] }

  /** What crash recovery needs to know about the initial database: a tenants table without a
      users table, and without bookkeeping, must already be in the new form. */
  predicate Recoverable(db: Db)
  {
    db.versions == [] && Tenants in db.schema && Users !in db.schema ==> Settled(db)
  }

  // ----- invariants -----

  /** Between the baseline and the recording of version 1. */
  predicate Adopting(db: Db) { Legacy(db) && Bookkeeping in db.schema && BASELINE <= db.schema }

  predicate Ready(db: Db) { Adopting(db) && db.columns == ALL_COLUMNS && !db.unique }

  /** What the process knows at each point; `faults` says whether ALTER may fail. */
  ghost predicate PcOk(s: State, faults: bool)
  {
    var db := s.db;
    match s.pc
    case Boot => true
    case Checking => Bookkeeping in db.schema
    case Baseline => Legacy(db) && Bookkeeping in db.schema
    case Alter(i) =>
      i < 3 && Adopting(db) && (!faults ==> (i > 0 ==> Rps in db.columns) && (i > 1 ==> Burst in db.columns))
    case Rebuild => Adopting(db) && (!faults ==> db.columns == ALL_COLUMNS)
    case Collect => Ready(db)
    case Insert(todo) => Ready(db) && todo == PlainKeys(db.tenants)
    case Blank(id, todo) =>
      && Ready(db) && id in PlainKeys(db.tenants) && K.Sha256(PlainKeys(db.tenants)[id]) in db.keys
      && todo == PlainKeys(db.tenants) - {id}
    case RecordBaseline => Adopting(db) && Settled(db)
    case Reload => Bookkeeping in db.schema && !Legacy(db)
    case Loop(next, applied) =>
      && Bookkeeping in db.schema && !Legacy(db) && next <= |db.versions| && next <= 2
      && (next < 1 ==> (1 in applied <==> |db.versions| >= 1))
      && (next < 2 ==> (2 in applied <==> |db.versions| >= 2))
    case Recording(next, applied) =>
      && Bookkeeping in db.schema && next < 2 && next == |db.versions| && BASELINE <= db.schema
      && (next == 0 ==> Settled(db) && 2 !in applied) && (next == 1 ==> HourIndex in db.schema)
    case Done => Bookkeeping in db.schema && db.versions == [1, 2]
  }

  /** An ignored ALTER failure does no harm if the table will be rebuilt or has all columns. */
  predicate Guarded(db: Db, faults: bool) { faults && Legacy(db) ==> db.unique || db.columns == ALL_COLUMNS }

  ghost predicate Inv(s: State, faults: bool)
  {
    Wf(s.db) && Recoverable(s.db) && Guarded(s.db, faults) && PcOk(s, faults)
  }

  lemma Versions(db: Db)
    requires Wf(db)
    ensures db.versions == [] || db.versions == [1] || db.versions == [1, 2]
  {
  }

  lemma AllThree(columns: set<Column>)
    ensures Rps in columns && Burst in columns && Quota in columns ==> columns == ALL_COLUMNS
  {
    forall c | c in columns ensures c in ALL_COLUMNS {
      match c case Rps => case Burst => case Quota =>
    }
  }

  lemma EarlyInv(s: State, e: Event, faults: bool)
    requires Inv(s, faults) && Enabled(s, e) && (e.AlterFails? ==> faults)
    requires e.CreateBookkeeping? || e.Check? || e.ApplyBaseline? || e.AlterColumn? || e.AlterFails? || e.RebuildTable?
    ensures Inv(Apply(s, e), faults)
  {
    Versions(s.db);
    AllThree(Apply(s, e).db.columns);
    hide PlainKeys, InsertOrIgnore, BlankRow;
  }

  lemma KeysInv(s: State, e: Event, faults: bool)
    requires Inv(s, faults) && Enabled(s, e)
    requires e.CollectKeys? || e.InsertHash? || e.BlankKey? || e.KeysDone? || e.RecordOne?
    ensures Inv(Apply(s, e), faults)
  {
    Versions(s.db);
  }

  lemma LateInv(s: State, e: Event, faults: bool)
    requires Inv(s, faults) && Enabled(s, e)
    requires e.ReloadVersions? || e.Skip? || e.ApplyNext? || e.RecordNext? || e.Finish? || e.Crash?
    ensures Inv(Apply(s, e), faults)
  {
    Versions(s.db);
    hide PlainKeys, InsertOrIgnore, BlankRow;
  }

  /** Every step keeps the invariant. */
  lemma StepInv(s: State, e: Event, faults: bool)
    requires Inv(s, faults) && Enabled(s, e) && (e.AlterFails? ==> faults)
    ensures Inv(Apply(s, e), faults)
  {
    hide Inv, Apply, Enabled;
    match e
    case CreateBookkeeping => EarlyInv(s, e, faults);
    case Check => EarlyInv(s, e, faults);
    case ApplyBaseline => EarlyInv(s, e, faults);
    case AlterColumn => EarlyInv(s, e, faults);
    case AlterFails => EarlyInv(s, e, faults);
    case RebuildTable => EarlyInv(s, e, faults);
    case CollectKeys => KeysInv(s, e, faults);
    case InsertHash(_) => KeysInv(s, e, faults);
    case BlankKey => KeysInv(s, e, faults);
    case KeysDone => KeysInv(s, e, faults);
    case RecordOne => KeysInv(s, e, faults);
    case _ => LateInv(s, e, faults);
  }

  // ----- every step keeps the outcome -----

  lemma HolderIs(tenants: map<int, K.TenantRow>, id: int, key: Bytes)
    requires Holds(tenants, id, key)
    ensures Holder(tenants, key) == id
  {
  }

  /** Nothing to adopt means that both branches of `Final` agree. */
  lemma NothingToAdopt(db: Db)
    requires PlainKeys(db.tenants) == map[]
    ensures Blanked(db.tenants) == db.tenants && Adopted(db.keys, db.tenants) == db.keys
  {
    forall id | id in db.tenants ensures db.tenants[id].apiKey == "" {
      assert id !in PlainKeys(db.tenants);
    }
    assert PlainHashes(db.tenants) == {};
  }

  lemma FirstHolds(tenants: map<int, K.TenantRow>, id: int)
    requires First(PlainKeys(tenants), id)
    ensures Holds(tenants, id, tenants[id].apiKey)
  {
    var key := tenants[id].apiKey;
    forall j | j in tenants && tenants[j].apiKey == key ensures id <= j {
      assert j in PlainKeys(tenants);
    }
  }

  lemma InsertAdopts(db: Db, id: int)
    requires First(PlainKeys(db.tenants), id)
    ensures var db' := InsertOrIgnore(db, id, db.tenants[id].apiKey);
            db' == db.(keys := db'.keys) && Adopted(db'.keys, db.tenants) == Adopted(db.keys, db.tenants)
  {
    FirstHolds(db.tenants, id);
    var key := db.tenants[id].apiKey;
    HolderIs(db.tenants, id, key);
    assert K.Sha256(key) in PlainHashes(db.tenants);
    hide Holder, Holds;
  }

  lemma HolderAfterBlank(tenants: map<int, K.TenantRow>, id: int, key: Bytes)
    requires id in tenants && tenants[id].apiKey != key && key != ""
    ensures Holder(BlankRow(tenants, id), key) == Holder(tenants, key)
  {
    var after := BlankRow(tenants, id);
    forall j ensures Holds(after, j, key) <==> Holds(tenants, j, key) {
      assert forall i :: i in tenants ==> (tenants[i].apiKey == key <==> after[i].apiKey == key);
    }
    if exists j :: Holds(tenants, j, key) {
      var j :| Holds(tenants, j, key);
      HolderIs(tenants, j, key);
      HolderIs(after, j, key);
    }
  }

  lemma BlankAdopts(db: Db, id: int)
    requires id in PlainKeys(db.tenants) && K.Sha256(db.tenants[id].apiKey) in db.keys
    ensures var after := BlankRow(db.tenants, id);
            Adopted(db.keys, after) == Adopted(db.keys, db.tenants) && Blanked(after) == Blanked(db.tenants)
  {
    hide Holder, Holds;
    var after := BlankRow(db.tenants, id);
    var a, b := Adopted(db.keys, after), Adopted(db.keys, db.tenants);
    assert db.keys.Keys + PlainHashes(after) == db.keys.Keys + PlainHashes(db.tenants) by {
      BlankHashes(db.tenants, id);
    }
    assert a.Keys == b.Keys;
    forall h | h in b && h !in db.keys ensures Holder(after, h.key) == Holder(db.tenants, h.key) {
      HolderAfterBlank(db.tenants, id, h.key);
    }
  }

  lemma BlankHashes(tenants: map<int, K.TenantRow>, id: int)
    requires id in tenants
    ensures var after := BlankRow(tenants, id);
            PlainHashes(after) + {K.Sha256(tenants[id].apiKey)} == PlainHashes(tenants) + {K.Sha256(tenants[id].apiKey)}
  {
    var after := BlankRow(tenants, id);
    var own := K.Sha256(tenants[id].apiKey);
    forall h ensures h in PlainHashes(after) + {own} <==> h in PlainHashes(tenants) + {own} {
      if h in PlainHashes(tenants) && h != own {
        var j :| j in tenants && tenants[j].apiKey != "" && h == K.Sha256(tenants[j].apiKey);
        assert after[j] == tenants[j];
      }
      if h in PlainHashes(after) {
        var j :| j in after && after[j].apiKey != "" && h == K.Sha256(after[j].apiKey);
        assert after[j] == tenants[j];
      }
    }
  }

  /** A step of the runner, or a crash, does not change what the database will become. */
  lemma StepFinal(s: State, e: Event, faults: bool)
    requires Inv(s, faults) && Enabled(s, e) && (e.AlterFails? ==> faults)
    ensures Final(Apply(s, e).db) == Final(s.db)
  {
    Versions(s.db);
    hide Adopted, Blanked;
    match e
    case InsertHash(id) => InsertAdopts(s.db, id);
    case BlankKey => BlankAdopts(s.db, s.pc.id);
    case RecordOne => NothingToAdopt(s.db);
    case RecordNext => if s.pc.next == 0 { NothingToAdopt(s.db); }
    case ApplyNext => if s.pc.next == 0 { NothingToAdopt(s.db); }
    case _ =>
  }

  // ----- whole histories -----

  predicate EnabledAll(s: State, es: seq<Event>)
    decreases |es|
  {
    es == [] || (Enabled(s, es[0]) && EnabledAll(Apply(s, es[0]), es[1..]))
  }

  function Run(s: State, es: seq<Event>): State
    requires EnabledAll(s, es)
    decreases |es|
  {
    if es == [] then s else Run(Apply(s, es[0]), es[1..])
  }

  lemma {:induction false} RunKeeps(s: State, es: seq<Event>, faults: bool)
    requires Inv(s, faults) && EnabledAll(s, es) && (AlterFails in es ==> faults)
    ensures Inv(Run(s, es), faults) && Final(Run(s, es).db) == Final(s.db)
    decreases |es|
  {
    if es != [] {
      hide Inv, Apply, Enabled, Final;
      StepInv(s, es[0], faults);
      StepFinal(s, es[0], faults);
      RunKeeps(Apply(s, es[0]), es[1..], faults);
    }
  }

  /** Crash recovery. Start from any database, crash after any steps any number of times: whenever
      the runner finishes, the database is exactly what one uninterrupted run makes of it, and at
      every moment the recorded versions are an initial part of 1, 2. Hypotheses: the database is
      recoverable, and ALTER is not allowed to fail silently unless the tenants table is going to
      be rebuilt or is complete. */
  lemma CrashRecovery(db: Db, es: seq<Event>)
    requires Wf(db) && Recoverable(db) && Guarded(db, AlterFails in es)
    requires EnabledAll(State(db, Boot), es)
    ensures Run(State(db, Boot), es).pc.Done? ==> Run(State(db, Boot), es).db == Final(db)
    ensures Run(State(db, Boot), es).db.versions <= [1, 2]
    ensures Final(Run(State(db, Boot), es).db) == Final(db)
  {
    hide Adopted, Blanked;
    RunKeeps(State(db, Boot), es, AlterFails in es);
  }

  /** Recording a version never meets that version in the table already. */
  lemma NoCollision(db: Db, es: seq<Event>)
    requires Wf(db) && Recoverable(db) && Guarded(db, AlterFails in es)
    requires EnabledAll(State(db, Boot), es)
    ensures var s := Run(State(db, Boot), es);
            && (s.pc.RecordBaseline? ==> 1 !in s.db.versions)
            && (s.pc.Recording? ==> s.pc.next + 1 !in s.db.versions)
  {
    RunKeeps(State(db, Boot), es, AlterFails in es);
    hide Run, EnabledAll;
    Versions(Run(State(db, Boot), es).db);
  }

  // ----- the runner always gets there -----

  lemma {:induction false} LeastOf(ids: set<int>) returns (least: int)
    requires ids != {}
    ensures least in ids && forall j :: j in ids ==> least <= j
  {
    var first := Sums.Member(ids);
    least := first;
    var rest := ids - {first};
    if rest != {} {
      var other := LeastOf(rest);
      if other < least { least := other; }
    }
    forall j | j in ids ensures least <= j {
      assert j == first || j in rest;
    }
  }

  function Stage(pc: Pc): nat
  {
    match pc
    case Boot => 20
    case Checking => 19
    case Baseline => 18
    case Alter(i) => if i < 3 then 17 - i else 0
    case Rebuild => 14
    case Collect => 13
    case Insert(_) => 12
    case Blank(_, _) => 12
    case RecordBaseline => 11
    case Reload => 10
    case Loop(next, _) => if next <= 2 then 9 - 2 * next else 0
    case Recording(next, _) => if next <= 2 then 8 - 2 * next else 0
    case Done => 0
  }

  function Left(pc: Pc): nat
  {
    match pc
    case Insert(todo) => 2 * |todo|
    case Blank(_, todo) => 2 * |todo| + 1
    case _ => 0
  }

  /** Progress of the process. */
  predicate Closer(after: Pc, before: Pc)
  {
    Stage(after) < Stage(before) || (Stage(after) == Stage(before) && Left(after) < Left(before))
  }

  /** The next step of a process that meets no failure: towards the keys, through the keys, and
      after them. */
  lemma EarlyStep(s: State) returns (e: Event)
    requires Inv(s, false) && Stage(s.pc) > 12
    ensures Enabled(s, e) && !e.Crash? && !e.AlterFails? && Closer(Apply(s, e).pc, s.pc)
  {
    hide Wf, Recoverable, Guarded, PlainKeys, AddObjects, Left;
    e := match s.pc
      case Boot => CreateBookkeeping
      case Checking => Check
      case Baseline => ApplyBaseline
      case Alter(_) => AlterColumn
      case Rebuild => RebuildTable
      case _ => CollectKeys;
  }

  lemma KeyStep(s: State) returns (e: Event)
    requires Inv(s, false) && (s.pc.Insert? || s.pc.Blank?)
    ensures Enabled(s, e) && !e.Crash? && !e.AlterFails? && Closer(Apply(s, e).pc, s.pc)
  {
    hide Wf, Recoverable, Guarded, PlainKeys, InsertOrIgnore, BlankRow, Ready;
    if s.pc.Blank? {
      e := BlankKey;
    } else if s.pc.todo == map[] {
      e := KeysDone;
    } else {
      assert s.pc.todo.Keys != {};
      var id := LeastOf(s.pc.todo.Keys);
      assert |s.pc.todo - {id}| < |s.pc.todo|;
      e := InsertHash(id);
    }
  }

  lemma LateStep(s: State) returns (e: Event)
    requires Inv(s, false) && Stage(s.pc) < 12 && !s.pc.Done?
    ensures Enabled(s, e) && !e.Crash? && !e.AlterFails? && Closer(Apply(s, e).pc, s.pc)
  {
    Versions(s.db);
    hide Wf, Recoverable, Guarded, AddObjects, Record, Settled, Left;
    e := match s.pc
      case RecordBaseline => RecordOne
      case Reload => ReloadVersions
      case Loop(next, applied) => if next == 2 then Finish else if next + 1 in applied then Skip else ApplyNext
      case _ => RecordNext;
  }

  lemma NextStep(s: State) returns (e: Event)
    requires Inv(s, false) && !s.pc.Done?
    ensures Enabled(s, e) && !e.Crash? && !e.AlterFails? && Closer(Apply(s, e).pc, s.pc)
  {
    hide Inv, Apply, Enabled, Closer;
    if s.pc.Insert? || s.pc.Blank? {
      e := KeyStep(s);
    } else if Stage(s.pc) > 12 {
      e := EarlyStep(s);
    } else {
      assert Stage(s.pc) < 12;
      e := LateStep(s);
    }
  }

  /** From any reachable state, a run without failures finishes. */
  lemma {:induction false} Completes(s: State) returns (es: seq<Event>)
    requires Inv(s, false)
    ensures EnabledAll(s, es) && Run(s, es).pc.Done?
    ensures forall i :: 0 <= i < |es| ==> !es[i].Crash? && !es[i].AlterFails?
    decreases Stage(s.pc), Left(s.pc)
  {
    hide Inv, Apply, Enabled, Stage, Left;
    if s.pc.Done? {
      es := [];
    } else {
      var e := NextStep(s);
      StepInv(s, e, false);
      var more := Completes(Apply(s, e));
      es := [e] + more;
      assert es[1..] == more;
    }
  }

  // ----- both hypotheses of crash recovery are needed -----

  lemma RunCons(s: State, e: Event, es: seq<Event>)
    requires Enabled(s, e) && EnabledAll(Apply(s, e), es)
    ensures EnabledAll(s, [e] + es) && Run(s, [e] + es) == Run(Apply(s, e), es)
  {
    assert ([e] + es)[1..] == es;
  }

  /** The database right after 0001. */
  function AfterBaseline(db: Db): Db { db.(schema := db.schema + {Bookkeeping} + BASELINE) }

  /** The first steps on a database that is not taken for legacy, and a crash. */
  lemma CrashAfterBaseline(db: Db, rest: seq<Event>)
    requires Wf(db) && db.versions == [] && !Legacy(db) && EnabledAll(State(AfterBaseline(db), Boot), rest)
    ensures var es := [CreateBookkeeping] + ([Check] + ([ReloadVersions] + ([ApplyNext] + ([Crash] + rest))));
            EnabledAll(State(db, Boot), es) && Run(State(db, Boot), es) == Run(State(AfterBaseline(db), Boot), rest)
  {
    var s1 := Apply(State(db, Boot), CreateBookkeeping);
    var s2 := Apply(s1, Check);
    var s3 := Apply(s2, ReloadVersions);
    var s4 := Apply(s3, ApplyNext);
    assert Apply(s4, Crash) == State(AfterBaseline(db), Boot);
    hide Apply, Wf;
    RunCons(s4, Crash, rest);
    RunCons(s3, ApplyNext, [Crash] + rest);
    RunCons(s2, ReloadVersions, [ApplyNext] + ([Crash] + rest));
    RunCons(s1, Check, [ReloadVersions] + ([ApplyNext] + ([Crash] + rest)));
    RunCons(State(db, Boot), CreateBookkeeping, [Check] + ([ReloadVersions] + ([ApplyNext] + ([Crash] + rest))));
  }

  /** One crash right after 0001 makes the next start take a table for legacy that the first one
      did not. */
  lemma RecoverableIsNeeded(db: Db) returns (es: seq<Event>)
    requires Wf(db) && !Recoverable(db)
    ensures EnabledAll(State(db, Boot), es) && AlterFails !in es
    ensures Run(State(db, Boot), es).pc.Done? && Run(State(db, Boot), es).db != Final(db)
  {
    var again := AfterBaseline(db);
    var rest := Completes(State(again, Boot));
    AdoptionShows(again, db);
    CrashRecovery(again, rest);
    CrashAfterBaseline(db, rest);
    es := [CreateBookkeeping] + ([Check] + ([ReloadVersions] + ([ApplyNext] + ([Crash] + rest))));
  }

  /** Adoption is visible unless the table was settled. */
  lemma AdoptionShows(adopted: Db, left: Db)
    requires Legacy(adopted) && !Legacy(left) && !Settled(left)
    ensures Final(adopted) != Final(left)
  {
    hide Adopted;
    if PlainKeys(left.tenants) != map[] {
      var id := Sums.Member(PlainKeys(left.tenants).Keys);
      assert left.tenants[id].apiKey != "";
    }
  }

  /** Once version 1 is recorded the runner never touches the columns again. */
  lemma {:induction false} ColumnsFrozen(s: State, es: seq<Event>)
    requires s.db.versions != [] && !s.pc.Baseline? && !s.pc.Alter? && EnabledAll(s, es)
    ensures Run(s, es).db.columns == s.db.columns
    decreases |es|
  {
    if es != [] {
      assert Apply(s, es[0]).db.versions != [] && Apply(s, es[0]).db.columns == s.db.columns;
      assert !Apply(s, es[0]).pc.Baseline? && !Apply(s, es[0]).pc.Alter?;
      hide Apply, Enabled;
      ColumnsFrozen(Apply(s, es[0]), es[1..]);
    }
  }

  predicate PastRebuild(pc: Pc)
  {
    pc.Collect? || pc.Insert? || pc.Blank? || pc.RecordBaseline? || pc.Reload? || pc.Loop? || pc.Recording? || pc.Done?
  }

  function WithColumns(s: State, columns: set<Column>): State { s.(db := s.db.(columns := columns)) }

  /** After the rebuild the columns play no part. */
  lemma {:induction false} ColumnsIrrelevant(s: State, es: seq<Event>, columns: set<Column>)
    requires PastRebuild(s.pc) && EnabledAll(s, es) && Crash !in es
    ensures EnabledAll(WithColumns(s, columns), es)
    ensures Run(WithColumns(s, columns), es) == WithColumns(Run(s, es), columns)
    decreases |es|
  {
    if es != [] {
      assert es[0] != Crash;
      assert Enabled(WithColumns(s, columns), es[0]);
      assert Apply(WithColumns(s, columns), es[0]) == WithColumns(Apply(s, es[0]), columns);
      assert PastRebuild(Apply(s, es[0]).pc);
      hide Apply, Enabled, WithColumns, PastRebuild;
      ColumnsIrrelevant(Apply(s, es[0]), es[1..], columns);
    }
  }

  /** The first steps on a legacy database when no ALTER succeeds. */
  lemma SkippedColumns(db: Db, rest: seq<Event>)
    requires Legacy(db) && !db.unique && EnabledAll(State(AfterBaseline(db), Rebuild), rest)
    ensures var fails := [AlterFails] + ([AlterFails] + ([AlterFails] + rest));
            var es := [CreateBookkeeping] + ([Check] + ([ApplyBaseline] + fails));
            && EnabledAll(State(db, Boot), es)
            && Run(State(db, Boot), es) == Run(State(AfterBaseline(db), Rebuild), rest)
  {
    var s1 := Apply(State(db, Boot), CreateBookkeeping);
    var s2 := Apply(s1, Check);
    var s3 := Apply(s2, ApplyBaseline);
    var s4 := Apply(s3, AlterFails);
    var s5 := Apply(s4, AlterFails);
    assert Apply(s5, AlterFails) == State(AfterBaseline(db), Rebuild);
    hide Apply;
    RunCons(s5, AlterFails, rest);
    RunCons(s4, AlterFails, [AlterFails] + rest);
    RunCons(s3, AlterFails, [AlterFails] + ([AlterFails] + rest));
    var fails := [AlterFails] + ([AlterFails] + ([AlterFails] + rest));
    RunCons(s2, ApplyBaseline, fails);
    RunCons(s1, Check, [ApplyBaseline] + fails);
    RunCons(State(db, Boot), CreateBookkeeping, [Check] + ([ApplyBaseline] + fails));
  }

  /** On a table that will not be rebuilt, ignored ALTER failures leave the columns missing: the
      runner finishes, and by `ColumnsFrozen` no later run adds them. */
  lemma GuardIsNeeded(db: Db) returns (es: seq<Event>)
    requires Wf(db) && !Guarded(db, true)
    ensures EnabledAll(State(db, Boot), es) && Crash !in es
    ensures Run(State(db, Boot), es).pc.Done? && Run(State(db, Boot), es).db != Final(db)
    ensures Run(State(db, Boot), es).db.columns == db.columns
  {
    var s := State(AfterBaseline(db), Rebuild);
    RebuildWithout(db);
    var t := Apply(s, RebuildTable);
    hide Wf, Final, Guarded, Inv, Apply, AfterBaseline, PastRebuild, WithColumns, Enabled, EnabledAll, Run;
    var rest := Completes(WithColumns(t, ALL_COLUMNS));
    ColumnsIrrelevant(WithColumns(t, ALL_COLUMNS), rest, db.columns);
    RunCons(s, RebuildTable, rest);
    SkippedColumns(db, [RebuildTable] + rest);
    ColumnsOf(Run(WithColumns(t, ALL_COLUMNS), rest), db.columns);
    var fails := [AlterFails] + ([AlterFails] + ([AlterFails] + ([RebuildTable] + rest)));
    es := [CreateBookkeeping] + ([Check] + ([ApplyBaseline] + fails));
    NoCrash(rest);
  }

  lemma NoCrash(rest: seq<Event>)
    requires forall i :: 0 <= i < |rest| ==> !rest[i].Crash?
    ensures var fails := [AlterFails] + ([AlterFails] + ([AlterFails] + ([RebuildTable] + rest)));
            Crash !in [CreateBookkeeping] + ([Check] + ([ApplyBaseline] + fails))
  {
  }

  lemma ColumnsOf(s: State, columns: set<Column>)
    ensures WithColumns(s, columns).db.columns == columns && WithColumns(s, columns).pc == s.pc
  {
  }

  /** The rebuild step when the columns are missing. */
  lemma RebuildWithout(db: Db)
    requires Wf(db) && !Guarded(db, true)
    ensures var s := State(AfterBaseline(db), Rebuild);
            && Legacy(db) && !db.unique && db.columns != Final(db).columns && Enabled(s, RebuildTable)
            && var t := Apply(s, RebuildTable);
            && Inv(WithColumns(t, ALL_COLUMNS), false) && PastRebuild(WithColumns(t, ALL_COLUMNS).pc)
            && WithColumns(WithColumns(t, ALL_COLUMNS), db.columns) == t
  {
    hide Adopted, Blanked, PlainKeys;
  }

  // ----- credentials -----

  function AsTables(db: Db): K.Tables { K.Tables(db.tenants, db.keys, 0) }

  /** Who a plaintext key belongs to afterwards: an existing row with its hash wins, otherwise the
      tenant with the lowest id among its holders. */
  ghost predicate KeyIsFree(db: Db, id: int)
    requires id in db.tenants
  {
    var h := K.Sha256(db.tenants[id].apiKey);
    if h in db.keys then db.keys[h].tenant == id && db.keys[h].enabled && !db.keys[h].revoked
    else Holds(db.tenants, id, db.tenants[id].apiKey)
  }

  lemma AdoptedRow(db: Db, id: int)
    requires id in PlainKeys(db.tenants)
    ensures var h := K.Sha256(db.tenants[id].apiKey);
            && h in Adopted(db.keys, db.tenants)
            && (KeyIsFree(db, id) <==>
                  var row := Adopted(db.keys, db.tenants)[h]; row.tenant == id && row.enabled && !row.revoked)
  {
    var key := db.tenants[id].apiKey;
    assert K.Sha256(key) in PlainHashes(db.tenants);
    if exists j :: Holds(db.tenants, j, key) {
      var j :| Holds(db.tenants, j, key);
      HolderIs(db.tenants, j, key);
    } else {
      var ids := set j | j in db.tenants && db.tenants[j].apiKey == key;
      assert id in ids;
      var least := LeastOf(ids);
      forall j | j in db.tenants && db.tenants[j].apiKey == key ensures least <= j {
        assert j in ids;
      }
      assert Holds(db.tenants, least, key);
    }
  }

  /** Credentials survive every crash history: a plaintext key of an adopted tenant resolves to
      that tenant exactly when the tenant is active, the key is 32 hex digits (or carries the
      tenant's id), and it is not already taken by another row or shared with a lower id. */
  lemma CredentialsPreserved(db: Db, es: seq<Event>, id: int)
    requires Wf(db) && Legacy(db) && Guarded(db, AlterFails in es) && id in PlainKeys(db.tenants)
    requires EnabledAll(State(db, Boot), es) && Run(State(db, Boot), es).pc.Done?
    ensures var key := db.tenants[id].apiKey;
            K.Lookup(AsTables(Run(State(db, Boot), es).db), key) == Some(id) <==>
            db.tenants[id].active && K.ShapeOf(key) in {K.Legacy, K.Embedded(id)} && KeyIsFree(db, id)
  {
    CrashRecovery(db, es);
    AdoptedRow(db, id);
    hide K.ShapeOf, Run, EnabledAll, Holder, Holds, PlainHashes, Adopted, KeyIsFree;
  }

  /** With pairwise distinct keys none of which is hashed already, every active tenant keeps its
      32-digit key. */
  lemma DistinctKeysSurvive(db: Db, es: seq<Event>, id: int)
    requires Wf(db) && Legacy(db) && Guarded(db, AlterFails in es) && id in PlainKeys(db.tenants)
    requires EnabledAll(State(db, Boot), es) && Run(State(db, Boot), es).pc.Done?
    requires forall j :: j in db.tenants && j != id ==> db.tenants[j].apiKey != db.tenants[id].apiKey
    requires K.Sha256(db.tenants[id].apiKey) !in db.keys
    requires db.tenants[id].active && |db.tenants[id].apiKey| == K.LEGACY_LENGTH && K.IsHex(db.tenants[id].apiKey)
    ensures K.Lookup(AsTables(Run(State(db, Boot), es).db), db.tenants[id].apiKey) == Some(id)
  {
    var key := db.tenants[id].apiKey;
    assert !HasPrefix(key, "ing_") by {
      assert K.IsHexDigit(key[0]);
    }
    CredentialsPreserved(db, es, id);
  }

  /** The rest of the data survives too: all plaintext is gone and tenant rows are otherwise
      unchanged; existing key rows are unchanged, every new one comes from a plaintext key, and
      any other key resolves as before. */
  lemma DataPreserved(db: Db, es: seq<Event>)
    requires Wf(db) && Recoverable(db) && Guarded(db, AlterFails in es)
    requires EnabledAll(State(db, Boot), es) && Run(State(db, Boot), es).pc.Done?
    ensures var after := Run(State(db, Boot), es).db;
            && after.versions == [1, 2]
            && after.tenants.Keys == db.tenants.Keys
            && (forall id :: id in db.tenants ==>
                  after.tenants[id] == if Legacy(db) then db.tenants[id].(apiKey := "") else db.tenants[id])
            && (forall h :: h in db.keys ==> h in after.keys && after.keys[h] == db.keys[h])
            && (forall h :: h in after.keys && h !in db.keys ==> Legacy(db) && h in PlainHashes(db.tenants))
            && (forall key :: K.Sha256(key) !in PlainHashes(db.tenants) ==>
                  K.Lookup(AsTables(after), key) == K.Lookup(AsTables(db), key))
  {
    CrashRecovery(db, es);
    hide Run, EnabledAll;
    FinalData(db);
    hide Final, Adopted, Blanked, PlainHashes, K.Lookup;
  }

  /** What adoption makes of a legacy database, after any crash history: the new tenants table, all
      schema objects, and for every plaintext key that was not hashed yet an enabled row of a
      tenant that held it, with its first twelve characters. */
  lemma AdoptedShape(db: Db, es: seq<Event>, h: K.Hash)
    requires Wf(db) && Legacy(db) && Guarded(db, AlterFails in es)
    requires EnabledAll(State(db, Boot), es) && Run(State(db, Boot), es).pc.Done?
    ensures var after := Run(State(db, Boot), es).db;
            && after.columns == {Rps, Burst, Quota} && !after.unique
            && (forall o: Object :: o in after.schema)
            && (h in after.keys && h !in db.keys ==>
                  && after.keys[h].enabled && !after.keys[h].revoked
                  && after.keys[h].tenant in db.tenants && db.tenants[after.keys[h].tenant].apiKey == h.key
                  && after.keys[h].prefix <= h.key
                  && |after.keys[h].prefix| == if |h.key| < 12 then |h.key| else 12)
  {
    CrashRecovery(db, es);
    hide Run, EnabledAll;
    AllObjects(db);
    if h in Final(db).keys && h !in db.keys {
      K.PrefixIs(h.key);
      HolderHolds(db.tenants, h);
    }
    hide Holder, PlainHashes, K.Prefix;
  }

  lemma AllObjects(db: Db)
    ensures forall o: Object :: o in Final(db).schema
  {
    hide Adopted, Blanked;
    forall o: Object ensures o in Final(db).schema {
      match o
      case Bookkeeping => case Users => case Tenants => case TenantsIndex => case UsageLogs =>
      case Certificates => case UsageCounters => case KeyTable => case HourIndex =>
    }
  }

  /** The holder of a plaintext key holds it. */
  lemma HolderHolds(tenants: map<int, K.TenantRow>, h: K.Hash)
    requires h in PlainHashes(tenants)
    ensures Holder(tenants, h.key) in tenants && tenants[Holder(tenants, h.key)].apiKey == h.key
  {
    var id :| id in tenants && tenants[id].apiKey != "" && h == K.Sha256(tenants[id].apiKey);
    var ids := set j | j in tenants && tenants[j].apiKey == h.key;
    assert id in ids;
    var least := LeastOf(ids);
    forall j | j in tenants && tenants[j].apiKey == h.key ensures least <= j {
      assert j in ids;
    }
    assert Holds(tenants, least, h.key);
    HolderIs(tenants, least, h.key);
  }

  /** What the final database keeps. */
  lemma FinalData(db: Db)
    ensures var after := Final(db);
            && after.versions == [1, 2]
            && after.tenants.Keys == db.tenants.Keys
            && (forall id :: id in db.tenants ==>
                  after.tenants[id] == if Legacy(db) then db.tenants[id].(apiKey := "") else db.tenants[id])
            && (forall h :: h in db.keys ==> h in after.keys && after.keys[h] == db.keys[h])
            && (forall h :: h in after.keys && h !in db.keys ==> Legacy(db) && h in PlainHashes(db.tenants))
            && (forall key :: K.Sha256(key) !in PlainHashes(db.tenants) ==>
                  K.Lookup(AsTables(after), key) == K.Lookup(AsTables(db), key))
  {
    hide Holder, PlainHashes;
    forall key | K.Sha256(key) !in PlainHashes(db.tenants)
      ensures K.Lookup(AsTables(Final(db)), key) == K.Lookup(AsTables(db), key)
    {
      SameLookup(AsTables(db), AsTables(Final(db)), key);
    }
  }

  /** A lookup sees of the tables only the row of the key and whether its tenant is active. */
  lemma SameLookup(s: K.Tables, t: K.Tables, key: Bytes)
    requires s.tenants.Keys == t.tenants.Keys
    requires forall id :: id in s.tenants ==> s.tenants[id].active == t.tenants[id].active
    requires K.Sha256(key) in s.keys <==> K.Sha256(key) in t.keys
    requires K.Sha256(key) in s.keys ==> s.keys[K.Sha256(key)] == t.keys[K.Sha256(key)]
    ensures K.Lookup(s, key) == K.Lookup(t, key)
  {
    hide K.ShapeOf;
  }

  // ----- the imperative code, run without interruption -----

  class Runner {
    var db: Db

    constructor (db: Db)
      ensures this.db == db
    {
      this.db := db;
    }

    method ApplyMigration(version: int)
      modifies this
      ensures db == AddObjects(old(db), version)
    {
      db := AddObjects(db, version);
    }

    /** Fails on a version that is already recorded. */
    method RecordVersion(version: int) returns (ok: bool)
      modifies this
      ensures ok <==> version !in old(db).versions
      ensures db == if ok then Record(old(db), version) else old(db)
    {
      ok := version !in db.versions;
      if ok { db := Record(db, version); }
    }

    method NormalizeLegacyTenants()
      modifies this
      ensures db == old(db).(columns := ALL_COLUMNS, unique := false)
    {
      var columns := [Rps, Burst, Quota];
      var i := 0;
      while i < 3
        invariant 0 <= i <= 3
        invariant db == old(db).(columns := db.columns) && forall j :: 0 <= j < i ==> columns[j] in db.columns
      {
        db := db.(columns := db.columns + {columns[i]});
        i := i + 1;
      }
      assert columns[0] in db.columns && columns[1] in db.columns && columns[2] in db.columns;
      AllThree(db.columns);
      EnsureTenantSchema();
    }

    method EnsureTenantSchema()
      modifies this
      ensures db == old(db).(unique := false)
    {
      if db.unique { db := db.(unique := false); }
    }

    method MigratePlaintextKeys()
      modifies this
      ensures db == old(db).(tenants := Blanked(old(db).tenants), keys := Adopted(old(db).keys, old(db).tenants))
    {
      hide Blanked, Adopted, First, PlainKeys;
      var todo := PlainKeys(db.tenants);
      while todo != map[]
        invariant todo == PlainKeys(db.tenants)
        invariant db == old(db).(tenants := db.tenants, keys := db.keys)
        invariant Blanked(db.tenants) == Blanked(old(db).tenants)
        invariant Adopted(db.keys, db.tenants) == Adopted(old(db).keys, old(db).tenants)
        decreases |todo|
      {
        var id := NextRow(todo);
        MigrateRow(db, id);
        db := InsertOrIgnore(db, id, todo[id]);
        db := db.(tenants := BlankRow(db.tenants, id));
        assert |todo - {id}| < |todo|;
        todo := todo - {id};
      }
      NothingToAdopt(db);
    }

    method AdoptLegacy() returns (ok: bool)
      requires db.versions == []
      modifies this
      ensures ok && db == Db(old(db).schema + BASELINE, [1], ALL_COLUMNS, false, Blanked(old(db).tenants),
                             Adopted(old(db).keys, old(db).tenants))
    {
      hide Adopted, Blanked;
      ApplyMigration(1);
      NormalizeLegacyTenants();
      MigratePlaintextKeys();
      ok := RecordVersion(1);
    }

    /** The loop over the migrations. */
    method ApplyPending() returns (ok: bool)
      requires Wf(db)
      modifies this
      ensures ok && db == old(db).(schema := old(db).schema + BASELINE + {HourIndex}, versions := [1, 2])
    {
      Versions(db);
      var applied := set v | v in db.versions;
      var next := 0;
      while next < 2
        invariant 0 <= next <= 2
        invariant db.versions == if |old(db).versions| <= next then [1, 2][..next] else old(db).versions
        invariant db == old(db).(schema := db.schema, versions := db.versions)
        invariant next == 0 ==> db.schema == old(db).schema
        invariant next == 1 ==> db.schema == old(db).schema + BASELINE
        invariant next == 2 ==> db.schema == old(db).schema + BASELINE + {HourIndex}
      {
        if next + 1 !in applied {
          ApplyMigration(next + 1);
          ok := RecordVersion(next + 1);
          if !ok { return; }
        }
        next := next + 1;
      }
      ok := true;
    }

    method Migrate() returns (ok: bool)
      requires Wf(db)
      modifies this
      ensures ok && db == Final(old(db))
    {
      Versions(db);
      hide Adopted, Blanked;
      db := db.(schema := db.schema + {Bookkeeping});
      if db.versions == [] && Users in db.schema && Tenants in db.schema {
        ok := AdoptLegacy();
        if !ok { return; }
      }
      ok := ApplyPending();
    }
  }

  /** Some row that the query may return first. */
  method NextRow(todo: map<int, Bytes>) returns (id: int)
    requires todo != map[]
    ensures First(todo, id)
  {
    var ids := todo.Keys;
    id := Sums.AnyOf(ids);
    ids := ids - {id};
    while ids != {}
      invariant id in todo && ids <= todo.Keys
      invariant forall j :: j in todo && j !in ids ==> id <= j
      decreases ids
    {
      var j := Sums.AnyOf(ids);
      if j < id { id := j; }
      ids := ids - {j};
    }
  }

  /** One row: hash inserted, plaintext blanked. */
  lemma MigrateRow(db: Db, id: int)
    requires First(PlainKeys(db.tenants), id)
    ensures var plain := PlainKeys(db.tenants);
            var mid := InsertOrIgnore(db, id, plain[id]);
            var after := mid.(tenants := BlankRow(mid.tenants, id));
            && after == db.(tenants := after.tenants, keys := after.keys)
            && PlainKeys(after.tenants) == plain - {id}
            && Blanked(after.tenants) == Blanked(db.tenants)
            && Adopted(after.keys, after.tenants) == Adopted(db.keys, db.tenants)
  {
    InsertAdopts(db, id);
    BlankAdopts(InsertOrIgnore(db, id, PlainKeys(db.tenants)[id]), id);
    hide Adopted, Blanked;
  }
}
