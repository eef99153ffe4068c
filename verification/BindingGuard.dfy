/** The binding guard: a migration made of separate statements, during which any other
    session may insert, update or delete rows, and what it establishes when it returns nil.

    A row map stands for the external-login table, keyed by primary key. The seven schema
    objects the guard installs are each missing, as expected, or of another definition;
    "as expected" is what the source decides by comparing definitions. Only the holder of the
    named lock changes them. */
module BindingGuard {
  import opened Basics
  import opened CommunityId

  datatype Provider = Meta | Other(name: string)
  datatype Row = Row(provider: Provider, external: string, user: int, createdAt: int)
  datatype Def = Missing | Expected | Unexpected

  datatype Schema = Schema(externalColumn: Def, userColumn: Def, externalIndex: Def, userIndex: Def,
                           insertTrigger: Def, updateTrigger: Def, deleteTrigger: Def)

  datatype Db = Db(table: bool, rows: map<nat, Row>, schema: Schema)

  // ---- what the constraints mean ------------------------------------------------------------

  predicate ValidBinding(r: Row) { r.user > 0 && GuardAccepts(r.external) }

  predicate AllValid(rows: map<nat, Row>) {
    forall i | i in rows && rows[i].provider.Meta? :: ValidBinding(rows[i])
  }

  predicate UniqueExternal(rows: map<nat, Row>) {
    forall i, j | i in rows && j in rows && i != j && rows[i].provider.Meta? && rows[j].provider.Meta? ::
      rows[i].external != rows[j].external
  }

  predicate UniqueUser(rows: map<nat, Row>) {
    forall i, j | i in rows && j in rows && i != j && rows[i].provider.Meta? && rows[j].provider.Meta? ::
      rows[i].user != rows[j].user
  }

  /** The unique indexes in force hold; the engine itself never lets them fail. */
  predicate IndexesHold(db: Db) {
    && (db.schema.externalColumn.Expected? && db.schema.externalIndex.Expected? ==> UniqueExternal(db.rows))
    && (db.schema.userColumn.Expected? && db.schema.userIndex.Expected? ==> UniqueUser(db.rows))
  }

  // ---- other sessions -----------------------------------------------------------------------

  datatype Statement =
    | Insert(id: nat, row: Row)
    | Update(id: nat, newId: nat, row: Row)
    | Delete(id: nat)

  function Effect(rows: map<nat, Row>, s: Statement): map<nat, Row> {
    match s
    case Insert(i, r) => rows[i := r]
    case Update(i, j, r) => (rows - {i})[j := r]
    case Delete(i) => rows - {i}
  }

  /** A row statement the database lets through. A trigger of another definition is taken to
      let everything through. */
  predicate Admits(db: Db, s: Statement) {
    && db.table
    && (match s
        case Insert(i, r) =>
          i !in db.rows && (db.schema.insertTrigger.Expected? && r.provider.Meta? ==> ValidBinding(r))
        case Update(i, j, r) =>
          && i in db.rows && (j == i || j !in db.rows)
          && (db.schema.updateTrigger.Expected? && (db.rows[i].provider.Meta? || r.provider.Meta?) ==> r == db.rows[i])
        case Delete(i) =>
          i in db.rows && (db.schema.deleteTrigger.Expected? ==> !db.rows[i].provider.Meta?))
    && IndexesHold(db.(rows := Effect(db.rows, s)))
  }

  function Apply(db: Db, s: Statement): Db
    requires Admits(db, s)
  {
    db.(rows := Effect(db.rows, s))
  }

  // ---- the migration ------------------------------------------------------------------------

  datatype Op =
    | RequireTable
    | ScanInvalid | ScanExternal | ScanUser
    | EnsureExternalColumn | EnsureUserColumn
    | EnsureExternalIndex | EnsureUserIndex
    | EnsureInsertTrigger | EnsureUpdateTrigger | EnsureDeleteTrigger
    | Inspect

  const SCAN: seq<Op> := [ScanInvalid, ScanExternal, ScanUser]

  const INSTALL: seq<Op> := [EnsureExternalColumn, EnsureUserColumn, EnsureExternalIndex, EnsureUserIndex,
                             EnsureInsertTrigger, EnsureUpdateTrigger, EnsureDeleteTrigger]

  /** The statements of `Ensure`, in order. */
  const PLAN: seq<Op> := [RequireTable] + SCAN + INSTALL + SCAN + [Inspect]

  /** Missing becomes expected; expected stays; anything else is refused. */
  function Created(d: Def): (r: Option<Def>) {
    match d case Missing => Some(Expected) case Expected => Some(Expected) case Unexpected => None
  }

  /** One statement of the migration: the new database, or none when `Ensure` fails there. */
  function Execute(db: Db, op: Op): Option<Db> {
    var s := db.schema;
    match op
    case RequireTable => if db.table then Some(db) else None
    case ScanInvalid => if AllValid(db.rows) then Some(db) else None
    case ScanExternal => if UniqueExternal(db.rows) then Some(db) else None
    case ScanUser => if UniqueUser(db.rows) then Some(db) else None
    case EnsureExternalColumn =>
      (match Created(s.externalColumn) case None => None
       case Some(d) => Build(db.(schema := s.(externalColumn := d))))
    case EnsureUserColumn =>
      (match Created(s.userColumn) case None => None
       case Some(d) => Build(db.(schema := s.(userColumn := d))))
    case EnsureExternalIndex =>
      (match Created(s.externalIndex) case None => None
       case Some(d) => Build(db.(schema := s.(externalIndex := d))))
    case EnsureUserIndex =>
      (match Created(s.userIndex) case None => None
       case Some(d) => Build(db.(schema := s.(userIndex := d))))
    case EnsureInsertTrigger =>
      (match Created(s.insertTrigger) case None => None case Some(d) => Some(db.(schema := s.(insertTrigger := d))))
    case EnsureUpdateTrigger =>
      (match Created(s.updateTrigger) case None => None case Some(d) => Some(db.(schema := s.(updateTrigger := d))))
    case EnsureDeleteTrigger =>
      (match Created(s.deleteTrigger) case None => None case Some(d) => Some(db.(schema := s.(deleteTrigger := d))))
    case Inspect => if db.table && AllExpected(s) then Some(db) else None
  }

  /** The engine refuses to build a unique index over rows that already repeat a value. */
  function Build(db: Db): Option<Db> {
    if IndexesHold(db) then Some(db) else None
  }

  predicate AllExpected(s: Schema) {
    && s.externalColumn.Expected? && s.userColumn.Expected? && s.externalIndex.Expected? && s.userIndex.Expected?
    && s.insertTrigger.Expected? && s.updateTrigger.Expected? && s.deleteTrigger.Expected?
  }

  // ---- interleaving -------------------------------------------------------------------------

  /** `at` statements of the plan are done. */
  datatype State = State(db: Db, at: nat)
  datatype Event = Advance | Foreign(statement: Statement)

  predicate Enabled(plan: seq<Op>, s: State, e: Event) {
    match e
    case Advance => s.at < |plan| && Execute(s.db, plan[s.at]).Some?
    case Foreign(st) => Admits(s.db, st)
  }

  function Step(plan: seq<Op>, s: State, e: Event): State
    requires Enabled(plan, s, e)
  {
    match e
    case Advance => State(Execute(s.db, plan[s.at]).value, s.at + 1)
    case Foreign(st) => s.(db := Apply(s.db, st))
  }

  predicate Legal(plan: seq<Op>, s: State, es: seq<Event>)
    decreases |es|
  {
    es == [] || (Enabled(plan, s, es[0]) && Legal(plan, Step(plan, s, es[0]), es[1..]))
  }

  function After(plan: seq<Op>, s: State, es: seq<Event>): State
    requires Legal(plan, s, es)
    decreases |es|
  {
    if es == [] then s else After(plan, Step(plan, s, es[0]), es[1..])
  }

  // ---- what holds at each point ---------------------------------------------------------------

  ghost predicate Inv(s: State) {
    && s.at <= |PLAN|
    && IndexesHold(s.db)
    && (s.at > 4 ==> s.db.schema.externalColumn.Expected?)
    && (s.at > 5 ==> s.db.schema.userColumn.Expected?)
    && (s.at > 6 ==> s.db.schema.externalIndex.Expected?)
    && (s.at > 7 ==> s.db.schema.userIndex.Expected?)
    && (s.at > 8 ==> s.db.schema.insertTrigger.Expected?)
    && (s.at > 9 ==> s.db.schema.updateTrigger.Expected?)
    && (s.at > 10 ==> s.db.schema.deleteTrigger.Expected?)
    && (s.at > 11 ==> AllValid(s.db.rows))
    && (s.at > 14 ==> s.db.table)
  }

  /** With the triggers in place no admitted statement introduces an invalid binding. */
  lemma ValidityIsKept(db: Db, st: Statement)
    requires Admits(db, st) && AllValid(db.rows)
    requires db.schema.insertTrigger.Expected? && db.schema.updateTrigger.Expected?
    ensures AllValid(Apply(db, st).rows)
  {
    var rows := Apply(db, st).rows;
    forall i | i in rows && rows[i].provider.Meta? ensures ValidBinding(rows[i]) {
      match st
      case Insert(j, r) => assert i == j || i in db.rows;
      case Update(j, k, r) => assert i == k || i in db.rows;
      case Delete(_) => assert i in db.rows;
    }
  }

  lemma StepInv(s: State, e: Event)
    requires Inv(s) && Enabled(PLAN, s, e)
    ensures Inv(Step(PLAN, s, e))
  {
    if e.Foreign? && s.at > 11 {
      ValidityIsKept(s.db, e.statement);
    }
  }

  lemma {:induction false} RunInv(s: State, es: seq<Event>)
    requires Inv(s) && Legal(PLAN, s, es)
    ensures Inv(After(PLAN, s, es))
    decreases |es|
  {
    if es != [] {
      StepInv(s, es[0]);
      RunInv(Step(PLAN, s, es[0]), es[1..]);
    }
  }

  /** A database whose bindings are protected: one to one, all valid, nothing missing. */
  ghost predicate Guarded(db: Db) {
    db.table && AllExpected(db.schema) && AllValid(db.rows) && UniqueExternal(db.rows) && UniqueUser(db.rows)
  }

  /** When `Ensure` returns nil, whatever other sessions did between any two of its
      statements and after the last one, the bindings are one to one and valid. */
  lemma EnsureProtects(db: Db, es: seq<Event>)
    requires IndexesHold(db) && Legal(PLAN, State(db, 0), es)
    requires After(PLAN, State(db, 0), es).at == |PLAN|
    ensures Guarded(After(PLAN, State(db, 0), es).db)
  {
    RunInv(State(db, 0), es);
  }

  // ---- immutability ---------------------------------------------------------------------------

  /** Who is bound to whom, and since when. */
  function Bindings(rows: map<nat, Row>): set<(string, int, int)> {
    set i | i in rows && rows[i].provider.Meta? :: (rows[i].external, rows[i].user, rows[i].createdAt)
  }

  lemma GuardedStep(db: Db, st: Statement)
    requires Guarded(db) && Admits(db, st)
    ensures Guarded(Apply(db, st)) && Bindings(db.rows) <= Bindings(Apply(db, st).rows)
  {
    ValidityIsKept(db, st);
    var rows := Apply(db, st).rows;
    forall b | b in Bindings(db.rows) ensures b in Bindings(rows) {
      var i: nat :| i in db.rows && db.rows[i].provider.Meta? &&
                    b == (db.rows[i].external, db.rows[i].user, db.rows[i].createdAt);
      match st
      case Insert(j, _) => assert rows[i] == db.rows[i];
      case Update(j, k, r) => if i == j { assert rows[k] == db.rows[i]; } else { assert rows[i] == db.rows[i]; }
      case Delete(j) => assert rows[i] == db.rows[i];
    }
  }

  predicate AdmitsAll(db: Db, sts: seq<Statement>)
    decreases |sts|
  {
    sts == [] || (Admits(db, sts[0]) && AdmitsAll(Apply(db, sts[0]), sts[1..]))
  }

  function ApplyAll(db: Db, sts: seq<Statement>): Db
    requires AdmitsAll(db, sts)
    decreases |sts|
  {
    if sts == [] then db else ApplyAll(Apply(db, sts[0]), sts[1..])
  }

  /** From then on no sequence of admitted statements removes, transfers or re-dates a
      binding: the relation only grows and stays one to one and valid. */
  lemma {:induction false} BindingsOnlyGrow(db: Db, sts: seq<Statement>)
    requires Guarded(db) && AdmitsAll(db, sts)
    ensures Guarded(ApplyAll(db, sts)) && Bindings(db.rows) <= Bindings(ApplyAll(db, sts).rows)
    decreases |sts|
  {
    if sts != [] {
      GuardedStep(db, sts[0]);
      BindingsOnlyGrow(Apply(db, sts[0]), sts[1..]);
    }
  }

  // ---- why the second scan is there --------------------------------------------------------------

  const WITHOUT_RESCAN: seq<Op> := [RequireTable] + SCAN + INSTALL + [Inspect]

  lemma {:induction false} Extend(plan: seq<Op>, s: State, es: seq<Event>, e: Event)
    requires Legal(plan, s, es) && Enabled(plan, After(plan, s, es), e)
    ensures Legal(plan, s, es + [e]) && After(plan, s, es + [e]) == Step(plan, After(plan, s, es), e)
    decreases |es|
  {
    if es == [] {
      assert [e][1..] == [];
    } else {
      Extend(plan, Step(plan, s, es[0]), es[1..], e);
      assert (es + [e])[1..] == es[1..] + [e];
    }
  }

  const EMPTY: Schema := Schema(Missing, Missing, Missing, Missing, Missing, Missing, Missing)
  const BAD_ROW: Row := Row(Meta, "001", 10, 0)

  /** The first scan passes on an empty table; then another session inserts "001". */
  lemma ScannedThenSpoiled() returns (es: seq<Event>)
    ensures Legal(WITHOUT_RESCAN, State(Db(true, map[], EMPTY), 0), es)
    ensures After(WITHOUT_RESCAN, State(Db(true, map[], EMPTY), 0), es) == State(Db(true, map[1 := BAD_ROW], EMPTY), 4)
  {
    var plan, db := WITHOUT_RESCAN, Db(true, map[], EMPTY);
    var s := State(db, 0);
    es := [];
    Extend(plan, s, es, Advance);
    es := es + [Advance];
    Extend(plan, s, es, Advance);
    es := es + [Advance];
    Extend(plan, s, es, Advance);
    es := es + [Advance];
    Extend(plan, s, es, Advance);
    es := es + [Advance];
    assert After(plan, s, es) == State(db, 4);
    var bad := Insert(1, BAD_ROW);
    assert Effect(db.rows, bad) == map[1 := BAD_ROW];
    Extend(plan, s, es, Foreign(bad));
    es := es + [Foreign(bad)];
  }

  /** The rest of the shortened plan then succeeds. */
  lemma {:induction false} InstallsOver(s: State, es: seq<Event>, k: nat) returns (es': seq<Event>)
    requires 4 <= k <= 12 && Legal(WITHOUT_RESCAN, s, es)
    requires After(WITHOUT_RESCAN, s, es) == State(Db(true, map[1 := BAD_ROW], PartlyInstalled(k)), k)
    ensures Legal(WITHOUT_RESCAN, s, es') && After(WITHOUT_RESCAN, s, es').at == 12
    ensures After(WITHOUT_RESCAN, s, es').db.rows == map[1 := BAD_ROW]
    decreases 12 - k
  {
    es' := es;
    if k < 12 {
      assert WITHOUT_RESCAN[k] == if k < 11 then INSTALL[k - 4] else Inspect;
      Extend(WITHOUT_RESCAN, s, es, Advance);
      es' := InstallsOver(s, es + [Advance], k + 1);
    }
  }

  function PartlyInstalled(k: nat): Schema {
    var d := (n: nat) => if k > n then Expected else Missing;
    Schema(d(4), d(5), d(6), d(7), d(8), d(9), d(10))
  }

  /** Without the second scan a binding inserted before the insert trigger exists survives:
      a run that ends in success with an invalid row. */
  lemma RescanIsNeeded()
    ensures exists db: Db, es: seq<Event> ::
              && IndexesHold(db) && Legal(WITHOUT_RESCAN, State(db, 0), es)
              && After(WITHOUT_RESCAN, State(db, 0), es).at == |WITHOUT_RESCAN|
              && !AllValid(After(WITHOUT_RESCAN, State(db, 0), es).db.rows)
  {
    var db := Db(true, map[], EMPTY);
    var es := ScannedThenSpoiled();
    es := InstallsOver(State(db, 0), es, 4);
    var rows := After(WITHOUT_RESCAN, State(db, 0), es).db.rows;
    assert 1 in rows && rows[1] == BAD_ROW && !MatchesPattern("001");
    assert IndexesHold(db);
  }
}
