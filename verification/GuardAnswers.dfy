/** What each statement of the migration accepts and changes, when the migration as a whole can
    succeed, and what a guarded table still lets through; all in terms of the rows. */
module GuardAnswers {
  import opened Basics
  import opened CommunityId
  import opened BindingGuard

  /** A text that is a positive 64-bit number printed without anything else. */
  ghost predicate IsNumberText(s: string) {
    exists n: nat :: 1 <= n <= 18446744073709551615 && FormatUint(n) == s
  }

  ghost predicate Sound(rows: map<nat, Row>) {
    forall i | i in rows && rows[i].provider == Meta :: rows[i].user >= 1 && IsNumberText(rows[i].external)
  }

  ghost predicate OnePerExternal(rows: map<nat, Row>) {
    forall i, j | i in rows && j in rows && rows[i].provider == Meta && rows[j].provider == Meta
                  && rows[i].external == rows[j].external :: i == j
  }

  ghost predicate OnePerUser(rows: map<nat, Row>) {
    forall i, j | i in rows && j in rows && rows[i].provider == Meta && rows[j].provider == Meta
                  && rows[i].user == rows[j].user :: i == j
  }

  lemma PrintedIsNumber(n: nat, s: string)
    requires 1 <= n <= 18446744073709551615 && s == FormatUint(n)
    ensures Canonical(s)
  {
    FormatShape(n);
    assert ParseUint(s) == Some(n);
  }

  lemma AcceptedIsNumber(s: string)
    ensures GuardAccepts(s) <==> IsNumberText(s)
  {
    GuardAcceptsExactlyCanonical(s);
    if Canonical(s) { assert FormatUint(Val(s)) == s; }
    if IsNumberText(s) {
      var n: nat :| 1 <= n <= 18446744073709551615 && FormatUint(n) == s;
      PrintedIsNumber(n, s);
    }
  }

  lemma RowsAgree(rows: map<nat, Row>)
    ensures AllValid(rows) <==> Sound(rows)
    ensures UniqueExternal(rows) <==> OnePerExternal(rows)
    ensures UniqueUser(rows) <==> OnePerUser(rows)
  {
    forall i | i in rows ensures GuardAccepts(rows[i].external) <==> IsNumberText(rows[i].external) {
      AcceptedIsNumber(rows[i].external);
    }
  }

  // ---- the statements ----------------------------------------------------------------------

  /** The scans pass exactly on sound rows, on distinct externals, on distinct users; the table
      check exactly when the table is there; the inspection exactly when all seven objects are
      as expected. None of them changes anything. */
  lemma ChecksExactly(db: Db)
    ensures Execute(db, RequireTable) == if db.table then Some(db) else None
    ensures Execute(db, ScanInvalid) == if Sound(db.rows) then Some(db) else None
    ensures Execute(db, ScanExternal) == if OnePerExternal(db.rows) then Some(db) else None
    ensures Execute(db, ScanUser) == if OnePerUser(db.rows) then Some(db) else None
    ensures Execute(db, Inspect) ==
            if db.table && db.schema == Schema(Expected, Expected, Expected, Expected, Expected, Expected, Expected)
            then Some(db) else None
  {
    RowsAgree(db.rows);
  }

  /** A trigger is created when missing, left when as expected, and refused when it is another. */
  lemma TriggersExactly(db: Db)
    ensures var s := db.schema;
            && Execute(db, EnsureInsertTrigger) ==
               (if s.insertTrigger == Unexpected then None else Some(db.(schema := s.(insertTrigger := Expected))))
            && Execute(db, EnsureUpdateTrigger) ==
               (if s.updateTrigger == Unexpected then None else Some(db.(schema := s.(updateTrigger := Expected))))
            && Execute(db, EnsureDeleteTrigger) ==
               (if s.deleteTrigger == Unexpected then None else Some(db.(schema := s.(deleteTrigger := Expected))))
  {
  }

  /** So are columns and indexes; and where column and index come together, only over rows that
      do not repeat a value. */
  lemma ColumnsExactly(db: Db)
    requires IndexesHold(db)
    ensures var s := db.schema;
            && Execute(db, EnsureExternalColumn) ==
               (if s.externalColumn == Unexpected || (s.externalIndex == Expected && !OnePerExternal(db.rows)) then None
                else Some(db.(schema := s.(externalColumn := Expected))))
            && Execute(db, EnsureUserColumn) ==
               (if s.userColumn == Unexpected || (s.userIndex == Expected && !OnePerUser(db.rows)) then None
                else Some(db.(schema := s.(userColumn := Expected))))
            && Execute(db, EnsureExternalIndex) ==
               (if s.externalIndex == Unexpected || (s.externalColumn == Expected && !OnePerExternal(db.rows)) then None
                else Some(db.(schema := s.(externalIndex := Expected))))
            && Execute(db, EnsureUserIndex) ==
               (if s.userIndex == Unexpected || (s.userColumn == Expected && !OnePerUser(db.rows)) then None
                else Some(db.(schema := s.(userIndex := Expected))))
  {
    RowsAgree(db.rows);
  }

  // ---- the whole migration --------------------------------------------------------------------

  predicate SomethingUnexpected(s: Schema) {
    || s.externalColumn == Unexpected || s.userColumn == Unexpected
    || s.externalIndex == Unexpected || s.userIndex == Unexpected
    || s.insertTrigger == Unexpected || s.updateTrigger == Unexpected || s.deleteTrigger == Unexpected
  }

  lemma StaysUnexpected(s: State, e: Event)
    requires Enabled(PLAN, s, e) && SomethingUnexpected(s.db.schema)
    ensures SomethingUnexpected(Step(PLAN, s, e).db.schema)
  {
  }

  lemma {:induction false} UnexpectedThroughout(s: State, es: seq<Event>)
    requires Legal(PLAN, s, es) && SomethingUnexpected(s.db.schema)
    ensures SomethingUnexpected(After(PLAN, s, es).db.schema)
    decreases |es|
  {
    if es != [] {
      StaysUnexpected(s, es[0]);
      UnexpectedThroughout(Step(PLAN, s, es[0]), es[1..]);
    }
  }

  /** An object of another definition is never replaced, and the migration never succeeds over it. */
  lemma UnexpectedIsRefused(db: Db, es: seq<Event>)
    requires IndexesHold(db) && Legal(PLAN, State(db, 0), es) && SomethingUnexpected(db.schema)
    ensures After(PLAN, State(db, 0), es).at < |PLAN|
    ensures SomethingUnexpected(After(PLAN, State(db, 0), es).db.schema)
  {
    UnexpectedThroughout(State(db, 0), es);
    StaysInPlan(State(db, 0), es);
    if After(PLAN, State(db, 0), es).at == |PLAN| { EnsureProtects(db, es); }
  }

  lemma {:induction false} StaysInPlan(s: State, es: seq<Event>)
    requires Legal(PLAN, s, es) && s.at <= |PLAN|
    ensures After(PLAN, s, es).at <= |PLAN|
    decreases |es|
  {
    if es != [] { StaysInPlan(Step(PLAN, s, es[0]), es[1..]); }
  }

  /** A database the migration can be run on: the table is there, its bindings are sound and one
      to one, and no object is of another definition. */
  ghost predicate Migratable(db: Db) {
    db.table && Sound(db.rows) && OnePerExternal(db.rows) && OnePerUser(db.rows) && !SomethingUnexpected(db.schema)
  }

  lemma QuietStatement(db: Db, op: Op)
    requires Migratable(db) && op != Inspect
    ensures Execute(db, op).Some? && Execute(db, op).value.rows == db.rows && Migratable(Execute(db, op).value)
  {
    RowsAgree(db.rows);
  }

  lemma QuietStep(s: State)
    requires Migratable(s.db) && s.at < 14
    ensures Enabled(PLAN, s, Advance)
    ensures var s' := Step(PLAN, s, Advance);
            && s'.at == s.at + 1 && s'.db.rows == s.db.rows && Migratable(s'.db)
  {
    assert PLAN[s.at] != Inspect;
    QuietStatement(s.db, PLAN[s.at]);
  }

  /** Left alone it goes through, changes no row, and leaves the table guarded. */
  lemma {:induction false} QuietMigrationSucceeds(s: State, es: seq<Event>)
    requires Migratable(s.db) && Inv(s) && s.at <= 14
    requires |es| == 15 - s.at && forall i | 0 <= i < |es| :: es[i] == Advance
    ensures Legal(PLAN, s, es)
    ensures var end := After(PLAN, s, es); end.at == 15 && end.db.rows == s.db.rows && Guarded(end.db)
    decreases |es|
  {
    if s.at == 14 {
      RowsAgree(s.db.rows);
      assert es == [Advance] && es[1..] == [];
    } else {
      QuietStep(s);
      StepInv(s, Advance);
      QuietMigrationSucceeds(Step(PLAN, s, Advance), es[1..]);
    }
  }

  // ---- the guarded table -------------------------------------------------------------------------

  /** A guarded table takes a new row if it is no binding, or one that is sound and repeats neither
      external identity nor user; it takes a change of a row that neither is nor becomes a
      binding, or that changes nothing of it; and it gives up only rows that are no bindings. */
  lemma AdmittedExactly(db: Db, i: nat, j: nat, r: Row)
    requires Guarded(db)
    ensures Admits(db, Insert(i, r)) <==>
            i !in db.rows
            && (r.provider == Meta ==>
                  && r.user >= 1 && IsNumberText(r.external)
                  && forall k | k in db.rows && db.rows[k].provider == Meta ::
                       db.rows[k].external != r.external && db.rows[k].user != r.user)
    ensures Admits(db, Update(i, j, r)) <==>
            i in db.rows && (j == i || j !in db.rows)
            && (r == db.rows[i] || (r.provider != Meta && db.rows[i].provider != Meta))
    ensures Admits(db, Delete(i)) <==> i in db.rows && db.rows[i].provider != Meta
  {
    InsertExactly(db, i, r);
    UpdateExactly(db, i, j, r);
    assert IndexesHold(db.(rows := db.rows - {i}));
  }

  lemma InsertExactly(db: Db, i: nat, r: Row)
    requires Guarded(db)
    ensures Admits(db, Insert(i, r)) <==>
            i !in db.rows
            && (r.provider == Meta ==>
                  && r.user >= 1 && IsNumberText(r.external)
                  && forall k | k in db.rows && db.rows[k].provider == Meta ::
                       db.rows[k].external != r.external && db.rows[k].user != r.user)
  {
    AcceptedIsNumber(r.external);
    var rows := db.rows[i := r];
    if i !in db.rows && IndexesHold(db.(rows := rows)) && r.provider == Meta {
      forall k | k in db.rows && db.rows[k].provider == Meta
        ensures db.rows[k].external != r.external && db.rows[k].user != r.user
      {
        assert rows[k] == db.rows[k] && rows[i] == r && k != i;
      }
    }
  }

  lemma UpdateExactly(db: Db, i: nat, j: nat, r: Row)
    requires Guarded(db)
    ensures Admits(db, Update(i, j, r)) <==>
            i in db.rows && (j == i || j !in db.rows)
            && (r == db.rows[i] || (r.provider != Meta && db.rows[i].provider != Meta))
  {
    if i in db.rows && (j == i || j !in db.rows) {
      var rows := (db.rows - {i})[j := r];
      forall k | k in rows && k != j ensures k in db.rows && rows[k] == db.rows[k] && k != i {}
      if r == db.rows[i] || (r.provider != Meta && db.rows[i].provider != Meta) {
        assert UniqueExternal(rows) && UniqueUser(rows);
      }
    }
  }
}
