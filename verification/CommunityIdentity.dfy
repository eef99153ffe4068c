/** The migration run as code, and the identity lookup that relies on it. */
module CommunityIdentity {
  import opened CommunityId
  import opened BindingGuard

  /** `mysqlBindingGuard.Ensure`: one statement after another, other sessions in between. */
  class MySqlBindingGuard {
    var state: State
    ghost var start: Db
    ghost var trace: seq<Event>

    ghost predicate Valid()
      reads this
    {
      IndexesHold(start) && Legal(PLAN, State(start, 0), trace) && state == After(PLAN, State(start, 0), trace)
    }

    constructor (db: Db)
      requires IndexesHold(db)
      ensures Valid() && state == State(db, 0)
    {
      state, start, trace := State(db, 0), db, [];
    }

    method Fire(e: Event)
      requires Valid() && Enabled(PLAN, state, e)
      modifies this
      ensures Valid() && state == Step(PLAN, old(state), e)
    {
      Extend(PLAN, State(start, 0), trace, e);
      state := Step(PLAN, state, e);
      trace := trace + [e];
    }

    /** Any number of statements of other sessions. */
    method OtherSessions()
      requires Valid()
      modifies this
      ensures Valid() && state.at == old(state.at)
    {
      var n: nat := *;
      while n > 0
        invariant Valid() && state.at == old(state.at)
      {
        var st: Statement := *;
        if Admits(state.db, st) { Fire(Foreign(st)); }
        n := n - 1;
      }
    }

    /** The statement whose turn it is fails on the database as it is. */
    ghost predicate Refused()
      reads this
    {
      state.at < |PLAN| && Execute(state.db, PLAN[state.at]).None?
    }

    method Do(op: Op) returns (ok: bool)
      requires Valid() && state.at < |PLAN| && PLAN[state.at] == op
      modifies this
      ensures Valid() && state.at == if ok then old(state.at) + 1 else old(state.at)
      ensures !ok ==> Refused()
    {
      OtherSessions();
      ok := Execute(state.db, op).Some?;
      if ok { Fire(Advance); }
    }

    method RejectUnsafeExistingBindings() returns (ok: bool)
      requires Valid() && state.at in {1, 11}
      modifies this
      ensures Valid() && if ok then state.at == old(state.at) + 3 else Refused()
    {
      ok := Do(ScanInvalid);
      if !ok { return; }
      ok := Do(ScanExternal);
      if !ok { return; }
      ok := Do(ScanUser);
    }

    method Install() returns (ok: bool)
      requires Valid() && state.at == 4
      modifies this
      ensures Valid() && if ok then state.at == 11 else Refused()
    {
      ok := InstallColumnsAndIndexes();
      if !ok { return; }
      ok := Do(EnsureInsertTrigger);
      if !ok { return; }
      ok := Do(EnsureUpdateTrigger);
      if !ok { return; }
      ok := Do(EnsureDeleteTrigger);
    }

    method InstallColumnsAndIndexes() returns (ok: bool)
      requires Valid() && state.at == 4
      modifies this
      ensures Valid() && if ok then state.at == 8 else Refused()
    {
      ok := Do(EnsureExternalColumn);
      if !ok { return; }
      ok := Do(EnsureUserColumn);
      if !ok { return; }
      ok := Do(EnsureExternalIndex);
      if !ok { return; }
      ok := Do(EnsureUserIndex);
    }

    /** Success means the bindings are protected, even though other sessions wrote rows
        between the statements and may have written more since. Failure means the statement
        whose turn it was failed. */
    method Ensure() returns (ok: bool)
      requires Valid() && state.at == 0
      modifies this
      ensures Valid() && if ok then state.at == |PLAN| && Guarded(state.db) else Refused()
    {
      ok := Do(RequireTable);
      if !ok { return; }
      ok := RejectUnsafeExistingBindings();
      if !ok { return; }
      ok := Install();
      if !ok { return; }
      ok := RejectUnsafeExistingBindings();
      if !ok { return; }
      ok := Do(Inspect);
      if ok {
        OtherSessions();
        EnsureProtects(start, trace);
      }
    }
  }

  // ---- the lookup -----------------------------------------------------------------------------

  datatype Account = Account(status: int, mailStatus: int)

  datatype Identity =
    | Bound(external: string)
    | Unauthenticated | NotReady | AccountUnavailable | BindingRequired
    | AmbiguousBinding | InvalidBinding

  function BoundRows(rows: map<nat, Row>, user: nat): set<nat> {
    set i | i in rows && rows[i].provider.Meta? && rows[i].user == user
  }

  /** `CommunityIdentity`: the account joined with its binding rows, at most two of them read. */
  ghost function Lookup(db: Db, users: map<nat, Account>, forumId: string): Identity {
    if !Canonical(forumId) then Unauthenticated
    else if !(db.table && AllExpected(db.schema)) then NotReady
    else
      var user := Val(forumId);
      if user !in users then AccountUnavailable
      else
        var found := BoundRows(db.rows, user);
        if |found| > 1 then AmbiguousBinding
        else if users[user] != Account(1, 1) then AccountUnavailable
        else if found == {} then BindingRequired
        else
          var i :| i in found;
          if !Canonical(db.rows[i].external) then InvalidBinding
          else Bound(db.rows[i].external)
  }

  lemma OneRowPerUser(db: Db, user: nat)
    requires Guarded(db)
    ensures |BoundRows(db.rows, user)| <= 1
    ensures forall i, j | i in BoundRows(db.rows, user) && j in BoundRows(db.rows, user) :: i == j
  {
    var found := BoundRows(db.rows, user);
    if found != {} {
      var i :| i in found;
      assert found == {i} by { forall j | j in found ensures j == i {} }
    }
  }

  /** Under the guard the two failure exits for a broken relation are unreachable. */
  lemma BrokenExitsAreUnreachable(db: Db, users: map<nat, Account>, forumId: string)
    requires Guarded(db)
    ensures !Lookup(db, users, forumId).AmbiguousBinding? && !Lookup(db, users, forumId).InvalidBinding?
  {
    if Canonical(forumId) {
      OneRowPerUser(db, Val(forumId));
      forall i | i in BoundRows(db.rows, Val(forumId)) ensures Canonical(db.rows[i].external) {
        GuardAcceptsExactlyCanonical(db.rows[i].external);
      }
    }
  }

  /** The other answers: a caller that is no account number, an account that is not there or not
      active, and an active account without a binding. */
  lemma OtherAnswers(db: Db, users: map<nat, Account>, forumId: string)
    requires Guarded(db)
    ensures var answer, user := Lookup(db, users, forumId), if Canonical(forumId) then Val(forumId) else 0;
            var active := user in users && users[user].status == 1 && users[user].mailStatus == 1;
            && (answer == Unauthenticated <==> !Canonical(forumId))
            && (answer == AccountUnavailable <==> Canonical(forumId) && !active)
            && (answer == BindingRequired <==>
                Canonical(forumId) && active &&
                forall i | i in db.rows && db.rows[i].provider == Meta :: db.rows[i].user != user)
            && answer != NotReady
  {
    if Canonical(forumId) {
      var user := Val(forumId);
      OneRowPerUser(db, user);
      if forall i | i in db.rows && db.rows[i].provider == Meta :: db.rows[i].user != user {
        assert BoundRows(db.rows, user) == {};
      } else {
        var i :| i in db.rows && db.rows[i].provider == Meta && db.rows[i].user == user;
        assert i in BoundRows(db.rows, user);
      }
    }
  }

  ghost predicate BoundTo(db: Db, user: nat, external: string) {
    exists i :: i in db.rows && db.rows[i].provider.Meta? && db.rows[i].user == user && db.rows[i].external == external
  }

  /** The lookup answers a binding exactly when the caller's canonical account is active and
      that binding is in the table. */
  lemma LookupIsTheBinding(db: Db, users: map<nat, Account>, forumId: string, external: string)
    requires Guarded(db)
    ensures Lookup(db, users, forumId) == Bound(external)
            <==> Canonical(forumId) && Val(forumId) in users && users[Val(forumId)] == Account(1, 1)
                 && BoundTo(db, Val(forumId), external)
  {
    if Canonical(forumId) {
      var user := Val(forumId);
      OneRowPerUser(db, user);
      BrokenExitsAreUnreachable(db, users, forumId);
      forall i | i in db.rows && db.rows[i].provider.Meta? && db.rows[i].user == user
        ensures BoundRows(db.rows, user) == {i}
      {
        assert i in BoundRows(db.rows, user);
      }
    }
  }

  /** No two accounts resolve to the same external identity. */
  lemma NoSharedIdentity(db: Db, users: map<nat, Account>, a: string, b: string, external: string)
    requires Guarded(db) && Lookup(db, users, a) == Bound(external) && Lookup(db, users, b) == Bound(external)
    ensures a == b
  {
    LookupIsTheBinding(db, users, a, external);
    LookupIsTheBinding(db, users, b, external);
    assert Val(a) == Val(b);
  }

  /** An identity once resolved is resolved the same way after any admitted statements, as
      long as the account stays active. */
  lemma IdentityIsImmutable(db: Db, sts: seq<Statement>,
                            users: map<nat, Account>, users': map<nat, Account>, forumId: string)
    requires Guarded(db) && AdmitsAll(db, sts)
    requires Lookup(db, users, forumId).Bound?
    requires Val(forumId) in users' && users'[Val(forumId)] == Account(1, 1)
    ensures Lookup(ApplyAll(db, sts), users', forumId) == Lookup(db, users, forumId)
  {
    var external := Lookup(db, users, forumId).external;
    LookupIsTheBinding(db, users, forumId, external);
    BindingsOnlyGrow(db, sts);
    var user := Val(forumId);
    var db' := ApplyAll(db, sts);
    var i :| i in db.rows && db.rows[i].provider.Meta? && db.rows[i].user == user && db.rows[i].external == external;
    assert (external, user as int, db.rows[i].createdAt) in Bindings(db.rows);
    LookupIsTheBinding(db', users', forumId, external);
  }
}
