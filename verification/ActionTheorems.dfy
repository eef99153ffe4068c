/** What `Execute` guarantees over any interleaving of calls, earned tickets and settlements. */
module ActionTheorems {
  import opened Basics
  import opened ActionService

  datatype Event =
    | Call(command: Command, conditions: Conditions)
    | Earn(source: nat)
    | Settle(row: nat, status: string)

  function Step(t: Tables, e: Event): Tables {
    match e
    case Call(c, k) => Executed(t, c, k).0
    case Earn(source) => t.(entries := t.entries + [Earned(source)])
    case Settle(i, status) =>
      if i < |t.grants| then t.(grants := t.grants[i := t.grants[i].(status := status)]) else t
  }

  function After(t: Tables, es: seq<Event>): Tables
    decreases |es|
  {
    if es == [] then t else After(Step(t, es[0]), es[1..])
  }

  // ---- the invariant ----------------------------------------------------------------------

  /** The identifiers of the grants of an action, oldest first. */
  function GrantIds(grants: seq<Grant>, action: Id): seq<string> {
    if grants == [] then []
    else
      var g := grants[|grants| - 1];
      GrantIds(grants[..|grants| - 1], action) + if g.action == action then [g.id] else []
  }

  function Spends(entries: seq<Entry>, action: Id): nat {
    if entries == [] then 0
    else
      var e := entries[|entries| - 1];
      Spends(entries[..|entries| - 1], action) + if e.Spent? && e.action == action then 1 else 0
  }

  function PayloadAction(p: Payload): Id { match p case Plain(a) => a case Selected(a, _, _) => a }

  /** The same decision: one refusal, or one grant of one action. */
  predicate Agree(a: Response, b: Response) {
    match (a, b)
    case (Refusal(x), Refusal(y)) => x == y
    case (Granted(x), Granted(y)) => x.grant == y.grant && x.action == y.action
    case _ => false
  }

  ghost predicate IdentityOk(t: Tables, action: Id)
    requires action in t.identities
  {
    var rec := t.identities[action];
    && PayloadAction(rec.payload) == action && rec.response.Some?
    && match rec.response.value
       case Granted(r) => r.action == action && GrantIds(t.grants, action) == [r.grant]
       case Refusal(_) => GrantIds(t.grants, action) == []
  }

  ghost predicate RequestOk(t: Tables, key: string)
    requires key in t.requests
  {
    var rec := t.requests[key];
    && PayloadAction(rec.payload) in t.identities && rec.response.Some?
    && var identity := t.identities[PayloadAction(rec.payload)];
       && identity.payload == rec.payload && identity.response.Some?
       && Agree(identity.response.value, rec.response.value)
  }

  ghost predicate RowsOk(t: Tables) {
    && (forall a | a in t.identities :: IdentityOk(t, a))
    && (forall key | key in t.requests :: RequestOk(t, key))
  }

  ghost predicate BooksOk(t: Tables) {
    && (forall e | e in t.entries && e.Spent? :: Taken(t.grants, e.key))
    && (forall source :: Balance(t.entries, source) >= 0)
  }

  ghost predicate Inv(t: Tables) { RowsOk(t) && BooksOk(t) }

  /** Before the first call: no rows of these tables, whatever requests and grants there are. */
  predicate Start(t: Tables) { t.identities == map[] && t.requests == map[] }

  lemma StartInv(t: Tables)
    requires Start(t) && BooksOk(t)
    ensures Inv(t)
  {
  }

  // ---- rows of grants -----------------------------------------------------------------------

  lemma {:induction false} IdsOfGrants(grants: seq<Grant>, action: Id)
    ensures |GrantIds(grants, action)| == |GrantsOf(grants, action)|
    ensures forall i | 0 <= i < |GrantIds(grants, action)| ::
              GrantIds(grants, action)[i] == GrantsOf(grants, action)[i].id
              && GrantsOf(grants, action)[i].action == action
  {
    if grants != [] { IdsOfGrants(grants[..|grants| - 1], action); }
  }

  lemma OneMoreGrant(grants: seq<Grant>, g: Grant, action: Id)
    ensures GrantIds(grants + [g], action) == GrantIds(grants, action) + if g.action == action then [g.id] else []
  {
    assert (grants + [g])[..|grants|] == grants;
  }

  lemma OneMoreEntry(entries: seq<Entry>, e: Entry)
    ensures forall action :: Spends(entries + [e], action)
              == Spends(entries, action) + if e.Spent? && e.action == action then 1 else 0
    ensures forall source :: Balance(entries + [e], source)
              == Balance(entries, source) + if e.source != source then 0 else if e.Earned? then 1 else -1
  {
    assert (entries + [e])[..|entries|] == entries;
  }

  /** A settlement changes no identifier and no action. */
  lemma {:induction false} SettledIds(grants: seq<Grant>, i: nat, status: string, action: Id)
    requires i < |grants|
    ensures GrantIds(grants[i := grants[i].(status := status)], action) == GrantIds(grants, action)
  {
    var n := |grants| - 1;
    var after := grants[i := grants[i].(status := status)];
    if i == n {
      assert after[..n] == grants[..n];
    } else {
      SettledIds(grants[..n], i, status, action);
      assert after[..n] == grants[..n][i := grants[..n][i].(status := status)];
    }
  }

  lemma TakenSettled(grants: seq<Grant>, i: nat, status: string, id: string)
    requires i < |grants| && Taken(grants, id)
    ensures Taken(grants[i := grants[i].(status := status)], id)
  {
    var after := grants[i := grants[i].(status := status)];
    var j :| 0 <= j < |grants| && grants[j].id == id;
    assert after[j].id == id && after[j] in after;
  }

  // ---- one call -------------------------------------------------------------------------------

  /** What a call may do to the tables of an action: nothing to its grants and spends, or the
      one draw it makes. */
  datatype Effect = Nothing | OneDraw

  ghost predicate SameBooks(t: Tables, t': Tables) { t'.grants == t.grants && t'.entries == t.entries }

  /** A decision for `c` is written: its rows agree with `r`, all other rows are as they were,
      and an identity that had a response keeps it. */
  ghost predicate Written(t: Tables, t': Tables, c: Command, r: Response) {
    && c.action in t'.identities && c.key in t'.requests
    && t'.identities == t.identities[c.action := t'.identities[c.action]]
    && t'.requests == t.requests[c.key := t'.requests[c.key]]
    && t'.requests[c.key] == Record(PayloadOf(c), Some(r))
    && t'.identities[c.action].payload == PayloadOf(c)
    && t'.identities[c.action].response.Some? && Agree(t'.identities[c.action].response.value, r)
    && (c.action in t.identities ==> t'.identities[c.action] == t.identities[c.action])
    && (c.key in t.requests ==> t'.requests[c.key] == t.requests[c.key])
  }

  /** How a decision came about. */
  ghost predicate Recalled(t: Tables, t': Tables, c: Command, r: Response) { SameBooks(t, t') && OnRecord(t, c, r) }

  ghost predicate NewDraw(t: Tables, t': Tables, c: Command, k: Conditions, r: Response) {
    && c.action !in t.identities && GrantIds(t.grants, c.action) == [] && c.protocol == 3 && c.selection != ""
    && r == Granted(Result(k.grant, c.action, k.detail, "pending"))
    && k.grant != "" && !Taken(t.grants, k.grant) && Balance(t.entries, k.source) >= 1
    && t'.grants == t.grants + [Grant(k.grant, c.action, k.detail, "pending")]
    && t'.entries == t.entries + [Spent(k.source, c.action, k.grant)]
  }

  lemma CallFails(t: Tables, c: Command, k: Conditions)
    requires Executed(t, c, k).1.Failed?
    ensures Executed(t, c, k).0 == t
  {
  }

  /** Every call fails without a trace, answers what is on record, or makes one draw. */
  lemma CallDecides(t: Tables, c: Command, k: Conditions)
    requires Inv(t) && Executed(t, c, k).1.Decided?
    ensures var (t', o) := Executed(t, c, k);
            && Written(t, t', c, o.response) && t'.legacy == t.legacy
            && (Recalled(t, t', c, o.response) || NewDraw(t, t', c, k, o.response))
  {
    RowsAnswered(t, c);
    if c.key in t.requests {
      Replayed(t, c, k);
    } else {
      var identity := if c.action in t.identities then t.identities[c.action].response else None;
      RecallFacts(t, c, identity);
      SameRecall(t, c, identity);
      match Recall(t, c, identity)
      case Known(r) => KnownDecision(t, c, k, r);
      case Found(r) => SavedDecision(t, c, r);
      case Unknown => FreshDecision(t, c, k);
      case Conflict =>
    }
  }

  /** Every row has its answer. */
  lemma RowsAnswered(t: Tables, c: Command)
    requires RowsOk(t)
    ensures c.action in t.identities ==> t.identities[c.action].response.Some?
    ensures c.key in t.requests ==> t.requests[c.key].response.Some?
  {
    assert c.action in t.identities ==> IdentityOk(t, c.action);
    assert c.key in t.requests ==> RequestOk(t, c.key);
  }

  lemma Replayed(t: Tables, c: Command, k: Conditions)
    requires Inv(t) && Executed(t, c, k).1.Decided? && c.key in t.requests
    ensures var (t', o) := Executed(t, c, k);
            t' == t && Written(t, t', c, o.response) && Recalled(t, t', c, o.response)
  {
    assert RequestOk(t, c.key) && IdentityOk(t, c.action);
  }

  lemma SameRecall(t: Tables, c: Command, identity: Option<Response>)
    ensures Recall(Opened(t, c), c, identity) == Recall(t, c, identity)
  {
  }

  /** What is recalled is the one grant of the action, or its refusal. */
  lemma RecallFacts(t: Tables, c: Command, identity: Option<Response>)
    requires RowsOk(t)
    requires identity == if c.action in t.identities then t.identities[c.action].response else None
    ensures match Recall(t, c, identity)
            case Known(r) => c.action in t.identities && identity.Some? && Agree(identity.value, r) && OnRecord(t, c, r)
            case Found(r) => c.action !in t.identities && OnRecord(t, c, r)
            case Unknown => c.action !in t.identities && GrantIds(t.grants, c.action) == []
            case Conflict => true
  {
    IdsOfGrants(t.grants, c.action);
    assert c.action in t.identities ==> IdentityOk(t, c.action);
  }

  ghost predicate OnRecord(t: Tables, c: Command, r: Response) {
    match r
    case Granted(x) => x.action == c.action && GrantIds(t.grants, c.action) == [x.grant]
    case Refusal(_) => GrantIds(t.grants, c.action) == []
  }

  lemma KnownDecision(t: Tables, c: Command, k: Conditions, r: Response)
    requires Executed(t, c, k) == (SaveRequest(Opened(t, c), c, r), Decided(r))
    requires c.key !in t.requests && c.action in t.identities && t.identities[c.action].payload == PayloadOf(c)
    requires t.identities[c.action].response.Some? && Agree(t.identities[c.action].response.value, r)
             && OnRecord(t, c, r)
    ensures Written(t, Executed(t, c, k).0, c, r) && Recalled(t, Executed(t, c, k).0, c, r)
  {
  }

  /** Saving both rows over a state with the same books. */
  lemma SavedDecision(t: Tables, c: Command, r: Response)
    requires c.key !in t.requests && c.action !in t.identities
    ensures SaveBoth(Opened(t, c), c, r) == SaveBoth(t, c, r)
    ensures Written(t, SaveBoth(t, c, r), c, r) && SameBooks(t, SaveBoth(t, c, r))
  {
    SaveOpened(t, c, r);
  }

  lemma FreshDecision(t: Tables, c: Command, k: Conditions)
    requires BooksOk(t) && c.key !in t.requests && c.action !in t.identities && GrantIds(t.grants, c.action) == []
    requires Drawn(Opened(t, c), c, k).1.Decided?
    ensures var (t', o) := Drawn(Opened(t, c), c, k);
            && Written(t, t', c, o.response) && t'.legacy == t.legacy
            && (Recalled(t, t', c, o.response) || NewDraw(t, t', c, k, o.response))
  {
    var v := Judge(Opened(t, c), c, k);
    assert v == Judge(t, c, k);
    if v.Refuses? {
      SavedDecision(t, c, Refusal(v.cause));
    } else {
      NotBookedYet(t, k);
      var b := Booked(t, c, k);
      assert Booked(Opened(t, c), c, k) == Opened(b, c);
      SavedDecision(b, c, Granted(Result(k.grant, c.action, k.detail, "pending")));
    }
  }

  /** A free grant identifier has no spend in the ledger. */
  lemma NotBookedYet(t: Tables, k: Conditions)
    requires BooksOk(t) && !Taken(t.grants, k.grant)
    ensures Keyed(t.entries, k.grant) == {}
  {
  }

  // ---- every step keeps the invariant ------------------------------------------------------------

  lemma RowsKept(t: Tables, t': Tables, c: Command, r: Response)
    requires RowsOk(t) && Written(t, t', c, r) && OnRecord(t', c, r)
    requires forall a | a != c.action || a in t.identities :: GrantIds(t'.grants, a) == GrantIds(t.grants, a)
    ensures RowsOk(t')
  {
    forall a | a in t'.identities ensures IdentityOk(t', a) {
      if a in t.identities { assert IdentityOk(t, a); }
    }
    forall key | key in t'.requests ensures RequestOk(t', key) {
      if key in t.requests { assert RequestOk(t, key); }
    }
  }

  lemma NewDrawBooks(t: Tables, t': Tables, c: Command, k: Conditions, r: Response)
    requires BooksOk(t) && NewDraw(t, t', c, k, r)
    ensures BooksOk(t') && OnRecord(t', c, r)
    ensures forall a | a != c.action :: GrantIds(t'.grants, a) == GrantIds(t.grants, a)
    ensures forall a :: Spends(t'.entries, a) == Spends(t.entries, a) + if a == c.action then 1 else 0
  {
    var g := Grant(k.grant, c.action, k.detail, "pending");
    forall a ensures GrantIds(t'.grants, a) == GrantIds(t.grants, a) + if a == c.action then [g.id] else [] {
      OneMoreGrant(t.grants, g, a);
    }
    OneMoreEntry(t.entries, Spent(k.source, c.action, k.grant));
    assert g in t'.grants;
  }

  lemma CallInv(t: Tables, c: Command, k: Conditions)
    requires Inv(t)
    ensures Inv(Executed(t, c, k).0)
  {
    var (t', o) := Executed(t, c, k);
    if o.Failed? {
      CallFails(t, c, k);
    } else {
      CallDecides(t, c, k);
      if NewDraw(t, t', c, k, o.response) { NewDrawBooks(t, t', c, k, o.response); }
      RowsKept(t, t', c, o.response);
    }
  }

  lemma SettleInv(t: Tables, i: nat, status: string)
    requires Inv(t) && i < |t.grants|
    ensures Inv(Step(t, Settle(i, status)))
    ensures forall a :: GrantIds(Step(t, Settle(i, status)).grants, a) == GrantIds(t.grants, a)
  {
    var t' := Step(t, Settle(i, status));
    forall a ensures GrantIds(t'.grants, a) == GrantIds(t.grants, a) { SettledIds(t.grants, i, status, a); }
    forall a | a in t'.identities ensures IdentityOk(t', a) { assert IdentityOk(t, a); }
    forall key | key in t'.requests ensures RequestOk(t', key) { assert RequestOk(t, key); }
    forall e | e in t'.entries && e.Spent? ensures Taken(t'.grants, e.key) {
      TakenSettled(t.grants, i, status, e.key);
    }
  }

  lemma EarnInv(t: Tables, source: nat)
    requires Inv(t)
    ensures Inv(Step(t, Earn(source)))
    ensures forall a :: Spends(Step(t, Earn(source)).entries, a) == Spends(t.entries, a)
  {
    var t' := Step(t, Earn(source));
    OneMoreEntry(t.entries, Earned(source));
    forall a | a in t'.identities ensures IdentityOk(t', a) { assert IdentityOk(t, a); }
    forall key | key in t'.requests ensures RequestOk(t', key) { assert RequestOk(t, key); }
  }

  lemma StepInv(t: Tables, e: Event)
    requires Inv(t)
    ensures Inv(Step(t, e))
  {
    match e
    case Call(c, k) => CallInv(t, c, k);
    case Earn(source) => EarnInv(t, source);
    case Settle(i, status) => if i < |t.grants| { SettleInv(t, i, status); }
  }

  lemma {:induction false} RunInv(t: Tables, es: seq<Event>)
    requires Inv(t)
    ensures Inv(After(t, es))
    decreases |es|
  {
    if es != [] {
      StepInv(t, es[0]);
      RunInv(Step(t, es[0]), es[1..]);
    }
  }

  // ---- decided once ---------------------------------------------------------------------------------

  /** What a run keeps of an earlier moment: every answered row, word for word. */
  ghost predicate RowsStay(t: Tables, t': Tables) {
    && (forall a | a in t.identities :: a in t'.identities && t'.identities[a] == t.identities[a])
    && (forall key | key in t.requests :: key in t'.requests && t'.requests[key] == t.requests[key])
  }

  lemma StepRowsStay(t: Tables, e: Event)
    requires Inv(t)
    ensures RowsStay(t, Step(t, e))
  {
    if e.Call? {
      var (t', o) := Executed(t, e.command, e.conditions);
      if o.Failed? { CallFails(t, e.command, e.conditions); } else { CallDecides(t, e.command, e.conditions); }
    }
  }

  lemma {:induction false} RunRowsStay(t: Tables, es: seq<Event>)
    requires Inv(t)
    ensures RowsStay(t, After(t, es))
    decreases |es|
  {
    if es != [] {
      StepInv(t, es[0]);
      StepRowsStay(t, es[0]);
      RunRowsStay(Step(t, es[0]), es[1..]);
    }
  }

  /** The grants of an action, and with them its spends, either stay or go from none to one. */
  ghost predicate AtMostOneMore(t: Tables, t': Tables, a: Id) {
    var before, after := GrantIds(t.grants, a), GrantIds(t'.grants, a);
    && (after == before || (before == [] && |after| == 1 && a !in t.identities))
    && Spends(t'.entries, a) - Spends(t.entries, a) == |after| - |before|
  }

  lemma StepDraws(t: Tables, e: Event, a: Id)
    requires Inv(t)
    ensures AtMostOneMore(t, Step(t, e), a)
  {
    match e
    case Call(c, k) =>
      var (t', o) := Executed(t, c, k);
      if o.Failed? {
        CallFails(t, c, k);
      } else {
        CallDecides(t, c, k);
        if NewDraw(t, t', c, k, o.response) { NewDrawBooks(t, t', c, k, o.response); }
      }
    case Earn(source) => EarnInv(t, source);
    case Settle(i, status) => if i < |t.grants| { SettleInv(t, i, status); }
  }

  /** One action costs at most one ticket and yields at most one grant, over any interleaving of
      replays, request keys, refusals, earnings and settlements; none of either if it was
      decided or had a grant before. */
  lemma {:induction false} OneDrawPerAction(t: Tables, es: seq<Event>, a: Id)
    requires Inv(t)
    ensures AtMostOneMore(t, After(t, es), a)
    decreases |es|
  {
    if es != [] {
      var t1 := Step(t, es[0]);
      StepInv(t, es[0]);
      StepDraws(t, es[0], a);
      StepRowsStay(t, es[0]);
      OneDrawPerAction(t1, es[1..], a);
    }
  }

  /** Once a call is decided, the same request gets the same answer, word for word, at any later
      time and under any conditions, and changes nothing. */
  lemma ReplayRepeats(t: Tables, c: Command, k: Conditions, es: seq<Event>, k': Conditions)
    requires Inv(t) && Executed(t, c, k).1.Decided?
    ensures var later := After(Executed(t, c, k).0, es);
            Executed(later, c, k') == (later, Executed(t, c, k).1)
  {
    var t1 := Executed(t, c, k).0;
    CallDecides(t, c, k);
    CallInv(t, c, k);
    RunRowsStay(t1, es);
  }

  /** Under another key, or from another moment, a decided action is answered with the same
      refusal or the same grant, or not at all; with other contents, or a key used for
      something else, never. */
  lemma LaterCallsAgree(t: Tables, c: Command, k: Conditions, es: seq<Event>, c': Command, k': Conditions)
    requires Inv(t) && Executed(t, c, k).1.Decided? && (c'.action == c.action || c'.key == c.key)
    ensures var later := Executed(After(Executed(t, c, k).0, es), c', k').1;
            later.Decided? ==> Agree(later.response, Executed(t, c, k).1.response) && PayloadOf(c') == PayloadOf(c)
  {
    var t1 := Executed(t, c, k).0;
    CallDecides(t, c, k);
    CallInv(t, c, k);
    RunRowsStay(t1, es);
    var t2 := After(t1, es);
    RunInv(t1, es);
    if Executed(t2, c', k').1.Decided? {
      CallDecides(t2, c', k');
      SamePayload(c, c');
    }
  }

  lemma SamePayload(c: Command, c': Command)
    ensures PayloadAction(PayloadOf(c)) == c.action && (PayloadOf(c) == PayloadOf(c') ==> c.action == c'.action)
  {
  }

  /** A refused action has cost nothing and never will. */
  lemma RefusedIsFree(t: Tables, c: Command, k: Conditions, es: seq<Event>)
    requires Inv(t) && Executed(t, c, k).1.Decided? && Executed(t, c, k).1.response.Refusal?
    ensures var later := After(Executed(t, c, k).0, es);
            && Spends(later.entries, c.action) == Spends(t.entries, c.action)
            && GrantIds(later.grants, c.action) == []
  {
    var t1 := Executed(t, c, k).0;
    CallDecides(t, c, k);
    CallInv(t, c, k);
    OneDrawPerAction(t1, es, c.action);
  }
}
