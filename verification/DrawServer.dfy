/** The draw protocol with its server: what DrawProtocol assumes of the network's far end is
    what `Execute` does. A joint run moves the tab by client events, the server by calls for
    messages on the wire, and is a legal run of the protocol whose new commits have new grants. */
module DrawServer {
  import opened Basics
  import A = ActionService
  import T = ActionTheorems
  import P = DrawProtocol
  import D = DrawTheorems
  import S = DrawSession

  // ---- the server as the protocol sees it ---------------------------------------------------------

  function DecisionOf(r: A.Response): P.Decision {
    match r case Granted(x) => P.Committed(x.grant) case Refusal(_) => P.Refused
  }

  function View(t: A.Tables): map<P.Id, P.Decision> {
    map a | a in t.identities && t.identities[a].response.Some? :: DecisionOf(t.identities[a].response.value)
  }

  function Total(entries: seq<A.Entry>): int {
    if entries == [] then 0
    else Total(entries[..|entries| - 1]) + if entries[|entries| - 1].Earned? then 1 else -1
  }

  ghost predicate Linked(t: A.Tables, w: P.World) {
    w.decided == View(t) && w.tickets == Total(t.entries)
  }

  function CommandOf(a: P.Action): A.Command { A.Command(a.id, a.id, "pulse", 3, a.selection) }

  function DeliveryOf(a: P.Action, r: A.Response, keep: bool): P.Event {
    match r
    case Granted(x) => P.Deliver(a, true, x.grant, keep)
    case Refusal(_) => P.Deliver(a, false, "", keep)
  }

  // ---- tickets --------------------------------------------------------------------------------------

  function Without(entries: seq<A.Entry>, source: nat): seq<A.Entry> {
    if entries == [] then []
    else
      var e := entries[|entries| - 1];
      Without(entries[..|entries| - 1], source) + if e.source == source then [] else [e]
  }

  lemma {:induction false} SetAside(entries: seq<A.Entry>, source: nat)
    ensures Total(entries) == A.Balance(entries, source) + Total(Without(entries, source))
    ensures |Without(entries, source)| <= |entries|
    ensures entries != [] && entries[|entries| - 1].source == source ==> |Without(entries, source)| < |entries|
    ensures forall other :: A.Balance(Without(entries, source), other)
              == if other == source then 0 else A.Balance(entries, other)
  {
    if entries != [] {
      var n := |entries| - 1;
      var e := entries[n];
      SetAside(entries[..n], source);
      OneMoreTicket(Without(entries[..n], source), e);
      T.OneMoreEntry(Without(entries[..n], source), e);
      assert Without(entries[..n], source) + [] == Without(entries[..n], source);
    }
  }

  lemma OneMoreTicket(entries: seq<A.Entry>, e: A.Entry)
    ensures Total(entries + [e]) == Total(entries) + if e.Earned? then 1 else -1
  {
    assert (entries + [e])[..|entries|] == entries;
  }

  /** With no account overdrawn, all accounts together hold at least what any one of them does. */
  lemma {:induction false} TotalIsNotNegative(entries: seq<A.Entry>)
    requires forall source :: A.Balance(entries, source) >= 0
    ensures Total(entries) >= 0
    decreases |entries|
  {
    if entries != [] {
      var source := entries[|entries| - 1].source;
      SetAside(entries, source);
      TotalIsNotNegative(Without(entries, source));
    }
  }

  lemma TotalCoversAccount(entries: seq<A.Entry>, source: nat)
    requires forall source :: A.Balance(entries, source) >= 0
    ensures Total(entries) >= A.Balance(entries, source)
  {
    SetAside(entries, source);
    TotalIsNotNegative(Without(entries, source));
  }

  // ---- one call --------------------------------------------------------------------------------------

  /** A request of the present protocol never finds a grant without an identity. */
  lemma NoOldGrant(t: A.Tables, c: A.Command, k: A.Conditions)
    requires T.Inv(t) && c.protocol == 3 && A.Executed(t, c, k).1.Decided? && c.action !in t.identities
    ensures var (t', o) := A.Executed(t, c, k);
            o.response.Granted? ==> T.NewDraw(t, t', c, k, o.response)
  {
    T.CallDecides(t, c, k);
    T.RowsAnswered(t, c);
    AnsweredKeyHasIdentity(t, c);
    T.RecallFacts(t, c, None);
    T.SameRecall(t, c, None);
  }

  lemma AnsweredKeyHasIdentity(t: A.Tables, c: A.Command)
    requires T.RowsOk(t)
    ensures c.key in t.requests && t.requests[c.key].payload == A.PayloadOf(c) ==> c.action in t.identities
  {
    assert c.key in t.requests ==> T.RequestOk(t, c.key);
  }

  lemma ViewOfWritten(t: A.Tables, t': A.Tables, c: A.Command, r: A.Response)
    requires T.RowsOk(t) && T.Written(t, t', c, r)
    ensures View(t') == if c.action in t.identities then View(t) else View(t)[c.action := DecisionOf(r)]
    ensures c.action in View(t') && View(t')[c.action] == DecisionOf(r)
    ensures c.action in View(t) <==> c.action in t.identities
  {
    assert c.action in t.identities ==> T.IdentityOk(t, c.action);
    SameDecision(t'.identities[c.action].response.value, r);
  }

  lemma SameDecision(a: A.Response, b: A.Response)
    requires T.Agree(a, b)
    ensures DecisionOf(a) == DecisionOf(b)
  {
  }

  /** The grants the protocol has seen are rows of the grant table. */
  lemma GrantsAreTaken(t: A.Tables, w: P.World, id: string)
    requires T.RowsOk(t) && w.decided == View(t) && id in D.Grants(w)
    ensures A.Taken(t.grants, id)
  {
    var a :| a in P.CommittedIds(w) && w.decided[a].grant == id;
    assert T.IdentityOk(t, a);
    T.IdsOfGrants(t.grants, a);
    var g := A.GrantsOf(t.grants, a)[0];
    GrantIsRow(t.grants, a, 0);
  }

  lemma {:induction false} GrantIsRow(grants: seq<A.Grant>, action: A.Id, i: nat)
    requires i < |A.GrantsOf(grants, action)|
    ensures A.GrantsOf(grants, action)[i] in grants
  {
    var n := |grants| - 1;
    if i < |A.GrantsOf(grants[..n], action)| { GrantIsRow(grants[..n], action, i); }
  }

  /** A decided call for a message on the wire is the delivery of that message with that
      decision: a commit takes a ticket that is there and gives a grant never given before; a
      replay changes nothing; and the answer is honest. */
  lemma CallIsDelivery(t: A.Tables, w: P.World, a: P.Action, k: A.Conditions, keep: bool)
    requires T.Inv(t) && Linked(t, w) && a in w.wire
    requires A.Executed(t, CommandOf(a), k).1.Decided?
    ensures var (t', o) := A.Executed(t, CommandOf(a), k);
            var e := DeliveryOf(a, o.response, keep);
            && P.Enabled(w, e) && Linked(t', P.Step(w, e))
            && (e.commit && a.id !in w.decided ==> e.grant !in D.Grants(w))
            && P.Step(w, e).decided[a.id] == DecisionOf(o.response)
  {
    var c := CommandOf(a);
    var (t', o) := A.Executed(t, c, k);
    T.CallDecides(t, c, k);
    ViewOfWritten(t, t', c, o.response);
    if a.id !in t.identities && o.response.Granted? {
      NoOldGrant(t, c, k);
      CommitIsDelivery(t, w, a, k, keep);
    } else {
      assert t'.entries == t.entries;
    }
  }

  lemma CommitIsDelivery(t: A.Tables, w: P.World, a: P.Action, k: A.Conditions, keep: bool)
    requires T.Inv(t) && Linked(t, w) && a in w.wire && a.id !in w.decided
    requires var (t', o) := A.Executed(t, CommandOf(a), k);
             && o.Decided? && T.NewDraw(t, t', CommandOf(a), k, o.response)
             && View(t') == View(t)[a.id := DecisionOf(o.response)]
    ensures var (t', o) := A.Executed(t, CommandOf(a), k);
            var e := DeliveryOf(a, o.response, keep);
            P.Enabled(w, e) && Linked(t', P.Step(w, e)) && e.grant !in D.Grants(w)
  {
    TotalCoversAccount(t.entries, k.source);
    OneMoreTicket(t.entries, A.Spent(k.source, a.id, k.grant));
    if k.grant in D.Grants(w) { GrantsAreTaken(t, w, k.grant); }
  }

  // ---- joint runs --------------------------------------------------------------------------------------

  datatype Event =
    | Client(event: P.Event)
    | Serve(action: P.Action, conditions: A.Conditions, keep: bool)
    | Earn(source: nat)
    | Settle(row: nat, status: string)

  datatype State = State(tables: A.Tables, world: P.World)

  /** The client's own events, losses and crashes; deliveries and tickets come from the server. */
  predicate Enabled(s: State, e: Event) {
    match e
    case Client(c) => !c.Deliver? && !c.Earn? && P.Enabled(s.world, c)
    case Serve(a, _, _) => a in s.world.wire
    case _ => true
  }

  function Step(s: State, e: Event): State
    requires Enabled(s, e)
  {
    match e
    case Client(c) => s.(world := P.Step(s.world, c))
    case Serve(a, k, keep) =>
      var (t, o) := A.Executed(s.tables, CommandOf(a), k);
      if o.Failed? || !P.Enabled(s.world, DeliveryOf(a, o.response, keep)) then s.(tables := t)
      else State(t, P.Step(s.world, DeliveryOf(a, o.response, keep)))
    case Earn(source) => State(T.Step(s.tables, T.Earn(source)), P.Step(s.world, P.Earn))
    case Settle(i, status) => s.(tables := T.Step(s.tables, T.Settle(i, status)))
  }

  predicate Legal(s: State, es: seq<Event>)
    decreases |es|
  {
    es == [] || (Enabled(s, es[0]) && Legal(Step(s, es[0]), es[1..]))
  }

  function After(s: State, es: seq<Event>): State
    requires Legal(s, es)
    decreases |es|
  {
    if es == [] then s else After(Step(s, es[0]), es[1..])
  }

  /** The world was reached by a legal run of the protocol with new grants for new commits. */
  ghost predicate Traced(w: P.World, trace: seq<P.Event>) {
    D.Reached(w, trace) && D.FreshGrants(P.Init(), trace)
  }

  ghost predicate IsProtocolRun(w: P.World) { exists trace :: Traced(w, trace) }

  ghost predicate Inv(s: State) {
    T.Inv(s.tables) && Linked(s.tables, s.world) && IsProtocolRun(s.world)
  }

  lemma {:induction false} FreshExtend(w: P.World, es: seq<P.Event>, e: P.Event)
    requires P.Legal(w, es) && D.FreshGrants(w, es) && P.Enabled(P.After(w, es), e)
    requires e.Deliver? && e.commit && e.action.id !in P.After(w, es).decided ==> e.grant !in D.Grants(P.After(w, es))
    ensures P.Legal(w, es + [e]) && D.FreshGrants(w, es + [e])
    decreases |es|
  {
    if es == [] {
      assert [e][1..] == [];
    } else {
      FreshExtend(P.Step(w, es[0]), es[1..], e);
      assert (es + [e])[1..] == es[1..] + [e];
    }
  }

  lemma TraceOn(w: P.World, e: P.Event)
    requires IsProtocolRun(w) && P.Enabled(w, e)
    requires e.Deliver? && e.commit && e.action.id !in w.decided ==> e.grant !in D.Grants(w)
    ensures IsProtocolRun(P.Step(w, e))
  {
    var trace :| Traced(w, trace);
    FreshExtend(P.Init(), trace, e);
    S.Extend(trace, e);
    assert Traced(P.Step(w, e), trace + [e]);
  }

  lemma SettleKeepsView(t: A.Tables, i: nat, status: string)
    ensures var t' := T.Step(t, T.Settle(i, status)); View(t') == View(t) && t'.entries == t.entries
  {
  }

  lemma ClientKeepsLink(t: A.Tables, w: P.World, c: P.Event)
    requires Linked(t, w) && !c.Deliver? && !c.Earn? && P.Enabled(w, c)
    ensures Linked(t, P.Step(w, c))
  {
  }

  lemma StepInv(s: State, e: Event)
    requires Inv(s) && Enabled(s, e)
    ensures Inv(Step(s, e))
  {
    match e
    case Client(c) =>
      ClientKeepsLink(s.tables, s.world, c);
      TraceOn(s.world, c);
    case Serve(a, k, keep) => ServeInv(s, a, k, keep);
    case Earn(source) =>
      T.EarnInv(s.tables, source);
      OneMoreTicket(s.tables.entries, A.Earned(source));
      assert View(T.Step(s.tables, T.Earn(source))) == View(s.tables);
      TraceOn(s.world, P.Earn);
    case Settle(i, status) =>
      T.StepInv(s.tables, T.Settle(i, status));
      SettleKeepsView(s.tables, i, status);
  }

  lemma ServeInv(s: State, a: P.Action, k: A.Conditions, keep: bool)
    requires Inv(s) && a in s.world.wire
    ensures Inv(Step(s, Serve(a, k, keep)))
  {
    var (t, o) := A.Executed(s.tables, CommandOf(a), k);
    T.CallInv(s.tables, CommandOf(a), k);
    if o.Failed? {
      T.CallFails(s.tables, CommandOf(a), k);
    } else {
      CallIsDelivery(s.tables, s.world, a, k, keep);
      TraceOn(s.world, DeliveryOf(a, o.response, keep));
    }
  }

  lemma {:induction false} RunInv(s: State, es: seq<Event>)
    requires Inv(s) && Legal(s, es)
    ensures Inv(After(s, es))
    decreases |es|
  {
    if es != [] {
      StepInv(s, es[0]);
      RunInv(Step(s, es[0]), es[1..]);
    }
  }

  predicate Start(s: State) {
    T.Start(s.tables) && s.tables.entries == [] && s.world == P.Init()
  }

  lemma StartInv(s: State)
    requires Start(s)
    ensures Inv(s)
  {
    assert Traced(s.world, []);
    assert View(s.tables) == map[];
  }

  /** With the server's own code in place of the assumption about it, every joint run is a run
      of the protocol, so all its theorems hold of it; and tickets spent, actions committed and
      distinct grants are the same number, new commits having new grants. */
  lemma JointRunsAreProtocolRuns(s: State, es: seq<Event>)
    requires Start(s) && Legal(s, es)
    ensures var end := After(s, es);
            && IsProtocolRun(end.world) && Linked(end.tables, end.world)
            && end.world.earned - end.world.tickets == |P.CommittedIds(end.world)| == |D.Grants(end.world)|
  {
    StartInv(s);
    RunInv(s, es);
    var end := After(s, es);
    var trace :| Traced(end.world, trace);
    D.TicketsEqualGrants(end.world, trace);
  }
}
