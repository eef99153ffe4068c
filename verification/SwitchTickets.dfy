/** One-time account-switch tickets. Each transaction of the source locks the rows it reads
    and is one atomic step here; accounts, roles and aliases may be edited between any two.
    SHA-256 is modelled as a constructor: equal digests come from equal texts. */
module SwitchTickets {
  import opened Basics
  import opened CommunityId

  type Id = string

  datatype Digest = Sha256(text: string)

  datatype Account = Account(username: string, status: int, mailStatus: int)

  datatype Ticket = Ticket(session: Digest, actor: Id, target: Id, createdAt: int, expiresAt: int,
                           consumedAt: Option<int>, returnedAt: Option<int>)

  /** A row of the external-login table under the switch provider. */
  datatype Alias = Alias(user: Id, external: string)

  datatype Tables = Tables(users: map<Id, Account>, roles: map<Id, seq<int>>,
                           tickets: map<Digest, Ticket>, aliases: map<nat, Alias>)

  const LIFETIME: int := 60
  const QUOTA: nat := 10
  const ADMIN: int := 2

  // ---- the transactions ----------------------------------------------------------------------

  function RoleRows(t: Tables, id: Id): seq<int> { if id in t.roles then t.roles[id] else [] }

  predicate Active(t: Tables, id: Id) {
    id in t.users && t.users[id].status == 1 && t.users[id].mailStatus == 1
  }

  /** Active, and an administrator by exactly one role row. */
  predicate SoleAdmin(t: Tables, id: Id) { Active(t, id) && RoleRows(t, id) == [ADMIN] }

  /** Active, and an ordinary user or moderator by at most one role row. */
  predicate OrdinaryUser(t: Tables, id: Id) {
    Active(t, id) && (RoleRows(t, id) == [] || RoleRows(t, id) == [1] || RoleRows(t, id) == [3])
  }

  function Named(t: Tables, username: string): set<Id> {
    set id | id in t.users && t.users[id].username == username
  }

  function Recent(t: Tables, actor: Id, since: int): set<Digest> {
    set h | h in t.tickets && t.tickets[h].actor == actor && t.tickets[h].createdAt > since
  }

  predicate ProperRequest(actor: Id, username: string, session: string) {
    Canonical(actor) && session != "" && 0 < |username| <= 100
  }

  /** The conditions under which a ticket is issued for `target`. */
  predicate MayIssue(t: Tables, actor: Id, username: string, session: string, target: Id, ticket: string, now: int) {
    && ProperRequest(actor, username, session)
    && SoleAdmin(t, actor)
    && Named(t, username) == {target} && target != actor && OrdinaryUser(t, target)
    && |Recent(t, actor, now - LIFETIME)| < QUOTA
    && Sha256(ticket) !in t.tickets
  }

  function Issued(t: Tables, actor: Id, session: string, target: Id, ticket: string, now: int): Tables {
    t.(tickets := t.tickets[Sha256(ticket) :=
         Ticket(Sha256(session), actor, target, now, now + LIFETIME, None, None)])
  }

  predicate IsProof(s: string) {
    |s| == 64 && forall c | c in s :: ('a' <= c <= 'f') || ('0' <= c <= '9')
  }

  function ExternalOf(target: Id): string { "admin-switch:" + target }

  function Touching(t: Tables, target: Id): set<nat> {
    set i | i in t.aliases && (t.aliases[i].user == target || t.aliases[i].external == ExternalOf(target))
  }

  predicate MayConsume(t: Tables, ticket: string, session: string, now: int) {
    && IsProof(ticket) && session != ""
    && Sha256(ticket) in t.tickets
    && var k := t.tickets[Sha256(ticket)];
       && k.consumedAt.None? && now < k.expiresAt && k.session == Sha256(session)
       && SoleAdmin(t, k.actor) && k.actor != k.target && OrdinaryUser(t, k.target)
       && (forall i | i in Touching(t, k.target) :: t.aliases[i] == Alias(k.target, ExternalOf(k.target)))
       && |Touching(t, k.target)| <= 1
  }

  function Consumed(t: Tables, ticket: string, now: int, row: nat): Tables
    requires Sha256(ticket) in t.tickets
  {
    var k := t.tickets[Sha256(ticket)];
    t.(tickets := t.tickets[Sha256(ticket) := k.(consumedAt := Some(now))],
       aliases := if Touching(t, k.target) == {} then t.aliases[row := Alias(k.target, ExternalOf(k.target))]
                  else t.aliases)
  }

  predicate MayReturn(t: Tables, actor: Id, ticket: string, session: string) {
    Sha256(ticket) in t.tickets && t.tickets[Sha256(ticket)].actor == actor
    && t.tickets[Sha256(ticket)].session == Sha256(session)
  }

  function Returned(t: Tables, ticket: string, now: int): Tables
    requires Sha256(ticket) in t.tickets
  {
    var k := t.tickets[Sha256(ticket)];
    t.(tickets := t.tickets[Sha256(ticket) := if k.returnedAt.Some? then k else k.(returnedAt := Some(now))])
  }

  class AdminSwitch {
    var users: map<Id, Account>
    var roles: map<Id, seq<int>>
    var tickets: map<Digest, Ticket>
    var aliases: map<nat, Alias>

    function Contents(): Tables
      reads this
    {
      Tables(users, roles, tickets, aliases)
    }

    constructor (t: Tables)
      ensures Contents() == t
    {
      users, roles, tickets, aliases := t.users, t.roles, t.tickets, t.aliases;
    }

    /** `switchAccount`: scans the role rows; a missing or ambiguous role fails closed. */
    method SwitchAccount(id: Id, admin: bool) returns (ok: bool)
      ensures ok == if admin then SoleAdmin(Contents(), id) else OrdinaryUser(Contents(), id)
    {
      if id !in users { return false; }
      if users[id].status != 1 || users[id].mailStatus != 1 { return false; }
      var rows := if id in roles then roles[id] else [];
      var role, count := 1, 0;
      while count < |rows|
        invariant 0 <= count <= |rows|
        invariant role == if count == 0 then 1 else rows[count - 1]
      {
        role := rows[count];
        count := count + 1;
      }
      if count > 1 || (admin && (count != 1 || role != ADMIN)) || (!admin && role != 1 && role != 3) {
        return false;
      }
      ok := true;
    }

    method IssueSwitch(actor: Id, username: string, session: string, ticket: string, now: int) returns (r: Option<Id>)
      modifies this
      ensures forall target ::
                r == Some(target) <==> MayIssue(old(Contents()), actor, username, session, target, ticket, now)
      ensures r.Some? ==> Contents() == Issued(old(Contents()), actor, session, r.value, ticket, now)
      ensures r.None? ==> Contents() == old(Contents())
    {
      if !Canonical(actor) || session == "" || |username| == 0 || |username| > 100 { return None; }
      var ok := SwitchAccount(actor, true);
      if !ok { return None; }
      var named := Named(Contents(), username);
      if |named| != 1 {
        forall target ensures named != {target} {}
        return None;
      }
      var target :| target in named;
      Singleton(named, target);
      if target == actor { return None; }
      ok := SwitchAccount(target, false);
      if !ok { return None; }
      var recent := |Recent(Contents(), actor, now - LIFETIME)|;
      if recent >= QUOTA { return None; }
      if Sha256(ticket) in tickets { return None; }
      tickets := tickets[Sha256(ticket) := Ticket(Sha256(session), actor, target, now, now + LIFETIME, None, None)];
      r := Some(target);
    }

    /** `consumeSwitch`: the alias to sign in with, or a denial that changes nothing. */
    method ConsumeSwitch(ticket: string, session: string, now: int, row: nat) returns (r: Option<string>)
      requires row !in aliases
      modifies this
      ensures r.Some? <==> MayConsume(old(Contents()), ticket, session, now)
      ensures r.Some? ==> r.value == ExternalOf(old(tickets)[Sha256(ticket)].target)
                          && Contents() == Consumed(old(Contents()), ticket, now, row)
      ensures r.None? ==> Contents() == old(Contents())
    {
      if !IsProof(ticket) || session == "" { return None; }
      if Sha256(ticket) !in tickets { return None; }
      var k := tickets[Sha256(ticket)];
      if k.consumedAt.Some? || k.expiresAt <= now || k.session != Sha256(session) { return None; }
      var ok := SwitchAccount(k.actor, true);
      if !ok || k.actor == k.target { return None; }
      ok := SwitchAccount(k.target, false);
      if !ok { return None; }
      var external := ExternalOf(k.target);
      ghost var touching := Touching(Contents(), k.target);
      var rows := Touching(Contents(), k.target);
      var count := 0;
      while rows != {}
        invariant Contents() == old(Contents()) && rows <= touching
        invariant count + |rows| == |touching|
        invariant forall i | i in touching - rows :: aliases[i] == Alias(k.target, external)
        decreases |rows|
      {
        var i :| i in rows;
        rows := rows - {i};
        count := count + 1;
        if aliases[i] != Alias(k.target, external) { return None; }
      }
      if count > 1 { return None; }
      if count == 0 {
        assert touching == {};
        aliases := aliases[row := Alias(k.target, external)];
      }
      tickets := tickets[Sha256(ticket) := k.(consumedAt := Some(now))];
      r := Some(external);
    }

    /** The return mark: recorded once, by the issuing actor in the issuing session. */
    method ReturnSwitch(actor: Id, ticket: string, session: string, now: int) returns (ok: bool)
      modifies this
      ensures ok == MayReturn(old(Contents()), actor, ticket, session)
      ensures Contents() == if ok then Returned(old(Contents()), ticket, now) else old(Contents())
    {
      ok := Sha256(ticket) in tickets && tickets[Sha256(ticket)].actor == actor
            && tickets[Sha256(ticket)].session == Sha256(session);
      if ok {
        var k := tickets[Sha256(ticket)];
        tickets := tickets[Sha256(ticket) := if k.returnedAt.Some? then k else k.(returnedAt := Some(now))];
      }
    }
  }

  lemma Singleton<T>(s: set<T>, x: T)
    requires |s| == 1 && x in s
    ensures s == {x}
  {
    assert |s - {x}| == 0;
    assert s == s - {x} + {x};
  }

  // ---- runs ------------------------------------------------------------------------------------

  datatype Event =
    | Issue(actor: Id, username: string, session: string, target: Id, ticket: string, now: int)
    | Consume(ticket: string, session: string, now: int, row: nat)
    | Return(actor: Id, ticket: string, session: string, now: int)
    | SetAccount(id: Id, account: Account)
    | SetRoles(id: Id, rows: seq<int>)
    | Unlink(row: nat)

  predicate Succeeds(t: Tables, e: Event) {
    match e
    case Issue(actor, username, session, target, ticket, now) =>
      MayIssue(t, actor, username, session, target, ticket, now)
    case Consume(ticket, session, now, row) => MayConsume(t, ticket, session, now) && row !in t.aliases
    case Return(actor, ticket, session, _) => MayReturn(t, actor, ticket, session)
    case _ => true
  }

  /** A denied request changes nothing. */
  function Step(t: Tables, e: Event): Tables {
    if !Succeeds(t, e) then t
    else
      match e
      case Issue(actor, _, session, target, ticket, now) => Issued(t, actor, session, target, ticket, now)
      case Consume(ticket, _, now, row) => Consumed(t, ticket, now, row)
      case Return(_, ticket, _, now) => Returned(t, ticket, now)
      case SetAccount(id, account) => t.(users := t.users[id := account])
      case SetRoles(id, rows) => t.(roles := t.roles[id := rows])
      case Unlink(row) => t.(aliases := t.aliases - {row})
  }

  function StateAt(t: Tables, es: seq<Event>, i: nat): Tables
    requires i <= |es|
  {
    if i == 0 then t else Step(StateAt(t, es, i - 1), es[i - 1])
  }

  /** No tickets yet, and the alias table as the plugin itself leaves it. */
  predicate Start(t: Tables) { t.tickets == map[] && AliasesOneToOne(t) }

  // ---- the quota ---------------------------------------------------------------------------------

  /** Tickets of `actor` created in the minute that ends at `time`. */
  function Window(t: Tables, actor: Id, time: int): set<Digest> {
    set h | h in t.tickets && t.tickets[h].actor == actor && time - LIFETIME < t.tickets[h].createdAt <= time
  }

  ghost predicate WithinQuota(t: Tables) {
    forall actor, time :: |Window(t, actor, time)| <= QUOTA
  }

  /** A step adds at most the ticket it issues to a window. */
  lemma WindowAfter(t: Tables, e: Event, actor: Id, time: int)
    ensures Window(Step(t, e), actor, time) ==
            if e.Issue? && Succeeds(t, e) && e.actor == actor && time - LIFETIME < e.now <= time
            then Window(t, actor, time) + {Sha256(e.ticket)}
            else Window(t, actor, time)
  {
    if e.Issue? && Succeeds(t, e) {
      assert Step(t, e).tickets.Keys == t.tickets.Keys + {Sha256(e.ticket)};
    } else {
      SameTickets(t, e);
    }
  }

  lemma SameTickets(t: Tables, e: Event)
    requires !(e.Issue? && Succeeds(t, e))
    ensures Step(t, e).tickets.Keys == t.tickets.Keys
    ensures forall h | h in t.tickets ::
              Step(t, e).tickets[h].actor == t.tickets[h].actor
              && Step(t, e).tickets[h].createdAt == t.tickets[h].createdAt
  {
  }

  lemma QuotaStep(t: Tables, e: Event)
    requires WithinQuota(t)
    ensures WithinQuota(Step(t, e))
  {
    forall actor, time ensures |Window(Step(t, e), actor, time)| <= QUOTA {
      WindowAfter(t, e, actor, time);
      if e.Issue? && Succeeds(t, e) && e.actor == actor {
        if time - LIFETIME < e.now <= time { SubsetSize(Window(t, actor, time), Recent(t, actor, e.now - LIFETIME)); }
      }
    }
  }

  /** At most ten tickets per actor in any minute, whatever order the clock readings of the
      serialized transactions arrive in. */
  lemma {:induction false} QuotaHolds(t: Tables, es: seq<Event>, i: nat)
    requires Start(t) && i <= |es|
    ensures WithinQuota(StateAt(t, es, i))
    decreases i
  {
    if i == 0 {
      forall actor, time ensures Window(t, actor, time) == {} {}
    } else {
      QuotaHolds(t, es, i - 1);
      QuotaStep(StateAt(t, es, i - 1), es[i - 1]);
    }
  }

  // ---- the life of a ticket -----------------------------------------------------------------------

  /** Event `j` issued this ticket as it stands in the table. */
  ghost predicate IssuedAt(t: Tables, es: seq<Event>, j: nat, h: Digest, k: Ticket)
    requires j < |es|
  {
    && es[j].Issue? && Succeeds(StateAt(t, es, j), es[j])
    && h == Sha256(es[j].ticket) && k.session == Sha256(es[j].session)
    && k.actor == es[j].actor && k.target == es[j].target
    && k.createdAt == es[j].now && k.expiresAt == es[j].now + LIFETIME
  }

  lemma {:induction false} Origin(t: Tables, es: seq<Event>, i: nat, h: Digest)
    requires Start(t) && i <= |es| && h in StateAt(t, es, i).tickets
    ensures exists j :: 0 <= j < i && IssuedAt(t, es, j, h, StateAt(t, es, i).tickets[h])
    decreases i
  {
    var s := StateAt(t, es, i - 1);
    var e := es[i - 1];
    if h in s.tickets {
      Origin(t, es, i - 1, h);
      var j :| 0 <= j < i - 1 && IssuedAt(t, es, j, h, s.tickets[h]);
      TicketKept(s, e, h);
      assert IssuedAt(t, es, j, h, StateAt(t, es, i).tickets[h]);
    } else {
      assert IssuedAt(t, es, i - 1, h, StateAt(t, es, i).tickets[h]);
    }
  }

  /** Only the two marks of a ticket ever change; once consumed it stays so. */
  lemma TicketKept(t: Tables, e: Event, h: Digest)
    requires h in t.tickets
    ensures var t' := Step(t, e);
            && h in t'.tickets
            && t'.tickets[h] == t.tickets[h].(consumedAt := t'.tickets[h].consumedAt,
                                                returnedAt := t'.tickets[h].returnedAt)
            && (t.tickets[h].consumedAt.Some? ==> t'.tickets[h].consumedAt == t.tickets[h].consumedAt)
  {
  }

  ghost predicate ConsumedBy(t: Tables, es: seq<Event>, i: nat, ticket: string)
    requires i < |es|
  {
    es[i].Consume? && es[i].ticket == ticket && Succeeds(StateAt(t, es, i), es[i])
  }

  ghost predicate AuthorizedBy(t: Tables, es: seq<Event>, j: nat, i: nat)
    requires j < |es| && i < |es| && es[i].Consume?
  {
    && es[j].Issue? && Succeeds(StateAt(t, es, j), es[j])
    && es[j].ticket == es[i].ticket && es[j].session == es[i].session && es[i].now < es[j].now + LIFETIME
    && es[j].actor != es[j].target
    && SoleAdmin(StateAt(t, es, j), es[j].actor) && OrdinaryUser(StateAt(t, es, j), es[j].target)
    && SoleAdmin(StateAt(t, es, i), es[j].actor) && OrdinaryUser(StateAt(t, es, i), es[j].target)
  }

  /** Every consumption goes back to one issue, by the same session, less than 60 seconds
      old, with the actor a sole-role active administrator and the target another active
      ordinary user both then and now. */
  lemma ConsumptionIsAuthorized(t: Tables, es: seq<Event>, i: nat)
    requires Start(t) && i < |es| && es[i].Consume? && Succeeds(StateAt(t, es, i), es[i])
    ensures exists j :: 0 <= j < i && AuthorizedBy(t, es, j, i)
  {
    var h := Sha256(es[i].ticket);
    Origin(t, es, i, h);
    var j :| 0 <= j < i && IssuedAt(t, es, j, h, StateAt(t, es, i).tickets[h]);
    assert AuthorizedBy(t, es, j, i);
  }

  lemma {:induction false} StaysConsumed(t: Tables, es: seq<Event>, i: nat, k: nat, h: Digest)
    requires i <= k <= |es| && h in StateAt(t, es, i).tickets && StateAt(t, es, i).tickets[h].consumedAt.Some?
    ensures h in StateAt(t, es, k).tickets && StateAt(t, es, k).tickets[h].consumedAt.Some?
    decreases k
  {
    if i < k {
      StaysConsumed(t, es, i, k - 1, h);
      TicketKept(StateAt(t, es, k - 1), es[k - 1], h);
    }
  }

  /** A ticket is consumed at most once in any run. */
  lemma ConsumedAtMostOnce(t: Tables, es: seq<Event>, i: nat, k: nat, ticket: string)
    requires i < |es| && k < |es| && ConsumedBy(t, es, i, ticket) && ConsumedBy(t, es, k, ticket)
    ensures i == k
  {
    if i < k { StaysConsumed(t, es, i + 1, k, Sha256(ticket)); }
    if k < i { StaysConsumed(t, es, k + 1, i, Sha256(ticket)); }
  }

  /** The return mark is no revocation: it never changes what a ticket still allows. */
  lemma ReturnDoesNotRevoke(t: Tables, e: Event, ticket: string, session: string, now: int)
    requires e.Return?
    ensures MayConsume(Step(t, e), ticket, session, now) <==> MayConsume(t, ticket, session, now)
  {
    var t' := Step(t, e);
    if Sha256(ticket) in t.tickets {
      var k := t.tickets[Sha256(ticket)];
      assert Touching(t', k.target) == Touching(t, k.target);
    }
  }

  // ---- aliases --------------------------------------------------------------------------------------

  /** Every alias row is its user's own alias, and no user has two. */
  predicate AliasesOneToOne(t: Tables) {
    && (forall i | i in t.aliases :: t.aliases[i].external == ExternalOf(t.aliases[i].user))
    && (forall i, j | i in t.aliases && j in t.aliases && i != j :: t.aliases[i].user != t.aliases[j].user)
  }

  lemma ExternalInjective(a: Id, b: Id)
    requires ExternalOf(a) == ExternalOf(b)
    ensures a == b
  {
    assert a == ExternalOf(a)[|"admin-switch:"|..];
    assert b == ExternalOf(b)[|"admin-switch:"|..];
  }

  lemma AliasStep(t: Tables, e: Event)
    requires AliasesOneToOne(t)
    ensures AliasesOneToOne(Step(t, e))
    ensures e.Consume? && Succeeds(t, e) ==>
              |Touching(Step(t, e), t.tickets[Sha256(e.ticket)].target)| == 1
  {
    var t' := Step(t, e);
    if e.Consume? && Succeeds(t, e) {
      var target := t.tickets[Sha256(e.ticket)].target;
      if Touching(t, target) == {} {
        forall i | i in t.aliases ensures t.aliases[i].user != target { assert i !in Touching(t, target); }
        assert Touching(t', target) == {e.row};
      } else {
        assert Touching(t', target) == Touching(t, target);
      }
    }
  }

  /** In every run one alias never names two users and no user has two alias rows. */
  lemma {:induction false} OneAliasPerUser(t: Tables, es: seq<Event>, k: nat, i: nat, j: nat)
    requires Start(t) && k <= |es| && i in StateAt(t, es, k).aliases && j in StateAt(t, es, k).aliases
    ensures AliasesOneToOne(StateAt(t, es, k))
    ensures var a := StateAt(t, es, k).aliases;
            (a[i].external == a[j].external || a[i].user == a[j].user) ==> i == j
  {
    AliasesHold(t, es, k);
    var a := StateAt(t, es, k).aliases;
    if a[i].external == a[j].external { ExternalInjective(a[i].user, a[j].user); }
  }

  lemma {:induction false} AliasesHold(t: Tables, es: seq<Event>, k: nat)
    requires Start(t) && k <= |es|
    ensures AliasesOneToOne(StateAt(t, es, k))
    decreases k
  {
    if k > 0 {
      AliasesHold(t, es, k - 1);
      AliasStep(StateAt(t, es, k - 1), es[k - 1]);
    }
  }

  /** A consumption leaves exactly one alias row for its target. */
  lemma ConsumptionLeavesOneAlias(t: Tables, es: seq<Event>, i: nat)
    requires Start(t) && i < |es| && es[i].Consume? && Succeeds(StateAt(t, es, i), es[i])
    ensures |Touching(StateAt(t, es, i + 1), StateAt(t, es, i).tickets[Sha256(es[i].ticket)].target)| == 1
  {
    AliasesHold(t, es, i);
    AliasStep(StateAt(t, es, i), es[i]);
  }
}
