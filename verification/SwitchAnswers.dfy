/** Which switch requests succeed, and what they change, in terms of the rows themselves. */
module SwitchAnswers {
  import opened Basics
  import opened CommunityId
  import opened SwitchTickets

  /** An active account that is an administrator by its only role row. */
  predicate Administrator(t: Tables, id: Id) {
    && id in t.users && t.users[id].status == 1 && t.users[id].mailStatus == 1
    && id in t.roles && |t.roles[id]| == 1 && t.roles[id][0] == 2
  }

  /** An active account without role rows, or with one that says user or moderator. */
  predicate Ordinary(t: Tables, id: Id) {
    && id in t.users && t.users[id].status == 1 && t.users[id].mailStatus == 1
    && (id in t.roles ==> |t.roles[id]| <= 1 && forall role | role in t.roles[id] :: role == 1 || role == 3)
  }

  /** The one account of this name. */
  ghost predicate OnlyNamed(t: Tables, username: string, id: Id) {
    && id in t.users && t.users[id].username == username
    && forall other | other in t.users && t.users[other].username == username :: other == id
  }

  ghost predicate IsAccountId(s: string) {
    exists n: nat :: 1 <= n <= 18446744073709551615 && FormatUint(n) == s
  }

  /** Tickets of this actor created within the minute before `now`. */
  ghost function LastMinute(t: Tables, actor: Id, now: int): set<Digest> {
    set h | h in t.tickets && t.tickets[h].actor == actor && t.tickets[h].createdAt > now - 60
  }

  lemma RolesDecide(t: Tables, id: Id)
    ensures SoleAdmin(t, id) <==> Administrator(t, id)
    ensures OrdinaryUser(t, id) <==> Ordinary(t, id)
  {
    if id in t.roles {
      var rows := t.roles[id];
      assert |rows| == 0 ==> rows == [];
      if |rows| == 1 {
        assert rows == [rows[0]];
        assert rows[0] in rows;
      }
    }
  }

  lemma CanonicalIsAccountId(s: string)
    ensures Canonical(s) <==> IsAccountId(s)
  {
    if Canonical(s) { assert FormatUint(Val(s)) == s; }
    if IsAccountId(s) {
      var n: nat :| 1 <= n <= 18446744073709551615 && FormatUint(n) == s;
      PrintedIsCanonical(n, s);
    }
  }

  lemma PrintedIsCanonical(n: nat, s: string)
    requires 1 <= n <= 18446744073709551615 && s == FormatUint(n)
    ensures Canonical(s)
  {
    FormatShape(n);
    assert ParseUint(s) == Some(n);
  }

  lemma NamedIsOne(t: Tables, username: string, id: Id)
    ensures Named(t, username) == {id} <==> OnlyNamed(t, username, id)
  {
    if Named(t, username) == {id} { assert id in Named(t, username); }
    forall other | other in t.users && t.users[other].username == username
      ensures other in Named(t, username) {}
    if OnlyNamed(t, username, id) { assert Named(t, username) == {id}; }
  }

  /** A ticket is issued if and only if: the actor is an administrator with a canonical
      identifier and a session; the target is the only account of the name asked for, an
      ordinary one and not the actor; fewer than ten tickets are younger than a minute; and the
      ticket is new. It is good for 60 seconds. */
  lemma IssuedExactly(t: Tables, actor: Id, username: string, session: string, target: Id, ticket: string, now: int)
    ensures var e := Issue(actor, username, session, target, ticket, now);
            var ok :=
              && IsAccountId(actor) && session != "" && 1 <= |username| <= 100 && Administrator(t, actor)
              && OnlyNamed(t, username, target) && target != actor && Ordinary(t, target)
              && |LastMinute(t, actor, now)| < 10 && Sha256(ticket) !in t.tickets;
            && (Succeeds(t, e) <==> ok)
            && Step(t, e) ==
               if ok
               then t.(tickets := t.tickets[Sha256(ticket) :=
                                    Ticket(Sha256(session), actor, target, now, now + 60, None, None)])
               else t
  {
    CanonicalIsAccountId(actor);
    RolesDecide(t, actor);
    RolesDecide(t, target);
    NamedIsOne(t, username, target);
    assert LastMinute(t, actor, now) == Recent(t, actor, now - LIFETIME);
  }

  // ---- consumption ---------------------------------------------------------------------------

  /** A row of the switch provider that concerns this target. */
  predicate Concerns(a: Alias, target: Id) { a.user == target || a.external == "admin-switch:" + target }

  /** No such row, or exactly one and that the target's own. */
  ghost predicate AliasFits(t: Tables, target: Id) {
    && (forall i | i in t.aliases && Concerns(t.aliases[i], target) ::
          t.aliases[i] == Alias(target, "admin-switch:" + target))
    && (forall i, j | i in t.aliases && j in t.aliases && Concerns(t.aliases[i], target)
                        && Concerns(t.aliases[j], target) ::
          i == j)
  }

  lemma AliasFitsMeans(t: Tables, target: Id)
    ensures AliasFits(t, target) <==>
            && (forall i | i in Touching(t, target) :: t.aliases[i] == Alias(target, ExternalOf(target)))
            && |Touching(t, target)| <= 1
  {
    var rows := Touching(t, target);
    assert forall i | i in t.aliases :: i in rows <==> Concerns(t.aliases[i], target);
    if |rows| <= 1 {
      forall i, j | i in rows && j in rows ensures i == j { if i != j { SubsetSize({i, j}, rows); } }
    }
    if AliasFits(t, target) && rows != {} {
      var i: nat :| i in rows;
      forall j | j in rows ensures j == i {}
      SubsetSize(rows, {i});
    }
  }

  ghost predicate IsTicketText(s: string) {
    |s| == 64 && forall i | 0 <= i < 64 :: s[i] in "0123456789abcdef"
  }

  lemma HexIsProof(s: string)
    ensures IsTicketText(s) <==> IsProof(s)
  {
    if IsProof(s) {
      forall i | 0 <= i < |s| ensures s[i] in "0123456789abcdef" { HexDigit(s[i]); assert s[i] in s; }
    }
    if IsTicketText(s) {
      forall c | c in s ensures ('a' <= c <= 'f') || ('0' <= c <= '9') { HexDigit(c); }
    }
  }

  lemma HexDigit(c: char)
    ensures c in "0123456789abcdef" <==> ('a' <= c <= 'f') || ('0' <= c <= '9')
  {
    var hex := "0123456789abcdef";
    if '0' <= c <= '9' { assert hex[c as int - '0' as int] == c; }
    if 'a' <= c <= 'f' { assert hex[10 + c as int - 'a' as int] == c; }
  }

  /** A ticket is consumed if and only if: it is on record, unused, not yet 60 seconds past its
      issue as recorded, and presented by the session that got it; its actor is still an
      administrator and its target another ordinary account; and the target's alias fits. The
      ticket is marked, and the alias added only when missing. */
  lemma ConsumedExactly(t: Tables, ticket: string, session: string, now: int, row: nat)
    requires row !in t.aliases
    ensures var e := Consume(ticket, session, now, row);
            var ok :=
              && IsTicketText(ticket) && session != "" && Sha256(ticket) in t.tickets
              && var k := t.tickets[Sha256(ticket)];
                 && k.consumedAt == None && now < k.expiresAt && k.session == Sha256(session)
                 && Administrator(t, k.actor) && k.actor != k.target && Ordinary(t, k.target) && AliasFits(t, k.target);
            && (Succeeds(t, e) <==> ok)
            && (!ok ==> Step(t, e) == t)
            && (ok ==>
                  var k := t.tickets[Sha256(ticket)];
                  var present := exists i :: i in t.aliases && Concerns(t.aliases[i], k.target);
                  Step(t, e) == t.(tickets := t.tickets[Sha256(ticket) := k.(consumedAt := Some(now))],
                                   aliases := if present then t.aliases
                                              else t.aliases[row := Alias(k.target, "admin-switch:" + k.target)]))
  {
    HexIsProof(ticket);
    if Sha256(ticket) in t.tickets {
      var k := t.tickets[Sha256(ticket)];
      RolesDecide(t, k.actor);
      RolesDecide(t, k.target);
      AliasFitsMeans(t, k.target);
      TouchingMeansConcerned(t, k.target);
    }
  }

  lemma TouchingMeansConcerned(t: Tables, target: Id)
    ensures Touching(t, target) != {} <==> exists i :: i in t.aliases && Concerns(t.aliases[i], target)
  {
    if i: nat :| i in t.aliases && Concerns(t.aliases[i], target) { assert i in Touching(t, target); }
  }

  /** The return mark is set by the issuing actor in the issuing session, the first time only. */
  lemma ReturnedExactly(t: Tables, actor: Id, ticket: string, session: string, now: int)
    ensures var e, h := Return(actor, ticket, session, now), Sha256(ticket);
            Step(t, e) ==
            if h in t.tickets && t.tickets[h].actor == actor && t.tickets[h].session == Sha256(session)
               && t.tickets[h].returnedAt == None
            then t.(tickets := t.tickets[h := t.tickets[h].(returnedAt := Some(now))])
            else t
  {
    var h := Sha256(ticket);
    if h in t.tickets { assert t.tickets[h := t.tickets[h]] == t.tickets; }
  }

  // ---- runs -------------------------------------------------------------------------------------

  /** At most ten tickets of one actor lie in any minute of any run. */
  lemma AtMostTenPerMinute(t: Tables, es: seq<Event>, i: nat, actor: Id, time: int)
    requires Start(t) && i <= |es|
    ensures var tickets := StateAt(t, es, i).tickets;
            |set h | h in tickets && tickets[h].actor == actor && time - 60 < tickets[h].createdAt <= time| <= 10
  {
    QuotaHolds(t, es, i);
    var s := StateAt(t, es, i);
    assert (set h | h in s.tickets && s.tickets[h].actor == actor && time - 60 < s.tickets[h].createdAt <= time)
        == Window(s, actor, time);
  }

  /** Every consumption goes back to a request less than 60 seconds earlier, in the same session,
      that named the target's account and no other, by one who was an administrator then and
      still is. */
  lemma ConsumedByRequest(t: Tables, es: seq<Event>, i: nat) returns (j: nat)
    requires Start(t) && i < |es| && es[i].Consume? && Succeeds(StateAt(t, es, i), es[i])
    ensures j < i && es[j].Issue? && es[j].ticket == es[i].ticket && es[j].session == es[i].session
    ensures es[i].now < es[j].now + 60
    ensures OnlyNamed(StateAt(t, es, j), es[j].username, es[j].target) && es[j].actor != es[j].target
    ensures Administrator(StateAt(t, es, j), es[j].actor) && Administrator(StateAt(t, es, i), es[j].actor)
    ensures Ordinary(StateAt(t, es, j), es[j].target) && Ordinary(StateAt(t, es, i), es[j].target)
    ensures StateAt(t, es, i).tickets[Sha256(es[i].ticket)].target == es[j].target
  {
    var h := Sha256(es[i].ticket);
    Origin(t, es, i, h);
    j :| 0 <= j < i && IssuedAt(t, es, j, h, StateAt(t, es, i).tickets[h]);
    NamedIsOne(StateAt(t, es, j), es[j].username, es[j].target);
    RolesDecide(StateAt(t, es, j), es[j].actor);
    RolesDecide(StateAt(t, es, i), es[j].actor);
    RolesDecide(StateAt(t, es, j), es[j].target);
    RolesDecide(StateAt(t, es, i), es[j].target);
  }
}
