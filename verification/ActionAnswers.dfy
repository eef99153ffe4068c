/** What `Execute` answers, case by case, in terms of the rows and conditions themselves. */
module ActionAnswers {
  import opened Basics
  import opened ActionService
  import opened ActionTheorems

  // ---- the ticket account ---------------------------------------------------------------

  ghost function EarnedAt(entries: seq<Entry>, source: nat): set<nat> {
    set i: nat | i < |entries| && entries[i] == Earned(source)
  }

  ghost function SpentAt(entries: seq<Entry>, source: nat): set<nat> {
    set i: nat | i < |entries| && entries[i].Spent? && entries[i].source == source
  }

  /** More tickets of this source were earned than spent. */
  ghost predicate HoldsTicket(entries: seq<Entry>, source: nat) {
    |EarnedAt(entries, source)| > |SpentAt(entries, source)|
  }

  lemma {:induction false} BalanceCounts(entries: seq<Entry>, source: nat)
    ensures Balance(entries, source) == |EarnedAt(entries, source)| - |SpentAt(entries, source)|
  {
    if entries != [] {
      var n := |entries| - 1;
      var front := entries[..n];
      BalanceCounts(front, source);
      EarnedAtEnd(entries, source);
      SpentAtEnd(entries, source);
    }
  }

  lemma EarnedAtEnd(entries: seq<Entry>, source: nat)
    requires entries != []
    ensures var n := |entries| - 1;
            && EarnedAt(entries, source) ==
               EarnedAt(entries[..n], source) + (if entries[n] == Earned(source) then {n} else {})
            && n !in EarnedAt(entries[..n], source)
  {
    var n := |entries| - 1;
    assert forall i: nat | i < n :: entries[..n][i] == entries[i];
  }

  lemma SpentAtEnd(entries: seq<Entry>, source: nat)
    requires entries != []
    ensures var n := |entries| - 1;
            && SpentAt(entries, source) ==
               SpentAt(entries[..n], source) + (if entries[n].Spent? && entries[n].source == source then {n} else {})
            && n !in SpentAt(entries[..n], source)
  {
    var n := |entries| - 1;
    assert forall i: nat | i < n :: entries[..n][i] == entries[i];
  }

  // ---- an action never seen before --------------------------------------------------------

  predicate WellMade(c: Command) {
    1 <= |c.action| <= 191 && c.trigger == "pulse" && 1 <= |c.key| <= 191
  }

  /** The digest covers the action, and protocol and selection unless both are absent. */
  function Contents(c: Command): Payload {
    if c.protocol == 0 && c.selection == "" then Plain(c.action) else Selected(c.action, c.protocol, c.selection)
  }

  predicate NeverSeen(t: Tables, c: Command) {
    && c.action !in t.identities && c.key !in t.requests && c.key !in t.legacy
    && forall g | g in t.grants :: g.action != c.action
  }

  /** Both rows of the command with this answer, and the books given. */
  function Answered(t: Tables, c: Command, r: Response, grants: seq<Grant>, entries: seq<Entry>): Tables {
    Tables(t.identities[c.action := Record(Contents(c), Some(r))], t.requests[c.key := Record(Contents(c), Some(r))],
           t.legacy, grants, entries)
  }

  lemma {:induction false} NoGrants(grants: seq<Grant>, action: Id)
    requires forall g | g in grants :: g.action != action
    ensures GrantsOf(grants, action) == []
  {
    if grants != [] { NoGrants(grants[..|grants| - 1], action); }
  }

  lemma NeverSeenIsDrawn(t: Tables, c: Command, k: Conditions)
    requires WellMade(c) && NeverSeen(t, c)
    ensures Executed(t, c, k) == if Drawn(Opened(t, c), c, k).1.Failed? then (t, Failed) else Drawn(Opened(t, c), c, k)
  {
    NoGrants(t.grants, c.action);
  }

  /** A new action is granted if and only if the request is of protocol 3 with a selection, the
      checks before the account pass, the account holds a ticket, the checks after it pass, and
      a free identifier can be stored; then one ticket of that source is spent and one grant
      booked. */
  lemma GrantedExactly(t: Tables, c: Command, k: Conditions)
    requires BooksOk(t) && WellMade(c) && NeverSeen(t, c)
    ensures var (t', o) := Executed(t, c, k);
            && (o.Decided? && o.response.Granted? <==>
                && c.protocol == 3 && c.selection != "" && k.early == Pass && HoldsTicket(t.entries, k.source)
                && k.late == Pass && k.stored && k.grant != "" && forall g | g in t.grants :: g.id != k.grant)
            && (o.Decided? && o.response.Granted? ==>
                && o.response == Granted(Result(k.grant, c.action, k.detail, "pending"))
                && t' == Answered(t, c, o.response, t.grants + [Grant(k.grant, c.action, k.detail, "pending")],
                                  t.entries + [Spent(k.source, c.action, k.grant)]))
  {
    NeverSeenIsDrawn(t, c, k);
    BalanceCounts(t.entries, k.source);
    if Executed(t, c, k).1.Decided? {
      var v := Judge(Opened(t, c), c, k);
      if v.Grants? { BookedAnswer(t, c, k); }
    }
    if !Taken(t.grants, k.grant) { NotBookedYet(t, k); }
  }

  lemma BookedAnswer(t: Tables, c: Command, k: Conditions)
    requires BooksOk(t) && NeverSeen(t, c) && !Taken(t.grants, k.grant)
    ensures var r := Granted(Result(k.grant, c.action, k.detail, "pending"));
            SaveBoth(Booked(Opened(t, c), c, k), c, r)
            == Answered(t, c, r, t.grants + [Grant(k.grant, c.action, k.detail, "pending")],
                        t.entries + [Spent(k.source, c.action, k.grant)])
  {
    NotBookedYet(t, k);
    SaveOpened(Booked(t, c, k), c, Granted(Result(k.grant, c.action, k.detail, "pending")));
    assert Booked(Opened(t, c), c, k) == Opened(Booked(t, c, k), c);
  }

  /** Otherwise the first of these checks that refuses is what is recorded, with nothing spent. */
  lemma RefusedExactly(t: Tables, c: Command, k: Conditions)
    requires BooksOk(t) && WellMade(c) && NeverSeen(t, c)
    ensures var (t', o) := Executed(t, c, k);
            var asked, holds := c.protocol == 3 && c.selection != "", HoldsTicket(t.entries, k.source);
            && (!asked ==> o == Decided(Refusal(SelectionRequired)))
            && (asked && k.early.Refuse? ==> o == Decided(Refusal(k.early.cause)))
            && (asked && k.early == Pass && !holds ==> o == Decided(Refusal(InsufficientTickets)))
            && (asked && k.early == Pass && holds && k.late.Refuse? ==> o == Decided(Refusal(k.late.cause)))
            && (o.Decided? && o.response.Refusal? ==> t' == Answered(t, c, o.response, t.grants, t.entries))
  {
    NeverSeenIsDrawn(t, c, k);
    BalanceCounts(t.entries, k.source);
    if Executed(t, c, k).1.Decided? && Executed(t, c, k).1.response.Refusal? {
      SaveOpened(t, c, Executed(t, c, k).1.response);
    }
  }

  /** And a check or a write that breaks off leaves nothing behind. */
  lemma BrokenExactly(t: Tables, c: Command, k: Conditions)
    requires BooksOk(t) && WellMade(c) && NeverSeen(t, c) && c.protocol == 3 && c.selection != ""
    ensures var broken :=
              || k.early.Fail?
              || (k.early == Pass && HoldsTicket(t.entries, k.source)
                  && (k.late.Fail?
                      || (k.late == Pass && !(k.stored && k.grant != "" &&
                                                    forall g | g in t.grants :: g.id != k.grant))));
            broken <==> Executed(t, c, k) == (t, Failed)
  {
    NeverSeenIsDrawn(t, c, k);
    BalanceCounts(t.entries, k.source);
    if !Taken(t.grants, k.grant) { NotBookedYet(t, k); }
  }

  // ---- actions and requests already on record -------------------------------------------------

  /** A badly made request, or one whose action or key stands for other contents, fails. */
  lemma MisuseFails(t: Tables, c: Command, k: Conditions)
    requires || !WellMade(c)
             || (c.action in t.identities && t.identities[c.action].payload != Contents(c))
             || (c.key in t.requests && t.requests[c.key].payload != Contents(c))
    ensures Executed(t, c, k) == (t, Failed)
  {
  }

  /** A decided action answers a new key with its recorded answer, and remembers the key. */
  lemma NewKeyIsAnswered(t: Tables, c: Command, k: Conditions)
    requires Inv(t) && WellMade(c) && c.key !in t.requests && c.key !in t.legacy
    requires c.action in t.identities && t.identities[c.action].payload == Contents(c)
    ensures var r := t.identities[c.action].response;
            && r.Some?
            && Executed(t, c, k) == (t.(requests := t.requests[c.key := Record(Contents(c), r)]), Decided(r.value))
  {
    RowsAnswered(t, c);
    var row := Record(Contents(c), None);
    var saved := Record(Contents(c), t.identities[c.action].response);
    assert t.requests[c.key := row][c.key := saved] == t.requests[c.key := saved];
  }

  /** The rows of an action, as positions in the grant table. */
  ghost function RowsOf(grants: seq<Grant>, action: Id): set<nat> {
    set i: nat | i < |grants| && grants[i].action == action
  }

  lemma {:induction false} RowsAreGrants(grants: seq<Grant>, action: Id)
    ensures |RowsOf(grants, action)| == |GrantsOf(grants, action)|
    ensures forall i | i in RowsOf(grants, action) && |RowsOf(grants, action)| == 1 ::
              GrantsOf(grants, action) == [grants[i]]
  {
    if grants != [] {
      var n := |grants| - 1;
      var front := grants[..n];
      RowsAreGrants(front, action);
      assert forall i: nat | i < n :: front[i] == grants[i];
      var before := RowsOf(front, action);
      assert RowsOf(grants, action) == before + if grants[n].action == action then {n} else {};
      if |RowsOf(grants, action)| == 1 && grants[n].action == action { assert |before| == 0; }
    }
  }

  /** A grant from before these rows answers a request without protocol and selection, when it
      is the only one of its action; otherwise the request fails. */
  lemma OldGrantIsRecovered(t: Tables, c: Command, k: Conditions, i: nat)
    requires WellMade(c) && c.action !in t.identities && c.key !in t.requests && c.key !in t.legacy
    requires i in RowsOf(t.grants, c.action)
    ensures var g := t.grants[i];
            var r := Granted(Result(g.id, g.action, g.detail, g.status));
            Executed(t, c, k) ==
            if |RowsOf(t.grants, c.action)| == 1 && c.protocol == 0 && c.selection == ""
            then (Answered(t, c, r, t.grants, t.entries), Decided(r))
            else (t, Failed)
  {
    RowsAreGrants(t.grants, c.action);
    var g := t.grants[i];
    SaveOpened(t, c, Granted(Result(g.id, g.action, g.detail, g.status)));
  }

  /** One old request row answers its key, word for word, when it is intact, is for this action,
      and its grant is the only one of the action; otherwise the request fails. */
  lemma OldRequestIsHonoured(t: Tables, c: Command, k: Conditions)
    requires WellMade(c) && c.action !in t.identities && c.key !in t.requests
    requires c.key in t.legacy && t.legacy[c.key] != []
    ensures var rows := t.legacy[c.key];
            var honoured :=
              && |rows| == 1 && rows[0].intact && rows[0].result.Some? && c.protocol == 0 && c.selection == ""
              && rows[0].result.value.action == c.action && rows[0].result.value.grant != ""
              && |RowsOf(t.grants, c.action)| == 1
              && exists i: nat :: i in RowsOf(t.grants, c.action) && t.grants[i].id == rows[0].result.value.grant;
            Executed(t, c, k) ==
            if honoured
            then (Answered(t, c, Granted(rows[0].result.value), t.grants, t.entries),
                  Decided(Granted(rows[0].result.value)))
            else (t, Failed)
  {
    var rows := t.legacy[c.key];
    RowsAreGrants(t.grants, c.action);
    if |RowsOf(t.grants, c.action)| == 1 {
      var i: nat :| i in RowsOf(t.grants, c.action);
      OnlyMember(RowsOf(t.grants, c.action), i);
    }
    if rows[0].result.Some? { SaveOpened(t, c, Granted(rows[0].result.value)); }
  }

  lemma OnlyMember(s: set<nat>, i: nat)
    requires i in s && |s| == 1
    ensures forall j | j in s :: j == i
  {
    forall j | j in s ensures j == i {
      if j != i { SubsetSize({i, j}, s); }
    }
  }
}
