/** What the draw recovery protocol guarantees on every run from the empty state. */
module DrawTheorems {
  import opened Basics
  import opened DrawProtocol
  import opened DrawInvariant

  ghost predicate Reached(w: World, es: seq<Event>) {
    Legal(Init(), es) && w == After(Init(), es)
  }

  lemma ReachedInv(w: World, es: seq<Event>)
    requires Reached(w, es)
    ensures Inv(w)
  {
    InitInv();
    RunInv(Init(), es);
  }

  // ---- the posted actions of an operation -------------------------------------------

  /** `n` actions were posted: they are a prefix, all but the last are committed, and only
      the last one can be undecided. */
  ghost predicate PostedPrefix(w: World, op: Operation, n: nat) {
    && n <= |op|
    && (forall i | 0 <= i < |op| :: op[i] in w.posts <==> i < n)
    && (forall i | 0 <= i < n - 1 :: IsCommitted(w, op[i].id))
    && (forall i | n <= i < |op| :: op[i].id !in w.decided)
  }

  lemma {:induction false} FindPrefix(w: World, op: Operation, n: nat)
    requires CoreInv(w) && OwnOp(w, op) && PrefixSafe(w, op)
    requires n <= |op| && forall i | n <= i < |op| :: op[i] !in w.posts
    ensures exists m :: 0 <= m <= n && PostedPrefix(w, op, m)
  {
    DecidedWerePosted(w, op);
    if n == 0 || op[n - 1] in w.posts {
      forall i | 0 <= i < n ensures op[i] in w.posts {
        if i < n - 1 { assert IsCommitted(w, op[i].id); assert op[i] in op; }
      }
      forall i | n <= i < |op| ensures op[i].id !in w.decided { assert op[i] in op; }
      assert PostedPrefix(w, op, n);
    } else {
      FindPrefix(w, op, n - 1);
    }
  }

  lemma SettledPrefixSafe(w: World, c: Closed)
    requires Settled(w, c)
    ensures PrefixSafe(w, c.op)
  {
  }

  /** Draw safety. In every reachable state the posted actions of the saved operation, and
      of every operation erased before, form a prefix with at most the last one in doubt. */
  lemma PostedActionsAreAPrefix(w: World, es: seq<Event>, op: Operation)
    requires Reached(w, es)
    requires w.saved == Some(op) || exists c :: c in w.closed && c.op == op
    ensures exists n :: 0 <= n <= |op| && PostedPrefix(w, op, n)
  {
    ReachedInv(w, es);
    if w.saved != Some(op) {
      var c :| c in w.closed && c.op == op;
      SettledPrefixSafe(w, c);
    }
    FindPrefix(w, op, |op|);
  }

  // ---- erasing ------------------------------------------------------------------------

  /** No orphaned grant. An erased operation is settled, now and forever: it completed with
      every grant confirmed in order, or it stopped at a refused action after confirmed ones
      and before unposted ones. No message still on the wire can decide anything for it. */
  lemma NoOrphanedGrant(w: World, es: seq<Event>, c: Closed)
    requires Reached(w, es) && c in w.closed
    ensures Settled(w, c)
    ensures forall a | a in c.op && a in w.wire :: a.id in w.decided
  {
    ReachedInv(w, es);
    forall a | a in c.op && a in w.wire ensures a.id in w.decided {
      var i :| 0 <= i < |c.op| && c.op[i] == a;
    }
  }

  /** Action `i` of the erased operation has this identifier and was confirmed to the user. */
  ghost predicate ReportedAt(w: World, c: Closed, i: nat, id: Id)
    requires IsCommitted(w, id)
  {
    i < |c.op| && c.op[i].id == id && i < |c.ending.grants| && c.ending.grants[i] == w.decided[id].grant
  }

  /** Every spent ticket is still recoverable from the saved operation or was confirmed
      before its operation was erased. */
  lemma EveryGrantIsAccountedFor(w: World, es: seq<Event>, id: Id)
    requires Reached(w, es) && IsCommitted(w, id)
    ensures (w.saved.Some? && id in Ids(w.saved.value))
            || exists c, i :: c in w.closed && ReportedAt(w, c, i, id)
  {
    ReachedInv(w, es);
    var a := Action(id, w.minted[id]);
    assert Owned(w, a);
    if w.saved.Some? && a in w.saved.value {
      assert a.id in Ids(w.saved.value);
    } else {
      var c :| c in w.closed && a in c.op;
      var i := SettledReports(w, c, a);
    }
  }

  lemma SettledReports(w: World, c: Closed, a: Action) returns (i: nat)
    requires Settled(w, c) && a in c.op && a in w.posts && IsCommitted(w, a.id)
    ensures ReportedAt(w, c, i, a.id)
  {
    i :| 0 <= i < |c.op| && c.op[i] == a;
  }

  lemma DecisionsStep(w: World, e: Event)
    requires Enabled(w, e)
    ensures DecisionsKept(w, Step(w, e))
  {
  }

  lemma SavedStep(w: World, e: Event)
    requires PhaseOk(w) && Enabled(w, e) && w.saved.Some?
    ensures var w' := Step(w, e);
            || (w'.saved == w.saved && w'.closed == w.closed)
            || (w'.saved.None? && |w'.closed| == |w.closed| + 1
                && w'.closed == w.closed + [w'.closed[|w.closed|]] && Some(w'.closed[|w.closed|].op) == w.saved)
  {
  }

  /** One step never replaces a saved operation: it keeps it unchanged or erases it,
      recording a settled ending. Decisions are never revised. */
  lemma SavedIsNeverReplaced(w: World, es: seq<Event>, e: Event)
    requires Reached(w, es) && Enabled(w, e)
    ensures DecisionsKept(w, Step(w, e))
    ensures w.saved.Some? ==>
              var w' := Step(w, e);
              || (w'.saved == w.saved && w'.closed == w.closed)
              || (w'.saved.None? && |w'.closed| == |w.closed| + 1
                  && w'.closed == w.closed + [w'.closed[|w.closed|]] && Some(w'.closed[|w.closed|].op) == w.saved
                  && Settled(w', w'.closed[|w.closed|]))
  {
    ReachedInv(w, es);
    StepInv(w, e);
    DecisionsStep(w, e);
    if w.saved.Some? {
      SavedStep(w, e);
      var w' := Step(w, e);
      if w'.saved != w.saved { assert w'.closed[|w.closed|] in w'.closed; }
    }
  }

  // ---- the ledger -----------------------------------------------------------------------

  function Grants(w: World): set<Grant> {
    set id | id in CommittedIds(w) :: w.decided[id].grant
  }

  /** The server's side of the contract: a new commit gets a new grant. */
  ghost predicate FreshGrants(w: World, es: seq<Event>)
    requires Legal(w, es)
    decreases |es|
  {
    es == []
    || ((es[0].Deliver? && es[0].commit && es[0].action.id !in w.decided ==> es[0].grant !in Grants(w))
        && FreshGrants(Step(w, es[0]), es[1..]))
  }

  ghost predicate Injective(w: World) {
    forall a, b | a in CommittedIds(w) && b in CommittedIds(w) && a != b ::
      w.decided[a].grant != w.decided[b].grant
  }

  lemma InjectiveStep(w: World, e: Event)
    requires Injective(w) && Enabled(w, e)
    requires e.Deliver? && e.commit && e.action.id !in w.decided ==> e.grant !in Grants(w)
    ensures Injective(Step(w, e))
  {
    var w' := Step(w, e);
    forall a, b | a in CommittedIds(w') && b in CommittedIds(w') && a != b
      ensures w'.decided[a].grant != w'.decided[b].grant
    {
      if a in CommittedIds(w) { assert w.decided[a].grant in Grants(w); }
      if b in CommittedIds(w) { assert w.decided[b].grant in Grants(w); }
    }
  }

  lemma {:induction false} InjectiveRun(w: World, es: seq<Event>)
    requires Injective(w) && Legal(w, es) && FreshGrants(w, es)
    ensures Injective(After(w, es))
    decreases |es|
  {
    if es != [] {
      InjectiveStep(w, es[0]);
      InjectiveRun(Step(w, es[0]), es[1..]);
    }
  }

  lemma {:induction false} ImageSize(w: World, ids: set<Id>)
    requires ids <= CommittedIds(w) && Injective(w)
    ensures |set id | id in ids :: w.decided[id].grant| == |ids|
  {
    if ids != {} {
      var x :| x in ids;
      var rest := ids - {x};
      ImageSize(w, rest);
      var image := set id | id in rest :: w.decided[id].grant;
      assert (set id | id in ids :: w.decided[id].grant) == image + {w.decided[x].grant};
      assert w.decided[x].grant !in image;
    }
  }

  /** Conservation: tickets spent = actions committed = distinct grants, over any run with
      an honest ledger and whatever the network and the tab do. */
  lemma TicketsEqualGrants(w: World, es: seq<Event>)
    requires Reached(w, es) && FreshGrants(Init(), es)
    ensures w.earned - w.tickets == |CommittedIds(w)| == |Grants(w)|
  {
    ReachedInv(w, es);
    InjectiveRun(Init(), es);
    ImageSize(w, CommittedIds(w));
    assert Grants(w) == set id | id in CommittedIds(w) :: w.decided[id].grant;
  }

  /** The event takes a ticket for one of these identifiers. */
  predicate SpendsFor(w: World, e: Event, ids: set<Id>)
    requires Enabled(w, e)
  {
    e.Deliver? && e.action.id in ids && Step(w, e).tickets < w.tickets
  }

  /** How many tickets a run takes for these identifiers. */
  function Spent(w: World, es: seq<Event>, ids: set<Id>): nat
    requires Legal(w, es)
    decreases |es|
  {
    if es == [] then 0
    else (if SpendsFor(w, es[0], ids) then 1 else 0) + Spent(Step(w, es[0]), es[1..], ids)
  }

  predicate Decides(w: World, e: Event) { e.Deliver? && e.action.id !in w.decided }

  lemma OthersDecideNothing(w: World, e: Event)
    requires Enabled(w, e) && !Decides(w, e)
    ensures Step(w, e).decided == w.decided && (e.Deliver? ==> Step(w, e).tickets == w.tickets)
  {
  }

  lemma DecidesOne(w: World, e: Event)
    requires Enabled(w, e) && Decides(w, e)
    ensures Step(w, e).decided == w.decided[e.action.id := if e.commit then Committed(e.grant) else Refused]
    ensures Step(w, e).tickets == if e.commit then w.tickets - 1 else w.tickets
  {
  }

  lemma CommitAdds(w: World, w': World, id: Id, d: Decision)
    requires id !in w.decided && w'.decided == w.decided[id := d]
    ensures CommittedIds(w') == if d.Committed? then CommittedIds(w) + {id} else CommittedIds(w)
  {
  }

  lemma SpendStep(w: World, e: Event, ids: set<Id>)
    requires Enabled(w, e)
    ensures |CommittedIds(Step(w, e)) * ids| == |CommittedIds(w) * ids| + if SpendsFor(w, e, ids) then 1 else 0
  {
    var w' := Step(w, e);
    if Decides(w, e) {
      var id := e.action.id;
      DecidesOne(w, e);
      CommitAdds(w, w', id, if e.commit then Committed(e.grant) else Refused);
      OneMore(CommittedIds(w), id, ids);
    } else {
      OthersDecideNothing(w, e);
      assert CommittedIds(w') == CommittedIds(w);
    }
  }

  lemma OneMore(committed: set<Id>, id: Id, ids: set<Id>)
    requires id !in committed
    ensures |(committed + {id}) * ids| == |committed * ids| + if id in ids then 1 else 0
  {
    if id in ids { assert (committed + {id}) * ids == committed * ids + {id}; }
    else { assert (committed + {id}) * ids == committed * ids; }
  }

  lemma {:induction false} SpentIsCommitted(w: World, es: seq<Event>, ids: set<Id>)
    requires Legal(w, es)
    ensures |CommittedIds(After(w, es)) * ids| == |CommittedIds(w) * ids| + Spent(w, es, ids)
    decreases |es|
  {
    if es != [] {
      SpendStep(w, es[0], ids);
      SpentIsCommitted(Step(w, es[0]), es[1..], ids);
    }
  }

  lemma {:induction false} IdsSize(op: Operation)
    requires forall i, j | 0 <= i < j < |op| :: op[i].id != op[j].id
    ensures |Ids(op)| == |op|
  {
    if op == [] {
      assert Ids(op) == {};
    } else {
      var n := |op| - 1;
      IdsSize(op[..n]);
      assert op == op[..n] + [op[n]];
      assert Ids(op) == Ids(op[..n]) + {op[n].id};
    }
  }

  /** Between what the first `low` actions and the first `high` actions name. */
  lemma CommittedBetween(w: World, op: Operation, low: nat, high: nat)
    requires low <= high <= |op| && forall i, j | 0 <= i < j < |op| :: op[i].id != op[j].id
    requires forall i | 0 <= i < low :: IsCommitted(w, op[i].id)
    requires forall i | high <= i < |op| :: !IsCommitted(w, op[i].id)
    ensures low <= |CommittedIds(w) * Ids(op)| <= high
  {
    IdsSize(op[..low]);
    IdsSize(op[..high]);
    var committed := CommittedIds(w) * Ids(op);
    assert Ids(op[..low]) <= committed;
    forall id | id in committed ensures id in Ids(op[..high]) {
      var a :| a in op && a.id == id;
      var i :| 0 <= i < |op| && op[i] == a;
      assert op[..high][i] == a;
    }
    SubsetSize(Ids(op[..low]), committed);
    SubsetSize(committed, Ids(op[..high]));
  }

  /** What a request costs. Over the whole run the tickets taken for an erased request are as
      many as the grants confirmed for it: all its actions if it completed, those before the
      refusal if it stopped. */
  lemma ErasedRequestCost(w: World, es: seq<Event>, c: Closed)
    requires Reached(w, es) && c in w.closed
    ensures Spent(Init(), es, Ids(c.op)) == |c.ending.grants| <= |c.op|
    ensures c.ending.Completed? ==> Spent(Init(), es, Ids(c.op)) == |c.op|
  {
    ReachedInv(w, es);
    SpentFromStart(w, es, c.op);
    SettledCost(w, c);
  }

  lemma SpentFromStart(w: World, es: seq<Event>, op: Operation)
    requires Reached(w, es)
    ensures Spent(Init(), es, Ids(op)) == |CommittedIds(w) * Ids(op)|
  {
    assert CommittedIds(Init()) * Ids(op) == {};
    SpentIsCommitted(Init(), es, Ids(op));
  }

  lemma SettledCost(w: World, c: Closed)
    requires Settled(w, c) && WellFormed(c.op)
    ensures |CommittedIds(w) * Ids(c.op)| == |c.ending.grants| <= |c.op|
  {
    CommittedBetween(w, c.op, |c.ending.grants|, |c.ending.grants|);
  }

  /** And for the saved request as many as its posted actions, or one fewer. */
  lemma SavedRequestCost(w: World, es: seq<Event>, op: Operation)
    requires Reached(w, es) && w.saved == Some(op)
    ensures exists n :: 0 <= n <= |op| && PostedPrefix(w, op, n) && n - 1 <= Spent(Init(), es, Ids(op)) <= n
  {
    ReachedInv(w, es);
    SpentFromStart(w, es, op);
    PostedActionsAreAPrefix(w, es, op);
    var n :| 0 <= n <= |op| && PostedPrefix(w, op, n);
    CommittedBetween(w, op, if n == 0 then 0 else n - 1, n);
  }

  // ---- re-posting -----------------------------------------------------------------------

  /** The event answers a lookup of `id` with an empty list, be it a late one. */
  ghost predicate EmptyLookup(w: World, e: Event, id: Id) {
    && Enabled(w, e)
    && ((e.LookupAnswer? && Current(w.phase).id == id && (e.late || !IsCommitted(w, id)))
        || (e.RecoveryAnswer? && w.phase.op[e.i].id == id && (e.late || !IsCommitted(w, id))))
  }

  ghost predicate PostsAction(w: World, e: Event, a: Action) {
    e.Post? && Enabled(w, e) && Current(w.phase) == a
  }

  lemma {:induction false} LegalSplit(w: World, es: seq<Event>, k: nat)
    requires Legal(w, es) && k <= |es|
    ensures Legal(w, es[..k]) && Legal(After(w, es[..k]), es[k..])
    ensures After(w, es) == After(After(w, es[..k]), es[k..])
    decreases k
  {
    if k == 0 {
      assert es[..0] == [] && es[0..] == es;
    } else {
      LegalSplit(Step(w, es[0]), es[1..], k - 1);
      assert es[..k][1..] == es[1..][..k - 1] && es[1..][k - 1..] == es[k..];
    }
  }

  function StateAt(es: seq<Event>, k: nat): World
    requires Legal(Init(), es) && k <= |es|
  {
    LegalSplit(Init(), es, k);
    After(Init(), es[..k])
  }

  lemma NextState(es: seq<Event>, k: nat)
    requires Legal(Init(), es) && k < |es|
    ensures Enabled(StateAt(es, k), es[k]) && StateAt(es, k + 1) == Step(StateAt(es, k), es[k])
  {
    LegalSplit(Init(), es, k);
    LegalSplit(Init(), es, k + 1);
    LegalSplit(Init(), es[..k + 1], k);
    assert es[..k + 1][..k] == es[..k] && es[..k + 1][k..] == [es[k]];
  }

  lemma AskedOnlyByEmptyLookup(w: World, e: Event, id: Id)
    requires Enabled(w, e) && id !in w.asked && id in Step(w, e).asked
    ensures EmptyLookup(w, e, id)
  {
  }

  lemma {:induction false} AskedMeansLookup(es: seq<Event>, i: nat, j: nat, id: Id)
    requires Legal(Init(), es) && i <= j <= |es|
    requires id !in StateAt(es, i).asked && id in StateAt(es, j).asked
    ensures exists k :: i <= k < j && EmptyLookup(StateAt(es, k), es[k], id)
    decreases j - i
  {
    NextState(es, j - 1);
    if id in StateAt(es, j - 1).asked {
      AskedMeansLookup(es, i, j - 1, id);
    } else {
      AskedOnlyByEmptyLookup(StateAt(es, j - 1), es[j - 1], id);
    }
  }

  lemma {:induction false} PostsGrow(es: seq<Event>, i: nat, j: nat)
    requires Legal(Init(), es) && i <= j <= |es|
    ensures StateAt(es, i).posts <= StateAt(es, j).posts
    decreases j - i
  {
    if i < j {
      PostsGrow(es, i, j - 1);
      NextState(es, j - 1);
    }
  }

  lemma PostClearsAsked(w: World, a: Action)
    requires PostsAction(w, Post, a)
    ensures var w' := Step(w, Post); a in w'.posts && a.id !in w'.asked
  {
  }

  lemma SecondPostWasAsked(w: World, a: Action)
    requires Inv(w) && PostsAction(w, Post, a) && a in w.posts
    ensures a.id in w.asked
  {
  }

  lemma PostIsTheSavedAction(w: World, a: Action)
    requires Inv(w) && PostsAction(w, Post, a)
    ensures a.id in w.minted && w.minted[a.id] == a.selection
  {
    assert a in w.saved.value;
  }

  lemma SameIdSameAction(w: World, a: Action, b: Action)
    requires Inv(w) && a in w.posts && PostsAction(w, Post, b) && a.id == b.id
    ensures a == b
  {
    PostIsTheSavedAction(w, b);
  }

  /** The same action is posted a second time only after some lookup between the two POSTs
      was answered with an empty list; the identifier and the selection are the saved ones. */
  lemma RepostNeedsEmptyLookup(es: seq<Event>, i: nat, j: nat, a: Action, b: Action)
    requires Legal(Init(), es) && i < j < |es|
    requires PostsAction(StateAt(es, i), es[i], a) && PostsAction(StateAt(es, j), es[j], b) && a.id == b.id
    ensures a == b
    ensures exists k :: i < k < j && EmptyLookup(StateAt(es, k), es[k], a.id)
  {
    NextState(es, i);
    PostClearsAsked(StateAt(es, i), a);
    PostsGrow(es, i + 1, j);
    var w := StateAt(es, j);
    assert Inv(w) by {
      LegalSplit(Init(), es, j);
      ReachedInv(w, es[..j]);
    }
    SameIdSameAction(w, a, b);
    SecondPostWasAsked(w, a);
    AskedMeansLookup(es, i + 1, j, a.id);
  }
}
