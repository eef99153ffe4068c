/** Every event of the draw recovery protocol keeps its inductive invariant. */
module DrawInvariant {
  import opened Basics
  import opened DrawProtocol

  // ---- small facts ----------------------------------------------------------------

  lemma RecoveredConfirmed(w: World, op: Operation, found: map<Id, Option<Grant>>)
    requires forall a | a in op :: a.id in found
    requires Truthful(w, Known(found))
    requires |Recovered(op, found)| == |op| && Distinct(Recovered(op, found))
    ensures Confirmed(w, op, Recovered(op, found))
  {
    var gs := Recovered(op, found);
    forall i | 0 <= i < |gs|
      ensures IsCommitted(w, op[i].id) && w.decided[op[i].id].grant == gs[i]
    {
      assert op[i] in op && op[i].id in Known(found);
    }
  }

  /** What a server decision leaves alone: everything decided before. */
  ghost predicate DecisionsKept(w: World, w': World) {
    forall id | id in w.decided :: id in w'.decided && w'.decided[id] == w.decided[id]
  }

  lemma InitInv()
    ensures Inv(Init())
  {
    assert CommittedIds(Init()) == {};
  }

  lemma SettledKept(w: World, w': World, c: Closed)
    requires Settled(w, c) && DecisionsKept(w, w')
    requires forall j | 0 <= j < |c.op| :: c.op[j] in w'.posts ==> c.op[j] in w.posts
    requires forall a | a in c.op && a.id in w'.decided :: a.id in w.decided || a in w.posts
    ensures Settled(w', c)
  {
    if c.ending.Stopped? {
      forall j | |c.ending.grants| < j < |c.op| ensures c.op[j] !in w'.posts && c.op[j].id !in w'.decided {
        assert c.op[j] in c.op;
      }
    }
  }

  // ---- every step keeps the invariant ----------------------------------------------

  predicate ClientOnly(e: Event) {
    e.LoadPage? || e.Resume? || e.RecoveryAnswer? || e.RecoveryFailed? || e.TakeKnown? || e.ReplyLost?
    || e.LookupAnswer? || e.LookupFailed? || e.Abort? || e.Crash?
  }

  /** Steps that only change the tab's memory, the lookup history or lose messages. */
  lemma CoreKept(w: World, w': World)
    requires CoreInv(w)
    requires w' == w.(phase := w'.phase, asked := w'.asked, wire := w'.wire)
    requires w'.wire <= w.wire
    ensures CoreInv(w')
  {
    assert CommittedIds(w') == CommittedIds(w);
    forall c | c in w.closed ensures Settled(w', c) { SettledKept(w, w', c); }
    OwnersKept(w, w');
  }

  lemma AcceptOk(w: World, g: Grant)
    requires PhaseOk(w) && (w.phase.Resolving? || w.phase.Waiting?) && |w.phase.results| < |w.phase.op|
    requires IsCommitted(w, Current(w.phase).id) && w.decided[Current(w.phase).id].grant == g
    requires w.phase.Waiting? || w.phase.attempt > 0 || Current(w.phase).id in w.phase.known
    ensures PhaseOk(w.(phase := Accept(w.phase, g)))
  {
    var p := w.phase;
    var w' := w.(phase := Accept(p, g));
    if g !in p.results {
      OneMoreConfirmed(w, w', p.op, p.results, g);
      assert LookedUp(w, p.op, p.known, |p.results| + 1);
    }
  }

  lemma OneMoreConfirmed(w: World, w': World, op: Operation, gs: seq<Grant>, g: Grant)
    requires Confirmed(w, op, gs) && |gs| < |op| && g !in gs && w'.decided == w.decided
    requires IsCommitted(w, op[|gs|].id) && w.decided[op[|gs|].id].grant == g
    ensures Confirmed(w', op, gs + [g])
  {
  }

  lemma RetryOk(w: World)
    requires Inv(w) && (w.phase.Waiting? || (w.phase.Resolving? && !w.phase.cleared))
    ensures PhaseOk(w.(phase := Retry(w.phase)))
  {
  }

  lemma RecoveryAnswerOk(w: World, i: nat, late: bool)
    requires PhaseOk(w) && Enabled(w, RecoveryAnswer(i, late))
    ensures PhaseOk(Step(w, RecoveryAnswer(i, late)))
  {
    var id := w.phase.op[i].id;
    if IsCommitted(w, id) && !late { KnownFound(w.phase.found, id, w.decided[id].grant); }
    else { KnownMissing(w.phase.found, id); }
  }

  lemma KnownFound(found: map<Id, Option<Grant>>, id: Id, g: Grant)
    ensures Known(found[id := Some(g)]) == Known(found)[id := g]
  {
  }

  lemma KnownMissing(found: map<Id, Option<Grant>>, id: Id)
    requires id !in found
    ensures Known(found[id := None]) == Known(found)
  {
  }

  lemma EmptyLookupOk(w: World, late: bool)
    requires PhaseOk(w) && Enabled(w, LookupAnswer(late)) && (late || !IsCommitted(w, Current(w.phase).id))
    ensures PhaseOk(Step(w, LookupAnswer(late)))
  {
  }

  lemma LoadOk(w: World, e: Event)
    requires Inv(w) && (e.LoadPage? || e.Resume?) && Enabled(w, e)
    ensures PhaseOk(Step(w, e))
  {
    assert Known(map[]) == map[];
  }

  lemma ClientPhaseOk(w: World, e: Event)
    requires Inv(w) && ClientOnly(e) && Enabled(w, e)
    ensures PhaseOk(Step(w, e))
  {
    match e
    case TakeKnown => AcceptOk(w, w.phase.known[Current(w.phase).id]);
    case ReplyLost => RetryOk(w);
    case LookupFailed => RetryOk(w);
    case LookupAnswer(late) =>
      if IsCommitted(w, Current(w.phase).id) && !late { AcceptOk(w, w.decided[Current(w.phase).id].grant); }
      else { EmptyLookupOk(w, late); }
    case RecoveryAnswer(i, late) => RecoveryAnswerOk(w, i, late);
    case LoadPage(_) => LoadOk(w, e);
    case Resume => LoadOk(w, e);
    case _ =>
  }

  lemma ClientStepInv(w: World, e: Event)
    requires Inv(w) && ClientOnly(e) && Enabled(w, e)
    ensures Inv(Step(w, e))
  {
    ClientPhaseOk(w, e);
    ClientStepFrame(w, e);
    CoreKept(w, Step(w, e));
  }

  lemma ClientStepFrame(w: World, e: Event)
    requires ClientOnly(e) && Enabled(w, e)
    ensures var w' := Step(w, e); w' == w.(phase := w'.phase, asked := w'.asked)
  {
  }

  lemma DrawInv(w: World, op: Operation)
    requires Inv(w) && Enabled(w, Draw(op))
    ensures Inv(Step(w, Draw(op)))
  {
    var w' := Step(w, Draw(op));
    FreshMinting(w.minted, op);
    DrawCore(w, w', op);
    assert PhaseOk(w') by {
      forall a | a in op ensures a !in w.posts {}
    }
  }

  lemma DrawCore(w: World, w': World, op: Operation)
    requires CoreInv(w) && w.saved.None? && WellFormed(op) && (forall a | a in op :: a.id !in w.minted)
    requires w' == w.(saved := Some(op), phase := w'.phase, minted := w'.minted)
    requires forall a | a in op :: a.id in w'.minted && w'.minted[a.id] == a.selection
    requires forall id | id in w.minted :: id in w'.minted && w'.minted[id] == w.minted[id]
    ensures CoreInv(w')
  {
    assert CommittedIds(w') == CommittedIds(w);
    assert PrefixSafe(w', op) by {
      forall a | a in op ensures a !in w.posts {}
    }
    forall c | c in w.closed ensures OwnOp(w', c.op) && Settled(w', c) && Ids(c.op) !! Ids(op) {
      assert OwnOp(w, c.op);
      SettledKept(w, w', c);
      forall id | id in Ids(c.op) ensures id !in Ids(op) {}
    }
    forall a | a in w.posts ensures Owned(w', a) { assert Owned(w, a) && InClosed(w, a); assert InClosed(w', a); }
  }

  lemma {:induction false} FreshMinting(minted: map<Id, string>, op: Operation)
    requires forall i, j | 0 <= i < j < |op| :: op[i].id != op[j].id
    requires forall a | a in op :: a.id !in minted
    ensures forall a | a in op :: a.id in Mint(minted, op) && Mint(minted, op)[a.id] == a.selection
    ensures forall id | id in minted :: id in Mint(minted, op) && Mint(minted, op)[id] == minted[id]
  {
    if op != [] {
      FreshMinting(minted, op[1..]);
      forall a | a in op[1..] ensures a.id != op[0].id {
        var j :| 0 <= j < |op[1..]| && op[1..][j] == a;
        assert op[j + 1] == a;
      }
      assert forall a | a in op :: a == op[0] || a in op[1..];
    }
  }

  lemma PostInv(w: World)
    requires Inv(w) && Enabled(w, Post)
    ensures Inv(Step(w, Post))
  {
    PostPhase(w);
    PostCore(w);
  }

  lemma PostPhase(w: World)
    requires Inv(w) && Enabled(w, Post)
    ensures PhaseOk(Step(w, Post))
  {
    var w' := Step(w, Post);
    var p := w.phase;
    var a := Current(p);
    assert a in w'.posts;
    forall j | |p.results| + 1 <= j < |p.op| && p.op[j] in w'.posts && p.op[j].id !in p.known
      ensures p.op[j].id in w'.asked
    {
      assert p.op[j].id != a.id;
    }
  }

  lemma PostCore(w: World)
    requires Inv(w) && Enabled(w, Post)
    ensures CoreInv(Step(w, Post))
  {
    var w' := Step(w, Post);
    var p := w.phase;
    var a := Current(p);
    assert a in p.op && a.id in Ids(p.op);
    assert CommittedIds(w') == CommittedIds(w);
    PostSettled(w, w', a);
    forall b | b in w'.posts ensures Owned(w', b) {
      if b in w.posts { assert Owned(w, b); if InClosed(w, b) { assert InClosed(w', b); } }
    }
    forall i, j | 0 <= i < j < |p.op| && p.op[j] in w'.posts ensures IsCommitted(w', p.op[i].id) {
      if p.op[j] !in w.posts { assert p.op[j].id == a.id; assert j == |p.results|; }
    }
  }

  /** Posting an action of the saved operation touches no erased one. */
  lemma PostSettled(w: World, w': World, a: Action)
    requires w.saved.Some? && a.id in Ids(w.saved.value) && Apart(w, w.saved.value)
    requires w' == w.(phase := w'.phase, wire := w'.wire, posts := w.posts + [a], asked := w'.asked)
    requires forall c | c in w.closed :: OwnOp(w, c.op) && Settled(w, c)
    ensures forall c | c in w'.closed :: OwnOp(w', c.op) && Settled(w', c)
  {
    forall c | c in w.closed ensures OwnOp(w', c.op) && Settled(w', c) {
      forall j | 0 <= j < |c.op| ensures c.op[j] in w'.posts ==> c.op[j] in w.posts {
        assert c.op[j].id in Ids(c.op);
      }
      SettledKept(w, w', c);
    }
  }

  lemma ConfirmedKept(w: World, w': World, op: Operation, gs: seq<Grant>)
    requires Confirmed(w, op, gs) && DecisionsKept(w, w')
    ensures Confirmed(w', op, gs)
  {
  }

  lemma DeliverPhase(w: World, w': World)
    requires PhaseOk(w) && DecisionsKept(w, w')
    requires w'.phase == w.phase && w'.saved == w.saved && w'.posts == w.posts && w'.asked == w.asked
    ensures PhaseOk(w')
  {
    match w.phase
    case Recovering(_, op, found) => assert Truthful(w', Known(found));
    case Resolving(op, results, known, attempt, cleared) =>
      ConfirmedKept(w, w', op, results);
      assert Truthful(w', known);
    case Waiting(op, results, known, attempt) =>
      ConfirmedKept(w, w', op, results);
      assert Truthful(w', known);
    case _ =>
  }

  lemma DeliverLedger(w: World, e: Event)
    requires w.tickets + |CommittedIds(w)| == w.earned && e.Deliver? && Enabled(w, e)
    ensures var w' := Step(w, e); w'.tickets + |CommittedIds(w')| == w'.earned
  {
    var w' := Step(w, e);
    var id := e.action.id;
    if id in w.decided {
      assert w'.decided == w.decided;
      assert CommittedIds(w') == CommittedIds(w);
    } else {
      assert w'.decided == w.decided[id := if e.commit then Committed(e.grant) else Refused];
      assert CommittedIds(w') == if e.commit then CommittedIds(w) + {id} else CommittedIds(w);
    }
  }

  lemma DeliverFrame(w: World, e: Event)
    requires Inv(w) && e.Deliver? && Enabled(w, e)
    ensures var w' := Step(w, e);
            && w' == w.(wire := w'.wire, decided := w'.decided, tickets := w'.tickets) && w'.wire <= w.wire
            && DecisionsKept(w, w')
            && e.action in w.posts && Action(e.action.id, w.minted[e.action.id]) == e.action
            && (forall id | id in w'.decided :: id in w.decided || id == e.action.id)
            && (forall id | IsCommitted(w', id) :: w'.decided[id].grant != "")
  {
  }

  lemma DeliverInv(w: World, e: Event)
    requires Inv(w) && e.Deliver? && Enabled(w, e)
    ensures Inv(Step(w, e))
  {
    var w' := Step(w, e);
    DeliverFrame(w, e);
    DeliverLedger(w, e);
    DeliverPhase(w, w');
    DeliverCore(w, w', e.action);
  }

  lemma DeliverCore(w: World, w': World, a: Action)
    requires CoreInv(w) && DecisionsKept(w, w')
    requires w' == w.(wire := w'.wire, decided := w'.decided, tickets := w'.tickets) && w'.wire <= w.wire
    requires a in w.posts && (forall id | id in w'.decided :: id in w.decided || id == a.id)
    requires forall id | IsCommitted(w', id) :: w'.decided[id].grant != ""
    requires w'.tickets + |CommittedIds(w')| == w'.earned
    ensures CoreInv(w')
  {
    forall c | c in w.closed ensures Settled(w', c) {
      assert OwnOp(w, c.op);
      SettledKept(w, w', c);
    }
    OwnersKept(w, w');
  }

  lemma LedgerInv(w: World, e: Event)
    requires Inv(w) && (e.Earn? || e.Drop?) && Enabled(w, e)
    ensures Inv(Step(w, e))
  {
    var w' := Step(w, e);
    assert CommittedIds(w') == CommittedIds(w);
    SamePhase(w, w');
    SameClosed(w, w');
    OwnersKept(w, w');
  }

  lemma SamePhase(w: World, w': World)
    requires PhaseOk(w)
    requires w' == w.(wire := w'.wire, tickets := w'.tickets, earned := w'.earned)
    ensures PhaseOk(w')
  {
    DeliverPhase(w, w');
  }

  lemma SameClosed(w: World, w': World)
    requires w' == w.(wire := w'.wire, tickets := w'.tickets, earned := w'.earned)
    requires forall c | c in w.closed :: OwnOp(w, c.op) && Settled(w, c)
    ensures forall c | c in w'.closed :: OwnOp(w', c.op) && Settled(w', c)
  {
    forall c | c in w.closed ensures OwnOp(w', c.op) && Settled(w', c) { SettledKept(w, w', c); }
  }

  lemma OwnersKept(w: World, w': World)
    requires w'.posts == w.posts && w'.saved == w.saved && w'.closed == w.closed
    requires forall b | b in w.posts :: Owned(w, b)
    ensures forall b | b in w'.posts :: Owned(w', b)
  {
    forall b | b in w'.posts ensures Owned(w', b) {
      assert Owned(w, b);
      if InClosed(w, b) { assert InClosed(w', b); }
    }
  }

  /** Erasing a settled operation. */
  lemma EraseInv(w: World, ending: Ending, phase: Phase)
    requires Inv(w) && w.saved.Some? && Settled(w, Closed(w.saved.value, ending))
    requires phase.Stale? || phase.Ready?
    ensures Inv(Erase(w, w.saved.value, ending).(phase := phase))
  {
    ErasedInv(w, Erase(w, w.saved.value, ending).(phase := phase), Closed(w.saved.value, ending));
  }

  lemma ErasedInv(w: World, w': World, c: Closed)
    requires Inv(w) && w.saved == Some(c.op) && Settled(w, c)
    requires w' == w.(saved := None, closed := w.closed + [c], phase := w'.phase)
    requires w'.phase.Stale? || w'.phase.Ready?
    ensures Inv(w')
  {
    EraseSettled(w, w', c);
    EraseOwned(w, w', c);
    SameLedger(w, w');
  }

  lemma SameLedger(w: World, w': World)
    requires LedgerOk(w)
    requires w'.decided == w.decided && w'.minted == w.minted && w'.posts == w.posts
    requires w'.tickets == w.tickets && w'.earned == w.earned
    ensures LedgerOk(w')
  {
    assert CommittedIds(w') == CommittedIds(w);
  }

  lemma EraseSettled(w: World, w': World, c: Closed)
    requires w' == w.(saved := None, closed := w.closed + [c], phase := w'.phase)
    requires OwnOp(w, c.op) && Settled(w, c) && forall d | d in w.closed :: OwnOp(w, d.op) && Settled(w, d)
    ensures forall d | d in w'.closed :: OwnOp(w', d.op) && Settled(w', d)
  {
    forall d | d in w'.closed ensures OwnOp(w', d.op) && Settled(w', d) {
      assert d in w.closed || d == c;
      SettledKept(w, w', d);
    }
  }

  lemma EraseOwned(w: World, w': World, c: Closed)
    requires w.saved == Some(c.op) && w'.posts == w.posts && w'.closed == w.closed + [c]
    requires forall a | a in w.posts :: Owned(w, a)
    ensures forall a | a in w'.posts :: InClosed(w', a)
  {
    forall a | a in w.posts ensures InClosed(w', a) {
      assert Owned(w, a);
      if a in c.op {
        assert c in w'.closed;
      } else {
        var d :| d in w.closed && a in d.op;
        assert d in w'.closed;
      }
    }
  }

  lemma RecoveryDoneInv(w: World)
    requires Inv(w) && Enabled(w, RecoveryDone)
    ensures Inv(Step(w, RecoveryDone))
  {
    var p := w.phase;
    var grants := Recovered(p.op, p.found);
    if Distinct(grants) && !p.resume && |grants| == |p.op| {
      RecoveredConfirmed(w, p.op, p.found);
      EraseInv(w, Completed(grants), Ready(false));
    } else {
      RecoveryPhase(w);
      CoreKept(w, Step(w, RecoveryDone));
    }
  }

  /** What the lookups found is enough to go on with, or to wait. */
  lemma RecoveryPhase(w: World)
    requires PhaseOk(w) && Enabled(w, RecoveryDone)
    requires Step(w, RecoveryDone).saved == w.saved
    ensures PhaseOk(Step(w, RecoveryDone))
  {
    if Step(w, RecoveryDone).phase.Resolving? {
      assert LookedUp(w, w.phase.op, Known(w.phase.found), 0) by {
        forall j | 0 <= j < |w.phase.op| ensures w.phase.op[j].id in w.phase.found {
          assert w.phase.op[j] in w.phase.op;
        }
      }
    }
  }

  lemma ReplyInv(w: World)
    requires Inv(w) && Enabled(w, Reply)
    ensures Inv(Step(w, Reply))
  {
    var a := Current(w.phase);
    match w.decided[a.id]
    case Committed(g) =>
      AcceptOk(w, g);
      CoreKept(w, Step(w, Reply));
    case Refused =>
      RefusedIsLast(w);
      EraseInv(w, Stopped(w.phase.results), Stale);
  }

  lemma FinishInv(w: World)
    requires Inv(w) && Enabled(w, Finish)
    ensures Inv(Step(w, Finish))
  {
    EraseInv(w, Completed(w.phase.results), Stale);
  }

  lemma DecidedWerePosted(w: World, op: Operation)
    requires CoreInv(w) && OwnOp(w, op)
    ensures forall a | a in op && a.id in w.decided :: a in w.posts
  {
    forall a | a in op && a.id in w.decided ensures a in w.posts {
      assert a == Action(a.id, w.minted[a.id]);
    }
  }

  /** An action after an undecided or refused one has not been posted. */
  lemma RefusedIsLast(w: World)
    requires Inv(w) && Enabled(w, Reply) && w.decided[Current(w.phase).id].Refused?
    ensures Settled(w, Closed(w.phase.op, Stopped(w.phase.results)))
  {
    var p := w.phase;
    var at := |p.results|;
    assert !IsCommitted(w, p.op[at].id);
    DecidedWerePosted(w, p.op);
  }

  lemma StepInv(w: World, e: Event)
    requires Inv(w) && Enabled(w, e)
    ensures Inv(Step(w, e))
  {
    match e
    case Draw(op) => DrawInv(w, op);
    case Post => PostInv(w);
    case Deliver(_, _, _, _) => DeliverInv(w, e);
    case Drop(_) => LedgerInv(w, e);
    case Earn => LedgerInv(w, e);
    case RecoveryDone => RecoveryDoneInv(w);
    case Reply => ReplyInv(w);
    case Finish => FinishInv(w);
    case _ => ClientStepInv(w, e);
  }

  lemma {:induction false} RunInv(w: World, es: seq<Event>)
    requires Inv(w) && Legal(w, es)
    ensures Inv(After(w, es))
    decreases |es|
  {
    if es != [] {
      StepInv(w, es[0]);
      RunInv(Step(w, es[0]), es[1..]);
    }
  }
}
