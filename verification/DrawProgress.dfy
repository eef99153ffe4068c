/** When a saved draw can still be finished: exactly when the server's grants for its
    actions are pairwise different. Then a page load, at most one resumption and one answered
    POST are enough; otherwise no run ever erases it. */
module DrawProgress {
  import opened Basics
  import opened DrawProtocol
  import opened DrawInvariant
  import opened DrawTheorems

  /** Two actions of `op` were committed with the same grant. */
  ghost predicate Repeats(w: World, op: Operation) {
    exists i, j :: 0 <= i < j < |op| && SameGrant(w, op[i].id, op[j].id)
  }

  predicate SameGrant(w: World, a: Id, b: Id) {
    IsCommitted(w, a) && IsCommitted(w, b) && w.decided[a].grant == w.decided[b].grant
  }

  // ---- with a repeated grant: never -----------------------------------------------------

  lemma StepStuck(w: World, e: Event, op: Operation)
    requires Inv(w) && Enabled(w, e) && w.saved == Some(op) && Repeats(w, op)
    ensures Step(w, e).saved == Some(op) && Repeats(Step(w, e), op)
  {
    var i, j :| 0 <= i < j < |op| && SameGrant(w, op[i].id, op[j].id);
    DecisionsStep(w, e);
    StaysSame(w, Step(w, e), op[i].id, op[j].id);
    if e.RecoveryDone? { RecoveryStuck(w, op, i, j); }
    else if e.Finish? || e.Reply? { WorkStuck(w, e, op, i, j); }
    else { OnlyThreeErase(w, e, op); }
  }

  lemma WorkStuck(w: World, e: Event, op: Operation, i: nat, j: nat)
    requires Inv(w) && Enabled(w, e) && w.saved == Some(op) && (e.Finish? || e.Reply?)
    requires i < j < |op| && SameGrant(w, op[i].id, op[j].id)
    ensures Step(w, e).saved == Some(op)
  {
    NotWhileWorking(w, op, i, j);
  }

  lemma StaysSame(w: World, w': World, a: Id, b: Id)
    requires DecisionsKept(w, w') && SameGrant(w, a, b)
    ensures SameGrant(w', a, b)
  {
  }

  lemma OnlyThreeErase(w: World, e: Event, op: Operation)
    requires Enabled(w, e) && w.saved == Some(op) && !e.RecoveryDone? && !e.Finish? && !e.Reply?
    ensures Step(w, e).saved == Some(op)
  {
  }

  lemma RecoveryStuck(w: World, op: Operation, i: nat, j: nat)
    requires PhaseOk(w) && Enabled(w, RecoveryDone) && w.saved == Some(op)
    requires i < j < |op| && SameGrant(w, op[i].id, op[j].id)
    ensures Step(w, RecoveryDone).saved == Some(op)
  {
    var found := w.phase.found;
    var gs := Recovered(op, found);
    RecoveredInOrder(op, found);
    if |gs| == |op| {
      assert op[i].id in Known(found) && op[j].id in Known(found);
      assert gs[i] == gs[j];
    }
  }

  /** A session that has both grants confirmed, or is past a refusal, is impossible. */
  lemma NotWhileWorking(w: World, op: Operation, i: nat, j: nat)
    requires Inv(w) && w.saved == Some(op) && i < j < |op| && SameGrant(w, op[i].id, op[j].id)
    requires w.phase.Resolving? || w.phase.Waiting?
    ensures |w.phase.results| <= j
    ensures |w.phase.results| <= j && w.phase.Waiting? ==>
              Current(w.phase).id in w.decided ==> w.decided[Current(w.phase).id].Committed?
  {
    assert op[j] in op && Action(op[j].id, w.minted[op[j].id]) == op[j];
    assert op[j] in w.posts;
  }

  /** When every lookup found a grant, the recovered grants are those of the actions. */
  lemma RecoveredInOrder(op: Operation, found: map<Id, Option<Grant>>)
    requires forall a | a in op :: a.id in found
    ensures |Recovered(op, found)| == |op| ==>
              forall i | 0 <= i < |op| :: found[op[i].id].Some? && Recovered(op, found)[i] == found[op[i].id].value
  {
    if forall a | a in op :: found[a.id].Some? {
      forall i | 0 <= i < |op| ensures found[op[i].id].Some? { assert op[i] in op; }
    }
  }

  lemma {:induction false} StuckForever(w: World, es: seq<Event>, op: Operation)
    requires Inv(w) && Legal(w, es) && w.saved == Some(op) && Repeats(w, op)
    ensures After(w, es).saved == Some(op)
    decreases |es|
  {
    if es != [] {
      StepInv(w, es[0]);
      StepStuck(w, es[0], op);
      StuckForever(Step(w, es[0]), es[1..], op);
    }
  }

  // ---- without: a way out -----------------------------------------------------------------

  lemma {:induction false} Then(w: World, es: seq<Event>, fs: seq<Event>)
    requires Legal(w, es) && Legal(After(w, es), fs)
    ensures Legal(w, es + fs) && After(w, es + fs) == After(After(w, es), fs)
    decreases |es|
  {
    if es == [] {
      assert es + fs == fs;
    } else {
      Then(Step(w, es[0]), es[1..], fs);
      assert (es + fs)[1..] == es[1..] + fs;
    }
  }

  lemma First(w: World, e: Event, es: seq<Event>)
    requires Enabled(w, e) && Legal(Step(w, e), es)
    ensures Legal(w, [e] + es) && After(w, [e] + es) == After(Step(w, e), es)
  {
    assert ([e] + es)[1..] == es;
  }

  /** The tab is looking up `op`, and the answers so far are those of the server. */
  ghost predicate Looking(w: World, op: Operation, resume: bool, k: nat) {
    && w.saved == Some(op) && WellFormed(op) && k <= |op|
    && w.phase.Recovering? && w.phase.op == op && w.phase.resume == resume
    && (forall i | 0 <= i < |op| :: op[i].id in w.phase.found <==> i < k)
    && (forall id | id in w.phase.found :: w.phase.found[id] == Answer(w, id))
  }

  function Answer(w: World, id: Id): Option<Grant> {
    if IsCommitted(w, id) then Some(w.decided[id].grant) else None
  }

  /** Only the tab moved. */
  ghost predicate TabOnly(w: World, w': World) { w' == w.(phase := w'.phase, asked := w'.asked) }

  lemma {:induction false} AnswerRest(w: World, op: Operation, resume: bool, k: nat) returns (es: seq<Event>)
    requires Looking(w, op, resume, k)
    ensures Legal(w, es) && TabOnly(w, After(w, es)) && Looking(After(w, es), op, resume, |op|)
    decreases |op| - k
  {
    if k == |op| {
      es := [];
    } else {
      var w' := Step(w, RecoveryAnswer(k, false));
      AnswerOne(w, op, resume, k);
      var rest := AnswerRest(w', op, resume, k + 1);
      First(w, RecoveryAnswer(k, false), rest);
      es := [RecoveryAnswer(k, false)] + rest;
    }
  }

  lemma AnswerOne(w: World, op: Operation, resume: bool, k: nat)
    requires Looking(w, op, resume, k) && k < |op|
    ensures Enabled(w, RecoveryAnswer(k, false))
    ensures var w' := Step(w, RecoveryAnswer(k, false)); TabOnly(w, w') && Looking(w', op, resume, k + 1)
  {
  }

  lemma {:induction false} RecoveredDistinct(op: Operation, found: map<Id, Option<Grant>>)
    requires forall a | a in op :: a.id in found
    requires forall i, j | 0 <= i < j < |op| ::
               !(found[op[i].id].Some? && found[op[j].id].Some? && found[op[i].id] == found[op[j].id])
    ensures Distinct(Recovered(op, found))
    ensures forall g | g in Recovered(op, found) :: exists i :: 0 <= i < |op| && found[op[i].id] == Some(g)
  {
    if op != [] {
      var tail := op[1..];
      assert forall a | a in tail :: a in op;
      assert forall i | 0 <= i < |tail| :: tail[i] == op[i + 1];
      RecoveredDistinct(tail, found);
      forall g | g in Recovered(tail, found)
        ensures exists i :: 0 < i < |op| && found[op[i].id] == Some(g)
      {
        var i :| 0 <= i < |tail| && found[tail[i].id] == Some(g);
        assert found[op[i + 1].id] == Some(g);
      }
      assert found[op[0].id].Some? ==> found[op[0].id].value !in Recovered(tail, found);
      assert forall g | g in Recovered(op, found) :: g in Recovered(tail, found) || found[op[0].id] == Some(g);
    }
  }

  /** All answers are in: the lookups are consistent and the tab may go on. */
  lemma AllAnswered(w: World, op: Operation, resume: bool)
    requires Looking(w, op, resume, |op|) && !Repeats(w, op)
    ensures Enabled(w, RecoveryDone) && Distinct(Recovered(op, w.phase.found))
  {
    forall a | a in op ensures a.id in w.phase.found {
      var i :| 0 <= i < |op| && op[i] == a;
    }
    forall i, j | 0 <= i < j < |op|
      ensures !(w.phase.found[op[i].id].Some? && w.phase.found[op[j].id].Some? &&
                      w.phase.found[op[i].id] == w.phase.found[op[j].id])
    {
      assert !SameGrant(w, op[i].id, op[j].id);
    }
    RecoveredDistinct(op, w.phase.found);
  }

  /** The session has confirmed the first k actions and knows which others are committed. */
  ghost predicate Working(w: World, op: Operation, k: nat) {
    && w.saved == Some(op) && WellFormed(op) && k < |op|
    && w.phase.Resolving? && w.phase.op == op && w.phase.attempt == 0 && w.phase.cleared
    && |w.phase.results| == k
    && (forall i | 0 <= i < k :: IsCommitted(w, op[i].id) && w.phase.results[i] == w.decided[op[i].id].grant)
    && (forall i | 0 <= i < |op| :: op[i].id in w.phase.known <==> IsCommitted(w, op[i].id))
    && (forall i | 0 <= i < |op| && op[i].id in w.phase.known :: w.phase.known[op[i].id] == w.decided[op[i].id].grant)
    && exists i :: k <= i < |op| && !IsCommitted(w, op[i].id)
  }

  lemma {:induction false} WorkOff(w: World, op: Operation, k: nat) returns (es: seq<Event>)
    requires Working(w, op, k) && !Repeats(w, op)
    ensures Legal(w, es) && After(w, es).saved.None? && After(w, es).tickets == w.tickets
    decreases |op| - k
  {
    if IsCommitted(w, op[k].id) {
      TakeOne(w, op, k);
      var rest := WorkOff(Step(w, TakeKnown), op, k + 1);
      First(w, TakeKnown, rest);
      es := [TakeKnown] + rest;
    } else {
      es := PostAndStop(w, op, k);
    }
  }

  lemma TakeOne(w: World, op: Operation, k: nat)
    requires Working(w, op, k) && !Repeats(w, op) && IsCommitted(w, op[k].id)
    ensures Enabled(w, TakeKnown)
    ensures var w' := Step(w, TakeKnown); Working(w', op, k + 1) && !Repeats(w', op) && w'.tickets == w.tickets
  {
    forall i | 0 <= i < k ensures w.phase.results[i] != w.decided[op[k].id].grant {
      assert !SameGrant(w, op[i].id, op[k].id);
    }
    var w' := Step(w, TakeKnown);
    forall i, j | 0 <= i < j < |op| ensures !SameGrant(w', op[i].id, op[j].id) {
      assert !SameGrant(w, op[i].id, op[j].id);
    }
  }

  /** The first uncommitted action is posted; a refusal, old or new, ends the session. */
  lemma PostAndStop(w: World, op: Operation, k: nat) returns (es: seq<Event>)
    requires Working(w, op, k) && !IsCommitted(w, op[k].id)
    ensures Legal(w, es) && After(w, es).saved.None? && After(w, es).tickets == w.tickets
  {
    var w1 := Step(w, Post);
    if op[k].id in w.decided {
      First(w1, Reply, []);
      First(w, Post, [Reply]);
      es := [Post] + [Reply];
    } else {
      var refuse := Deliver(op[k], false, "", true);
      var w2 := Step(w1, refuse);
      First(w2, Reply, []);
      First(w1, refuse, [Reply]);
      First(w, Post, [refuse] + [Reply]);
      es := [Post] + ([refuse] + [Reply]);
    }
  }

  /** From the saved operation and no tab at all: load the page, look everything up, and if
      something is missing resume. */
  lemma WayOut(w: World, op: Operation) returns (es: seq<Event>)
    requires w.saved == Some(op) && WellFormed(op) && !Repeats(w, op)
    ensures Legal(w, es) && After(w, es).saved.None? && After(w, es).tickets == w.tickets
  {
    var w0 := Step(w, Crash);
    var w1 := Step(w0, LoadPage(false));
    var lookups := AnswerRest(w1, op, false, 0);
    var w2 := After(w1, lookups);
    SameServer(w, w2, op);
    AllAnswered(w2, op, false);
    var w3 := Step(w2, RecoveryDone);
    var rest: seq<Event> := [];
    if w3.saved.Some? { rest := Resumed(w3, op); }
    First(w2, RecoveryDone, rest);
    Then(w1, lookups, [RecoveryDone] + rest);
    First(w0, LoadPage(false), lookups + ([RecoveryDone] + rest));
    es := [Crash] + ([LoadPage(false)] + (lookups + ([RecoveryDone] + rest)));
    First(w, Crash, [LoadPage(false)] + (lookups + ([RecoveryDone] + rest)));
  }

  lemma SameServer(w: World, w': World, op: Operation)
    requires w'.decided == w.decided && !Repeats(w, op)
    ensures !Repeats(w', op)
  {
    forall i, j | 0 <= i < j < |op| ensures !SameGrant(w', op[i].id, op[j].id) {
      assert !SameGrant(w, op[i].id, op[j].id);
    }
  }

  lemma Resumed(w: World, op: Operation) returns (es: seq<Event>)
    requires w.saved == Some(op) && WellFormed(op) && !Repeats(w, op) && w.phase == Ready(false)
    requires exists i :: 0 <= i < |op| && !IsCommitted(w, op[i].id)
    ensures Legal(w, es) && After(w, es).saved.None? && After(w, es).tickets == w.tickets
  {
    var w1 := Step(w, Resume);
    var lookups := AnswerRest(w1, op, true, 0);
    var w2 := After(w1, lookups);
    SameServer(w, w2, op);
    AllAnswered(w2, op, true);
    var w3 := Step(w2, RecoveryDone);
    SameServer(w, w3, op);
    StartsWorking(w2, op);
    var rest := WorkOff(w3, op, 0);
    First(w2, RecoveryDone, rest);
    Then(w1, lookups, [RecoveryDone] + rest);
    First(w, Resume, lookups + ([RecoveryDone] + rest));
    es := [Resume] + (lookups + ([RecoveryDone] + rest));
  }

  lemma StartsWorking(w: World, op: Operation)
    requires Looking(w, op, true, |op|) && Enabled(w, RecoveryDone) && Distinct(Recovered(op, w.phase.found))
    requires exists i :: 0 <= i < |op| && !IsCommitted(w, op[i].id)
    ensures Working(Step(w, RecoveryDone), op, 0)
  {
    KnownIsCommitted(w, op);
    var i :| 0 <= i < |op| && !IsCommitted(w, op[i].id);
    assert !IsCommitted(Step(w, RecoveryDone), op[i].id);
  }

  lemma KnownIsCommitted(w: World, op: Operation)
    requires Looking(w, op, true, |op|)
    ensures forall i | 0 <= i < |op| ::
              var known := Known(w.phase.found);
              && (op[i].id in known <==> IsCommitted(w, op[i].id))
              && (op[i].id in known ==> known[op[i].id] == w.decided[op[i].id].grant)
  {
  }

  /** The exact condition: a saved operation can still be erased, by some run, if and only if
      no two of its actions were committed with one grant. Nothing more is spent on the way. */
  lemma ClearableIffGrantsDiffer(w: World, history: seq<Event>, op: Operation)
    requires Reached(w, history) && w.saved == Some(op)
    ensures (exists es :: Legal(w, es) && After(w, es).saved != Some(op)) <==> !Repeats(w, op)
    ensures !Repeats(w, op) ==>
              exists es :: Legal(w, es) && After(w, es).saved.None? && After(w, es).tickets == w.tickets
  {
    ReachedInv(w, history);
    if Repeats(w, op) {
      forall es | Legal(w, es) ensures After(w, es).saved == Some(op) { StuckForever(w, es, op); }
    } else {
      var es := WayOut(w, op);
    }
  }
}
