/** `PulseDrawSession` and its two callers, statement by statement, running inside the
    world of DrawProtocol. Each await lets the server, the network and the ledger move
    (`Await`); each effect of the client is one protocol event, fired only where the
    protocol enables it. So every run of this code is a legal trace, and what
    DrawTheorems proves of legal traces holds of it. A crash at an await is the trace up
    to there followed by `Crash`. */
module DrawSession {
  import opened Basics
  import opened DrawProtocol
  import opened DrawInvariant
  import opened DrawTheorems
  import opened DrawErrors
  import S = DrawStore
  import G = DrawProgress

  predicate IsEnv(e: Event) { e.Deliver? || e.Drop? || e.Earn? }

  /** What the environment leaves alone. */
  ghost predicate EnvOnly(w: World, w': World) {
    && DecisionsKept(w, w')
    && w' == w.(wire := w'.wire, decided := w'.decided, tickets := w'.tickets, earned := w'.earned)
  }

  /** The server's replies are honest. A valid result of an action is its committed grant. An
      empty history was true when the server read it, which may have been any time after the
      query left in world `sent`: the action was not committed then, but may be by now. */
  predicate HonestList(sent: World, w: World, id: Id, list: seq<Reward>) {
    && (forall r | r in list && ValidResult(r, id) :: IsCommitted(w, id) && w.decided[id].grant == r.grantId)
    && (list == [] ==> !IsCommitted(sent, id))
  }

  /** And a refusal code means the action was refused. */

  predicate HonestReply(w: World, id: Id, r: Outcome<Reward>) {
    match r
    case Done(x) => ValidResult(x, id) ==> IsCommitted(w, id) && w.decided[id].grant == x.grantId
    case Threw(code) => Refusal(code) ==> id in w.decided && w.decided[id].Refused?
  }

  /** The lookups of `op`, sent in world `sent`: what was found is committed, and what was
      committed when they were sent is found. */
  predicate CaughtUp(sent: World, w: World, op: Operation, found: map<Id, Option<Grant>>) {
    forall a | a in op && a.id in found :: AnswerHolds(sent, w, a.id, found[a.id])
  }

  predicate AnswerHolds(sent: World, w: World, id: Id, answer: Option<Grant>) {
    match answer
    case Some(g) => IsCommitted(w, id) && w.decided[id].grant == g
    case None => !IsCommitted(sent, id)
  }

  /** The same recovery goes on: only answers came in, and the server decided more. */
  ghost predicate SameRecovery(w: World, w': World) {
    && w.phase.Recovering? && w'.phase.Recovering?
    && w'.phase.op == w.phase.op && w'.phase.resume == w.phase.resume
    && w'.saved == w.saved && w'.closed == w.closed && w'.posts == w.posts && w'.minted == w.minted
    && DecisionsKept(w, w')
  }

  /** The store holds the saved request of the protocol, in a form `read` accepts. */
  ghost predicate Stored(slot: S.Slot, saved: Option<Operation>) {
    match slot
    case Absent => saved.None?
    case Corrupt => false
    case Value(v) => S.ValidSaved(v) && saved == Some(S.ToOperation(v))
  }

  /** The phase after the POST of the action in hand. */
  function Posted(p: Phase): Phase
    requires p.Resolving?
  {
    Waiting(p.op, p.results, p.known, p.attempt)
  }

  /** The action being waited for has been refused. */
  predicate RefusedHere(w: World)
    requires w.phase.Waiting?
  {
    |w.phase.results| < |w.phase.op|
    && Current(w.phase).id in w.decided && w.decided[Current(w.phase).id].Refused?
  }

  /** At most `n` POSTs were added, all of this action. */
  ghost predicate SentOnly(before: seq<Action>, after: seq<Action>, a: Action, n: nat) {
    && before <= after && |after| <= |before| + n
    && forall i | |before| <= i < |after| :: after[i] == a
  }

  function GrantOf(r: Option<Reward>): Option<Grant> { if r.Some? then Some(r.value.grantId) else None }

  function Indices(n: nat): (r: set<nat>)
    ensures forall i: nat :: i in r <==> i < n
  {
    if n == 0 then {} else Indices(n - 1) + {n - 1}
  }

  lemma Extend(es: seq<Event>, e: Event)
    requires Legal(Init(), es) && Enabled(After(Init(), es), e)
    ensures Legal(Init(), es + [e]) && After(Init(), es + [e]) == Step(After(Init(), es), e)
  {
    ExtendFrom(Init(), es, e);
  }

  lemma {:induction false} ExtendFrom(w: World, es: seq<Event>, e: Event)
    requires Legal(w, es) && Enabled(After(w, es), e)
    ensures Legal(w, es + [e]) && After(w, es + [e]) == Step(After(w, es), e)
    decreases |es|
  {
    if es == [] {
      assert [e][1..] == [];
    } else {
      ExtendFrom(Step(w, es[0]), es[1..], e);
      assert (es + [e])[1..] == es[1..] + [e];
    }
  }

  /** The identifiers and the offer a new draw would be made of. */
  datatype Offer = Offer(count: int, choice: Option<S.Choice>, ids: seq<Id>, writable: bool)

  predicate FreshOffer(w: World, o: Offer) {
    (o.count in {1, 5} ==> |o.ids| == o.count) && S.FreshIds(o.ids) && forall id | id in o.ids :: id !in w.minted
  }

  function BeginError(o: Offer): string
    requires o.count in {1, 5} ==> |o.ids| == o.count
    requires S.NewSaved(o.count, o.choice, o.ids).Err? || !o.writable
  {
    var made := S.NewSaved(o.count, o.choice, o.ids);
    if made.Err? then made.code else "storage_unavailable"
  }

  lemma NewRequestIsFresh(w: World, o: Offer)
    requires FreshOffer(w, o) && S.NewSaved(o.count, o.choice, o.ids).Ok?
    ensures forall a | a in S.ToOperation(S.NewSaved(o.count, o.choice, o.ids).value) :: a.id !in w.minted
    ensures S.ValidSaved(S.NewSaved(o.count, o.choice, o.ids).value)
  {
    S.BeginReadsBack(o.count, o.choice, o.ids);
    var op := S.ToOperation(S.NewSaved(o.count, o.choice, o.ids).value);
    forall i | 0 <= i < |op| ensures op[i].id !in w.minted { assert o.ids[i] in o.ids; }
  }

  lemma CaughtUpStays(sent: World, w: World, w': World, op: Operation, found: map<Id, Option<Grant>>)
    requires CaughtUp(sent, w, op, found) && DecisionsKept(w, w')
    ensures CaughtUp(sent, w', op, found)
  {
  }

  lemma OneMoreAnswer(sent: World, w: World, op: Operation, found: map<Id, Option<Grant>>,
                      id: Id, answer: Option<Grant>)
    requires CaughtUp(sent, w, op, found) && AnswerHolds(sent, w, id, answer)
    ensures CaughtUp(sent, w, op, found[id := answer])
  {
  }

  /** A recovery that failed: one lookup did, or two of the grants found are the same. */
  ghost predicate RecoveryFails(w: World, op: Operation, before: seq<string>, after: seq<string>, code: string) {
    after == before + [code] || (code == "action_pending" && after == before && G.Repeats(w, op))
  }

  /** The operation a call works on. */
  function Worked(w: World, resume: bool, o: Offer): Operation
    requires o.count in {1, 5} ==> |o.ids| == o.count
  {
    if resume then if w.saved.Some? then w.saved.value else []
    else
      var made := S.NewSaved(o.count, o.choice, o.ids);
      if made.Ok? then S.ToOperation(made.value) else []
  }

  /** Nothing to start: the buttons are disabled, `begin` refuses, nothing is saved, or the
      recovery of what is saved fails. */
  ghost predicate OpenFails(before: World, w: World, resume: bool, o: Offer,
                            told: seq<string>, errors: seq<string>, code: string)
    requires before.phase.Ready? && (o.count in {1, 5} ==> |o.ids| == o.count)
  {
    if resume then
      if before.saved.None? then code == "nothing_saved"
      else RecoveryFails(w, before.saved.value, told, errors, code)
    else if !before.phase.draw then code == "not_ready"
    else (S.NewSaved(o.count, o.choice, o.ids).Err? || !o.writable) && code == BeginError(o)
  }

  /** A resolution was given up with this code, or a grant came twice; what may follow is that
      the refusal could not be acted on. */
  ghost predicate WorkFails(w: World, op: Operation, before: seq<string>, after: seq<string>, code: string) {
    exists ran :: before <= ran && Ended(ran, after)
      && (GaveUp(before, ran, code) || (code == "action_pending" && G.Repeats(w, op)))
  }

  /** At most a note that the refusal could not be acted on. */
  ghost predicate Ended(before: seq<string>, after: seq<string>) {
    after == before || after == before + ["action_interrupted"] || after == before + ["storage_unavailable"]
  }

  lemma CloseExplains(told: seq<string>, begun: seq<string>, ran: seq<string>, after: seq<string>,
                      before: World, w: World, op: Operation, code: string)
    requires told <= begun <= ran && Ended(ran, after) && w.decided == before.decided
    requires GaveUp(begun, ran, code) || (code == "action_pending" && G.Repeats(before, op))
    ensures WorkFails(w, op, told, after, code)
  {
    if GaveUp(begun, ran, code) { GaveUpLater(told, begun, ran, code); } else { RepeatsStay(before, w, op); }
    assert told <= ran && Ended(ran, after);
  }

  lemma FailureStays(w: World, w': World, op: Operation, told: seq<string>, errors: seq<string>, code: string)
    requires RecoveryFails(w, op, told, errors, code) && w'.decided == w.decided
    ensures RecoveryFails(w', op, told, errors, code)
  {
    if G.Repeats(w, op) { RepeatsStay(w, w', op); }
  }

  lemma SentEarlier(sent: World, sent': World, w: World, op: Operation)
    requires sent'.decided == sent.decided && w.phase.Recovering? && CaughtUp(sent', w, op, w.phase.found)
    ensures CaughtUp(sent, w, op, w.phase.found)
  {
    forall a | a in op && a.id in w.phase.found ensures AnswerHolds(sent, w, a.id, w.phase.found[a.id]) {
      assert AnswerHolds(sent', w, a.id, w.phase.found[a.id]);
    }
  }

  lemma RepeatsStay(w: World, w': World, op: Operation)
    requires G.Repeats(w, op) && w'.decided == w.decided
    ensures G.Repeats(w', op)
  {
    var i, j :| 0 <= i < j < |op| && G.SameGrant(w, op[i].id, op[j].id);
    assert G.SameGrant(w', op[i].id, op[j].id);
  }

  /** The page fails for a lookup, a repeated grant or the store; otherwise it is rendered with
      the draw disabled, and the request erased if all of it was committed when it was begun. */
  ghost predicate PageOutcome(before: World, w: World, op: Operation, told: seq<string>,
                                errors: seq<string>, r: Outcome<()>) {
    match r
    case Threw(code) => RecoveryFails(w, op, told, errors, code)
    case Done(_) =>
      && errors == told && w.phase == Ready(false)
      && ((forall a | a in op :: IsCommitted(before, a.id)) ==> w.saved.None?)
      && (w.saved.None? ==> forall a | a in op :: IsCommitted(w, a.id))
  }

  lemma AllFound(sent: World, w: World, op: Operation)
    requires w.phase.Recovering? && w.phase.op == op && CaughtUp(sent, w, op, w.phase.found)
    requires forall a | a in op :: a.id in w.phase.found
    ensures (forall a | a in op :: IsCommitted(sent, a.id)) ==> |Recovered(op, w.phase.found)| == |op|
    ensures |Recovered(op, w.phase.found)| == |op| ==> forall a | a in op :: IsCommitted(w, a.id)
  {
  }

  /** Equal grants in the answers are equal grants of two actions. */
  lemma FoundRepeats(sent: World, w: World, op: Operation)
    requires w.phase.Recovering? && w.phase.op == op && CaughtUp(sent, w, op, w.phase.found)
    requires forall a | a in op :: a.id in w.phase.found
    requires !Distinct(Recovered(op, w.phase.found))
    ensures G.Repeats(w, op)
  {
    if !G.Repeats(w, op) {
      forall i, j | 0 <= i < j < |op|
        ensures !(w.phase.found[op[i].id].Some? && w.phase.found[op[i].id] == w.phase.found[op[j].id])
      {
        assert op[i] in op && op[j] in op;
        assert !G.SameGrant(w, op[i].id, op[j].id);
      }
      G.RecoveredDistinct(op, w.phase.found);
    }
  }

  /** A confirmed grant that comes again is a grant of two actions. */
  lemma GrantRepeats(before: World, w: World, op: Operation, results: seq<Grant>, g: Grant)
    requires Confirmed(before, op, results) && DecisionsKept(before, w) && |results| < |op|
    requires IsCommitted(w, op[|results|].id) && w.decided[op[|results|].id].grant == g && g in results
    ensures G.Repeats(w, op)
  {
    var i :| 0 <= i < |results| && results[i] == g;
    assert G.SameGrant(w, op[i].id, op[|results|].id);
  }

  lemma CameAgain(before: World, path: seq<Event>, w: World, trace: seq<Event>,
                  op: Operation, results: seq<Grant>, g: Grant)
    requires Reached(before, path) && Reached(w, trace) && path <= trace
    requires before.phase.Resolving? && before.phase.op == op && before.phase.results == results && |results| < |op|
    requires IsCommitted(w, op[|results|].id) && w.decided[op[|results|].id].grant == g && g in results
    ensures G.Repeats(w, op)
  {
    ReachedInv(before, path);
    DecisionsLast(before, path, w, trace);
    GrantRepeats(before, w, op, results, g);
  }

  /** A consistent recovery goes on with everything that was committed when it began. */
  lemma GoesOn(sent: World, w: World, op: Operation)
    requires Enabled(w, RecoveryDone) && w.phase.op == op && w.phase.resume && Distinct(Recovered(op, w.phase.found))
    requires CaughtUp(sent, w, op, w.phase.found)
    ensures Step(w, RecoveryDone) == w.(phase := Resolving(op, [], Known(w.phase.found), 0, true))
    ensures forall a | a in op && IsCommitted(sent, a.id) :: a.id in Known(w.phase.found)
  {
    forall a | a in op && IsCommitted(sent, a.id) ensures a.id in Known(w.phase.found) {
      assert AnswerHolds(sent, w, a.id, w.phase.found[a.id]);
    }
  }

  /** The lookups at the positions `left` have no answer yet, the others have. */
  predicate Unanswered(op: Operation, found: set<Id>, left: set<nat>) {
    && WellFormed(op) && (forall i | i in left :: i < |op| && op[i].id !in found)
    && forall i: nat | i < |op| && i !in left :: op[i].id in found
  }

  lemma AllAnswered(op: Operation, found: set<Id>)
    requires Unanswered(op, found, {})
    ensures forall a | a in op :: a.id in found
  {
  }

  lemma OneLessUnanswered(op: Operation, found: set<Id>, left: set<nat>, i: nat)
    requires Unanswered(op, found, left) && i in left
    ensures i < |op| && op[i].id !in found && Unanswered(op, found + {op[i].id}, left - {i})
  {
  }

  lemma {:induction false} DecisionsOver(w: World, es: seq<Event>)
    requires Legal(w, es)
    ensures DecisionsKept(w, After(w, es))
    decreases |es|
  {
    if es != [] {
      DecisionsStep(w, es[0]);
      DecisionsOver(Step(w, es[0]), es[1..]);
    }
  }

  /** Decisions last along a trace. */
  lemma DecisionsLast(before: World, path: seq<Event>, w: World, trace: seq<Event>)
    requires Reached(before, path) && Reached(w, trace) && path <= trace
    ensures DecisionsKept(before, w)
  {
    LegalSplit(Init(), trace, |path|);
    assert trace[..|path|] == path;
    DecisionsOver(before, trace[|path|..]);
  }

  lemma SavedOrErased(w: World, e: Event)
    requires Enabled(w, e) && !e.Draw?
    ensures Step(w, e).saved == w.saved || Step(w, e).saved.None?
  {
  }

  class Tab {
    var w: World
    var slot: S.Slot
    ghost var trace: seq<Event>
    ghost var errors: seq<string>                  // what went wrong so far, in order
    ghost var reply: History                       // the last history received

    ghost predicate Valid()
      reads this
    {
      Reached(w, trace) && Stored(slot, w.saved)
    }

    constructor ()
      ensures Valid() && w == Init() && errors == []
    {
      w, slot, trace, errors, reply := Init(), S.Absent, [], [], NotAList;
    }

    /** Any event but a new draw; erasing empties the store. */
    method Fire(e: Event)
      requires Valid() && Enabled(w, e) && !e.Draw?
      modifies this`w, this`slot, this`trace
      ensures Valid() && w == Step(old(w), e) && trace == old(trace) + [e]
    {
      Extend(trace, e);
      SavedOrErased(w, e);
      w := Step(w, e);
      trace := trace + [e];
      if w.saved.None? { slot := S.Absent; }
    }

    /** A new draw: the request is written before anything else happens. */
    method FireDraw(v: S.Saved)
      requires Valid() && S.ValidSaved(v) && Enabled(w, Draw(S.ToOperation(v)))
      modifies this`w, this`slot, this`trace
      ensures Valid() && w == Step(old(w), Draw(S.ToOperation(v))) && old(trace) <= trace
    {
      Extend(trace, Draw(S.ToOperation(v)));
      w := Step(w, Draw(S.ToOperation(v)));
      trace := trace + [Draw(S.ToOperation(v))];
      slot := S.Value(v);
    }

    /** Any number of server, network and ledger steps. */
    method Await()
      requires Valid()
      modifies this`w, this`slot, this`trace
      ensures Valid() && EnvOnly(old(w), w) && old(trace) <= trace
    {
      var n: nat := *;
      while n > 0
        invariant Valid() && EnvOnly(old(w), w) && old(trace) <= trace
      {
        var e: Event := *;
        if IsEnv(e) && Enabled(w, e) {
          DecisionsStep(w, e);
          Fire(e);
        }
        n := n - 1;
      }
    }

    /** Whether the user is still there, on the page. */
    method CanContinue() returns (ok: bool)
      modifies this`errors
      ensures errors == Noted(old(errors), if ok then None else Some("action_interrupted"))
    {
      ok := *;
      if !ok { errors := errors + ["action_interrupted"]; }
    }

    /** Whether the store can be written. */
    method StoreWorks() returns (ok: bool)
      modifies this`errors
      ensures errors == Noted(old(errors), if ok then None else Some("storage_unavailable"))
    {
      ok := *;
      if !ok { errors := errors + ["storage_unavailable"]; }
    }

    /** `client.rewards`: the reply to a query that left in world `sent`, now or before. */
    method QueryHistory(id: Id, sent: World) returns (h: History)
      requires Valid() && DecisionsKept(sent, w)
      modifies this
      ensures Valid() && EnvOnly(old(w), w) && old(trace) <= trace
      ensures h.Rewards? ==> HonestList(sent, w, id, h.list)
      ensures h.Failed? ==> !Refusal(h.code)
      ensures reply == h && errors == Noted(old(errors), LookupError(h, id))
    {
      Await();
      h := *;
      if h.Rewards? && !HonestList(sent, w, id, h.list) { h := Failed("pulse_unavailable"); }
      if h.Failed? && Refusal(h.code) { h := NotAList; }
      reply, errors := h, Noted(errors, LookupError(h, id));
    }

    /** `client.act`: the POST is on the wire when this returns, whatever the reply. */
    method Act(id: Id) returns (r: Outcome<Reward>)
      requires Valid() && w.phase.Resolving? && Enabled(w, Post) && Current(w.phase).id == id
      modifies this
      ensures Valid() && old(trace) <= trace && w.phase == Posted(old(w).phase)
      ensures w.saved == old(w.saved) && w.closed == old(w.closed) && w.posts == old(w.posts) + [Current(old(w).phase)]
      ensures HonestReply(w, id, r) && errors == Noted(old(errors), PostError(r, id))
    {
      Fire(Post);
      Await();
      r := *;
      if !HonestReply(w, id, r) { r := Threw("action_pending"); }
      errors := Noted(errors, PostError(r, id));
    }

    /** A result is the committed grant; no result means the action was not committed when the
        query left; anything else is an error. */
    method Lookup(action: Action, sent: World) returns (r: Outcome<Option<Reward>>)
      requires Valid() && DecisionsKept(sent, w)
      modifies this
      ensures Valid() && EnvOnly(old(w), w) && old(trace) <= trace
      ensures r.Done? && r.value.Some? ==>
                ValidResult(r.value.value, action.id)
                && IsCommitted(w, action.id) && w.decided[action.id].grant == r.value.value.grantId
      ensures r.Done? && r.value.None? ==> !IsCommitted(sent, action.id)
      ensures r.Threw? ==> !Refusal(r.code)
      ensures LookupGives(reply, action.id, r)
      ensures errors == Noted(old(errors), CodeOf(r))
    {
      var history := QueryHistory(action.id, sent);
      if history.Rewards? { FilterFindsUsable(history.list, action.id); }
      if history.Failed? { return Threw(history.code); }
      if history.NotAList? { return Threw("pulse_unavailable"); }
      var matches := Filter(history.list, action.id);
      if |matches| > 1 { return Threw("action_conflict"); }
      // Records that cannot be read may hide the grant: not an empty answer.
      if |matches| == 0 && |history.list| > 0 { return Threw("pulse_unavailable"); }
      if |matches| == 0 { return Done(None); }
      assert matches[0] in matches;
      r := Done(Some(matches[0]));
    }

    /** `recover`: the grants found, in operation order, all different. Posts nothing. */
    method Recover(op: Operation) returns (r: Outcome<seq<Grant>>)
      requires Valid() && w.phase.Recovering? && w.phase.op == op && w.phase.found == map[]
      modifies this
      ensures Valid() && old(trace) <= trace && SameRecovery(old(w), w)
      ensures r.Done? ==>
                && Enabled(w, RecoveryDone) && r.value == Recovered(op, w.phase.found) && Distinct(r.value)
                && CaughtUp(old(w), w, op, w.phase.found)
      ensures r.Threw? ==> !Refusal(r.code)
      ensures r.Done? ==> errors == old(errors)
      ensures r.Threw? ==> RecoveryFails(w, op, old(errors), errors, r.code)
    {
      var answered := LookUpAll();
      if answered.Threw? { return Threw(answered.code); }
      var grants := Recovered(op, w.phase.found);
      if exists i, j :: 0 <= i < j < |grants| && grants[i] == grants[j] {
        FoundRepeats(old(w), w, op);
        return Threw("action_pending");
      }
      r := Done(grants);
    }

    /** Sends a lookup for every action at once and takes the answers in whatever order they
        arrive. */
    method LookUpAll() returns (r: Outcome<()>)
      requires Valid() && w.phase.Recovering? && w.phase.found == map[]
      modifies this
      ensures Valid() && old(trace) <= trace && SameRecovery(old(w), w)
      ensures CaughtUp(old(w), w, w.phase.op, w.phase.found)
      ensures r.Done? ==> forall a | a in w.phase.op :: a.id in w.phase.found
      ensures r.Threw? ==> !Refusal(r.code)
      ensures errors == Noted(old(errors), CodeOf(r))
    {
      var sent := w;
      var op := w.phase.op;
      var left := Indices(|op|);
      IdsDistinct();
      ghost var told := errors;
      while left != {}
        invariant errors == told
        invariant Valid() && old(trace) <= trace && SameRecovery(sent, w) && CaughtUp(sent, w, op, w.phase.found)
        invariant Unanswered(op, w.phase.found.Keys, left)
      {
        var i :| i in left;
        OneLessUnanswered(op, w.phase.found.Keys, left, i);
        var taken := TakeAnswer(i, sent);
        if taken.Threw? { return Threw(taken.code); }
        left := left - {i};
      }
      AllAnswered(op, w.phase.found.Keys);
      r := Done(());
    }

    /** The answer to one of these lookups. */
    method TakeAnswer(i: nat, sent: World) returns (r: Outcome<()>)
      requires Valid() && SameRecovery(sent, w) && i < |w.phase.op| && w.phase.op[i].id !in w.phase.found
      requires CaughtUp(sent, w, w.phase.op, w.phase.found)
      modifies this
      ensures Valid() && old(trace) <= trace && SameRecovery(sent, w)
      ensures CaughtUp(sent, w, w.phase.op, w.phase.found)
      ensures r.Done? ==> w.phase.found.Keys == old(w.phase.found.Keys) + {w.phase.op[i].id}
      ensures r.Threw? ==> !Refusal(r.code)
      ensures errors == Noted(old(errors), CodeOf(r))
    {
      ghost var before := w;
      var op := w.phase.op;
      var answer := Lookup(op[i], sent);
      CaughtUpStays(sent, before, w, op, w.phase.found);
      if answer.Threw? { return Threw(answer.code); }
      OneMoreAnswer(sent, w, op, w.phase.found, op[i].id, GrantOf(answer.value));
      Fire(RecoveryAnswer(i, answer.value.None?));
      r := Done(());
    }

    lemma IdsDistinct()
      requires Valid() && (w.phase.Recovering? || w.phase.Resolving? || w.phase.Waiting?)
      ensures WellFormed(w.phase.op)
    {
      ReachedInv(w, trace);
    }

    /** Before a retry: pause, then ask the server whether the action was committed. */
    method LookFirst(action: Action) returns (r: Outcome<Option<Grant>>)
      requires Valid() && w.phase.Resolving? && w.phase.attempt > 0 && !w.phase.cleared
      requires |w.phase.results| < |w.phase.op| && Current(w.phase) == action
      modifies this
      ensures Valid() && old(trace) <= trace
      ensures w.saved == old(w.saved) && w.closed == old(w.closed) && w.posts == old(w.posts)
      ensures r.Done? && r.value.Some? ==>
                && w.phase == Accept(old(w.phase), r.value.value)
                && IsCommitted(w, action.id) && w.decided[action.id].grant == r.value.value
      ensures r.Done? && r.value.None? ==>
                w.phase == old(w.phase).(cleared := true) && !IsCommitted(old(w), action.id)
      ensures r.Threw? ==>
                && !Refusal(r.code)
                && w.phase == if Retryable(r.code) then Retry(old(w.phase)) else old(w.phase)
      ensures errors == Noted(old(errors), CodeOf(r))
    {
      Await();
      var active := CanContinue();
      if !active { return Threw("action_interrupted"); }
      var recovered := Lookup(action, w);
      if recovered.Threw? {
        if Retryable(recovered.code) { Fire(LookupFailed); }
        return Threw(recovered.code);
      }
      active := CanContinue();
      if !active { return Threw("action_interrupted"); }
      Fire(LookupAnswer(recovered.value.None?));
      if recovered.value.Some? { return Done(Some(recovered.value.value.grantId)); }
      r := Done(None);
    }

    /** One POST and its reply. */
    method PostOnce(action: Action) returns (r: Outcome<Grant>)
      requires Valid() && Enabled(w, Post) && Current(w.phase) == action
      modifies this
      ensures Valid() && old(trace) <= trace
      ensures w.saved == old(w.saved) && w.closed == old(w.closed) && w.posts == old(w.posts) + [action]
      ensures r.Done? ==>
                && w.phase == Accept(old(w.phase), r.value)
                && IsCommitted(w, action.id) && w.decided[action.id].grant == r.value
      ensures r.Threw? && Retryable(r.code) ==> w.phase == Retry(old(w.phase))
      ensures r.Threw? && !Retryable(r.code) ==>
                && w.phase == Posted(old(w.phase))
                && (Refusal(r.code) ==> RefusedHere(w))
      ensures errors == Noted(old(errors), CodeOf(r))
    {
      var result := Act(action.id);
      if result.Done? { OneIsUsable(result.value, action.id); }
      if result.Done? && ValidResult(result.value, action.id) {
        Fire(Reply);
        return Done(result.value.grantId);
      }
      var code := if result.Done? then "action_pending" else result.code;
      if Retryable(code) { Fire(ReplyLost); }
      r := Threw(code);
    }

    /** Up to three attempts at one action. The first posts; a later one looks up first and
        posts the same action again only when the history is empty. */
    method Resolve(action: Action) returns (r: Outcome<Grant>)
      requires Valid() && w.phase.Resolving? && w.phase.attempt == 0 && w.phase.cleared
      requires |w.phase.results| < |w.phase.op| && Current(w.phase) == action && action.id !in w.phase.known
      modifies this
      ensures Valid() && old(trace) <= trace && w.saved == old(w.saved) && w.closed == old(w.closed)
      ensures r.Done? ==>
                && IsCommitted(w, action.id) && w.decided[action.id].grant == r.value
                && w.phase == Accept(old(w.phase), r.value)
      ensures r.Threw? ==> w.phase.Stale? || w.phase.Resolving? || w.phase.Waiting?
      ensures r.Threw? && Refusal(r.code) ==> w.phase.Waiting? && w.phase.op == old(w.phase.op) && RefusedHere(w)
      ensures SentOnly(old(w.posts), w.posts, action, 3)
      ensures r.Threw? && Retryable(r.code) ==> w.phase.Stale?
      ensures Tried(old(errors), errors, CodeOf(r))
    {
      var p := w.phase;
      ghost var told := errors;
      r := Threw("");
      for attempt := 0 to 3
        invariant Valid() && old(trace) <= trace && w.saved == old(w.saved) && w.closed == old(w.closed)
        invariant w.phase == if attempt < 3 then Resolving(p.op, p.results, p.known, attempt, attempt == 0) else Stale
        invariant r.Threw? && (attempt > 0 ==> Retryable(r.code))
        invariant SentOnly(old(w.posts), w.posts, action, attempt)
        invariant Retried(told, errors, attempt) && (attempt == 3 ==> Tried(told, errors, CodeOf(r)))
      {
        ghost var heard := errors;
        r := Attempt(action);
        OneMoreTry(told, heard, attempt, CodeOf(r));
        if r.Done? || !Retryable(r.code) { return; }
      }
    }

    /** One attempt. */
    method Attempt(action: Action) returns (r: Outcome<Grant>)
      requires Valid() && w.phase.Resolving? && (w.phase.cleared <==> w.phase.attempt == 0)
      requires |w.phase.results| < |w.phase.op| && Current(w.phase) == action && action.id !in w.phase.known
      modifies this
      ensures Valid() && old(trace) <= trace && w.saved == old(w.saved) && w.closed == old(w.closed)
      ensures r.Done? ==>
                && IsCommitted(w, action.id) && w.decided[action.id].grant == r.value
                && w.phase == Accept(old(w.phase), r.value)
      ensures r.Threw? && Retryable(r.code) ==> w.phase == Retry(old(w.phase))
      ensures r.Threw? && !Retryable(r.code) ==>
                && (w.phase.Resolving? || w.phase.Waiting?)
                && (Refusal(r.code) ==> w.phase.Waiting? && w.phase.op == old(w.phase.op) && RefusedHere(w))
      ensures SentOnly(old(w.posts), w.posts, action, 1)
      ensures errors == Noted(old(errors), CodeOf(r))
    {
      var ready := Prepare(action);
      if ready.Threw? { return Threw(ready.code); }
      if ready.value.Some? { return Done(ready.value.value); }
      r := PostOnce(action);
    }

    /** Before the POST: the user is there, and unless this is the first attempt a lookup is. */
    method Prepare(action: Action) returns (r: Outcome<Option<Grant>>)
      requires Valid() && w.phase.Resolving? && (w.phase.cleared <==> w.phase.attempt == 0)
      requires |w.phase.results| < |w.phase.op| && Current(w.phase) == action && action.id !in w.phase.known
      modifies this
      ensures Valid() && old(trace) <= trace
      ensures w.saved == old(w.saved) && w.closed == old(w.closed) && w.posts == old(w.posts)
      ensures r.Done? && r.value.Some? ==>
                && w.phase == Accept(old(w.phase), r.value.value)
                && IsCommitted(w, action.id) && w.decided[action.id].grant == r.value.value
      ensures r.Done? && r.value.None? ==> w.phase == old(w.phase).(cleared := true)
      ensures r.Threw? ==>
                && !Refusal(r.code)
                && if Retryable(r.code) then w.phase == Retry(old(w.phase)) else w.phase.Resolving?
      ensures errors == Noted(old(errors), CodeOf(r))
    {
      var active := CanContinue();
      if !active { return Threw("action_interrupted"); }
      r := Done(None);
      if w.phase.attempt > 0 {
        r := LookFirst(action);
        if r.Threw? || r.value.Some? { return; }
      }
      active := CanContinue();
      if !active { r := Threw("action_interrupted"); }
    }

    /** The whole draw: actions in order, each confirmed before the next is touched, the store
        cleared only after the last. */
    method Run(op: Operation, known: map<Id, Grant>) returns (r: Outcome<seq<Grant>>)
      requires Valid() && w.phase == Resolving(op, [], known, 0, true)
      modifies this
      ensures Valid() && old(trace) <= trace
      ensures r.Done? ==>
                && w.saved.None? && w.phase.Stale? && w.closed == old(w.closed) + [Closed(op, Completed(r.value))]
                && |r.value| == |op| && Confirmed(w, op, r.value)
      ensures r.Threw? ==>
                && w.saved == old(w.saved) && w.closed == old(w.closed)
                && (w.phase.Stale? || w.phase.Resolving? || w.phase.Waiting?)
      ensures r.Threw? && Refusal(r.code) ==> w.phase.Waiting? && w.phase.op == op && RefusedHere(w)
      ensures old(errors) <= errors
      ensures r.Threw? ==> GaveUp(old(errors), errors, r.code) || (r.code == "action_pending" && G.Repeats(w, op))
    {
      var results: seq<Grant> := [];
      ghost var told := errors;
      while |results| < |op|
        invariant |results| <= |op| && Valid() && old(trace) <= trace
        invariant w.phase == Resolving(op, results, known, 0, true)
        invariant w.saved == old(w.saved) && w.closed == old(w.closed) && told <= errors
        decreases |op| - |results|
      {
        ghost var heard := errors;
        var grant := GrantFor(op, results, known);
        if grant.Threw? {
          if grant.code != "action_pending" || !G.Repeats(w, op) { GaveUpLater(told, heard, errors, grant.code); }
          return Threw(grant.code);
        }
        results := results + [grant.value];
      }
      ghost var heard := errors;
      var cleared := StoreWorks();
      if !cleared {
        GaveUpLater(told, heard, errors, "storage_unavailable");
        return Threw("storage_unavailable");
      }
      ReachedInv(w, trace);
      Fire(Finish);
      r := Done(results);
    }

    /** The next action's grant, and not one seen before. */
    method GrantFor(op: Operation, results: seq<Grant>, known: map<Id, Grant>) returns (r: Outcome<Grant>)
      requires Valid() && |results| < |op| && w.phase == Resolving(op, results, known, 0, true)
      modifies this
      ensures Valid() && old(trace) <= trace && w.saved == old(w.saved) && w.closed == old(w.closed)
      ensures r.Done? ==> w.phase == Resolving(op, results + [r.value], known, 0, true)
      ensures r.Threw? ==> w.phase.Stale? || w.phase.Resolving? || w.phase.Waiting?
      ensures r.Threw? && Refusal(r.code) ==> w.phase.Waiting? && w.phase.op == op && RefusedHere(w)
      ensures old(errors) <= errors
      ensures r.Threw? ==> Tried(old(errors), errors, Some(r.code)) || (r.code == "action_pending" && G.Repeats(w, op))
    {
      ghost var before, path := w, trace;
      r := KnownOrResolved(op, results, known);
      if r.Done? && r.value in results {
        CameAgain(before, path, w, trace, op, results, r.value);
        r := Threw("action_pending");
      }
    }

    /** The next action's grant: known, or resolved. */
    method KnownOrResolved(op: Operation, results: seq<Grant>, known: map<Id, Grant>) returns (r: Outcome<Grant>)
      requires Valid() && |results| < |op| && w.phase == Resolving(op, results, known, 0, true)
      modifies this
      ensures Valid() && old(trace) <= trace && w.saved == old(w.saved) && w.closed == old(w.closed)
      ensures r.Done? ==>
                && w.phase == Accept(old(w.phase), r.value)
                && IsCommitted(w, op[|results|].id) && w.decided[op[|results|].id].grant == r.value
      ensures r.Threw? ==> w.phase.Stale? || w.phase.Resolving? || w.phase.Waiting?
      ensures r.Threw? && Refusal(r.code) ==> w.phase.Waiting? && w.phase.op == op && RefusedHere(w)
      ensures old(errors) <= errors
      ensures r.Threw? ==> Tried(old(errors), errors, Some(r.code))
    {
      var action := op[|results|];
      if action.id in known {
        ReachedInv(w, trace);
        r := Done(known[action.id]);
        Fire(TakeKnown);
      } else {
        r := Resolve(action);
      }
    }

    /** `begin`: the saved request if there is one; otherwise a new one, written to the store
        before it is returned, or the error of an offer or a store that will not do. */
    method Begin(o: Offer) returns (r: Outcome<Operation>)
      requires Valid() && w.phase.Ready? && (w.saved.None? ==> w.phase.draw) && FreshOffer(w, o)
      modifies this`w, this`slot, this`trace
      ensures Valid() && old(trace) <= trace && w.posts == old(w.posts) && w.closed == old(w.closed)
      ensures old(w.saved).Some? ==> w == old(w) && r == Done(w.saved.value)
      ensures old(w.saved).None? ==>
                if S.NewSaved(o.count, o.choice, o.ids).Ok? && o.writable
                then r == Done(S.ToOperation(S.NewSaved(o.count, o.choice, o.ids).value))
                     && w == Step(old(w), Draw(r.value))
                else w == old(w) && r == Threw(BeginError(o))
    {
      if slot.Value? { return Done(S.ToOperation(slot.saved)); }
      var made := S.NewSaved(o.count, o.choice, o.ids);
      if made.Err? { return Threw(made.code); }
      if !o.writable { return Threw("storage_unavailable"); }
      S.BeginReadsBack(o.count, o.choice, o.ids);
      NewRequestIsFresh(w, o);
      FireDraw(made.value);
      r := Done(S.ToOperation(made.value));
    }

    /** The start of `submitPulse`: the request that `begin` gives, or the saved one with what
        the server already granted for it. */
    method Open(resume: bool, o: Offer) returns (r: Outcome<(Operation, map<Id, Grant>)>)
      requires Valid() && w.phase.Ready? && FreshOffer(w, o)
      modifies this
      ensures Valid() && old(trace) <= trace && w.posts == old(w.posts) && w.closed == old(w.closed)
      ensures old(w.saved).Some? ==> w.saved == old(w.saved)
      ensures r.Done? ==> w.phase == Resolving(r.value.0, [], r.value.1, 0, true) && w.saved == Some(r.value.0)
      ensures r.Done? && !resume ==>
                && old(w.saved).None? && S.NewSaved(o.count, o.choice, o.ids).Ok?
                && r.value == (S.ToOperation(S.NewSaved(o.count, o.choice, o.ids).value), map[])
      ensures r.Done? && resume ==> 
                && old(w.saved) == Some(r.value.0) && Truthful(w, r.value.1)
                && forall a | a in r.value.0 && IsCommitted(old(w), a.id) :: a.id in r.value.1
      ensures r.Threw? ==> w.saved == old(w.saved) && (Refusal(r.code) ==> !resume && w.saved.None?)
      ensures old(errors) <= errors
      ensures r.Threw? ==> OpenFails(old(w), w, resume, o, old(errors), errors, r.code)
      ensures r.Done? ==> r.value.0 == Worked(old(w), resume, o)
      ensures !resume ==> errors == old(errors)
    {
      ReachedInv(w, trace);
      if !resume && !w.phase.draw { return Threw("not_ready"); }
      if !resume {
        var begun := Begin(o);
        if begun.Threw? { return Threw(begun.code); }
        return Done((begun.value, map[]));
      }
      if w.saved.None? { return Threw("nothing_saved"); }
      r := Reopen();
    }

    /** The saved request, with what the server already granted for it. */
    method Reopen() returns (r: Outcome<(Operation, map<Id, Grant>)>)
      requires Valid() && w.phase.Ready? && w.saved.Some?
      modifies this
      ensures Valid() && old(trace) <= trace && w.posts == old(w.posts)
      ensures w.saved == old(w.saved) && w.closed == old(w.closed)
      ensures r.Done? ==>
                && w.phase == Resolving(r.value.0, [], r.value.1, 0, true) && w.saved == Some(r.value.0)
                && Truthful(w, r.value.1)
                && forall a | a in r.value.0 && IsCommitted(old(w), a.id) :: a.id in r.value.1
      ensures r.Threw? ==> !Refusal(r.code)
      ensures old(errors) <= errors
      ensures r.Threw? ==> RecoveryFails(w, old(w.saved).value, old(errors), errors, r.code)
    {
      var op := w.saved.value;
      var looked := LookUpSaved(op);
      if looked.Threw? { return Threw(looked.code); }
      KnownIsTruthful();
      GoesOn(old(w), w, op);
      r := Done((op, Known(w.phase.found)));
      Fire(RecoveryDone);
    }

    /** The lookups of a resumption. */
    method LookUpSaved(op: Operation) returns (r: Outcome<()>)
      requires Valid() && w.phase.Ready? && w.saved == Some(op)
      modifies this
      ensures Valid() && old(trace) <= trace && w.posts == old(w.posts)
      ensures w.saved == old(w.saved) && w.closed == old(w.closed)
      ensures r.Done? ==>
                && Enabled(w, RecoveryDone) && w.phase.op == op && w.phase.resume
                && Distinct(Recovered(op, w.phase.found)) && CaughtUp(old(w), w, op, w.phase.found)
                && errors == old(errors)
      ensures r.Threw? ==> !Refusal(r.code) && RecoveryFails(w, op, old(errors), errors, r.code)
    {
      ghost var before := w;
      Fire(Resume);
      ghost var asked := w;
      var recovered := RecoverOrLeave(op);
      if recovered.Threw? { return Threw(recovered.code); }
      SentEarlier(before, asked, w, op);
      r := Done(());
    }

    /** A recovery that fails leaves the page with nothing rendered. */
    method RecoverOrLeave(op: Operation) returns (r: Outcome<seq<Grant>>)
      requires Valid() && w.phase.Recovering? && w.phase.op == op && w.phase.found == map[]
      modifies this
      ensures Valid() && old(trace) <= trace && w.posts == old(w.posts)
      ensures w.saved == old(w.saved) && w.closed == old(w.closed)
      ensures r.Done? ==>
                && Enabled(w, RecoveryDone) && w.phase.op == op && w.phase.resume == old(w.phase).resume
                && r.value == Recovered(op, w.phase.found) && Distinct(r.value)
                && CaughtUp(old(w), w, op, w.phase.found) && errors == old(errors)
      ensures r.Threw? ==> w.phase.Stale? && !Refusal(r.code) && RecoveryFails(w, op, old(errors), errors, r.code)
    {
      r := Recover(op);
      if r.Threw? {
        ghost var before := w;
        Fire(RecoveryFailed);
        FailureStays(before, w, op, old(errors), errors, r.code);
      }
    }

    lemma KnownIsTruthful()
      requires Valid() && w.phase.Recovering?
      ensures Truthful(w, Known(w.phase.found)) && w.saved == Some(w.phase.op)
    {
      ReachedInv(w, trace);
    }

    /** The catch block: a refusal erases the request, anything else leaves it saved. */
    method Close(code: string)
      requires Valid() && (w.phase.Stale? || w.phase.Resolving? || w.phase.Waiting?)
      requires Refusal(code) ==> w.phase.Waiting? && RefusedHere(w)
      modifies this
      ensures Valid() && old(trace) <= trace && w.phase.Stale? && w.posts == old(w.posts)
      ensures w.closed == old(w.closed) ==> w.saved == old(w.saved)
      ensures w.closed != old(w.closed) ==>
                Refusal(code) && w.saved.None? && old(w.saved) == Some(old(w.phase).op)
                && w.closed == old(w.closed) + [Closed(old(w.phase).op, Stopped(old(w.phase).results))]
      ensures old(errors) <= errors
      ensures w.decided == old(w.decided) && Ended(old(errors), errors)
      ensures SaysRefused(code) && w.closed == old(w.closed) ==> errors != old(errors)
    {
      ReachedInv(w, trace);
      var clears := Refusal(code);
      if clears { clears := CanContinue(); }
      if clears { clears := StoreWorks(); }
      if clears {
        Fire(Reply);
      } else if w.phase.Resolving? || w.phase.Waiting? {
        Fire(Abort);
      }
    }

    /** `submitPulse`: a new draw of what is offered, or the resumption of the saved one. The
        store is cleared when the run completes or on a refusal, never else. */
    method SubmitPulse(resume: bool, o: Offer) returns (r: Outcome<seq<Grant>>)
      requires Valid() && w.phase.Ready? && FreshOffer(w, o)
      modifies this
      ensures Valid() && old(trace) <= trace
      ensures r.Done? ==>
                && w.saved.None? && |w.closed| == |old(w.closed)| + 1
                && w.closed[|old(w.closed)|].ending == Completed(r.value)
      ensures r.Threw? && w.closed != old(w.closed) ==>
                Refusal(r.code) && w.saved.None? && |w.closed| == |old(w.closed)| + 1
                && w.closed[|old(w.closed)|].ending.Stopped?
      ensures old(w.saved).Some? && w.closed == old(w.closed) ==> w.saved == old(w.saved)
      ensures old(errors) <= errors
      ensures r.Threw? ==>
                || OpenFails(old(w), w, resume, o, old(errors), errors, r.code)
                || WorkFails(w, Worked(old(w), resume, o), old(errors), errors, r.code)
      ensures r.Threw? && SaysRefused(r.code) && w.closed == old(w.closed) && errors != old(errors) ==>
                errors[|errors| - 1] in {"action_interrupted", "storage_unavailable"}
    {
      ghost var told := errors;
      var started := Open(resume, o);
      if started.Threw? { return Threw(started.code); }
      ghost var begun := errors;
      r := Run(started.value.0, started.value.1);
      if r.Threw? {
        ghost var ran, before := errors, w;
        Close(r.code);
        CloseExplains(told, begun, ran, errors, before, w, started.value.0, r.code);
      }
    }

    /** `pulsePage`: render, and when a request is saved, look its actions up first; erase it
        only when all of them are found. */
    method PulsePage(eligible: bool) returns (r: Outcome<()>)
      requires Valid() && (w.phase.Stale? || w.phase.Ready?)
      modifies this
      ensures Valid() && old(trace) <= trace && w.posts == old(w.posts)
      ensures w.closed != old(w.closed) ==>
                w.saved.None? && old(w.saved).Some? && |w.closed| == |old(w.closed)| + 1
                && w.closed[|old(w.closed)|].op == old(w.saved).value && w.closed[|old(w.closed)|].ending.Completed?
      ensures w.closed == old(w.closed) ==> w.saved == old(w.saved)
      ensures w.phase.Ready? && w.phase.draw ==> w.saved.None?
      ensures old(errors) <= errors
      ensures old(w.saved).None? ==> r.Done? && w.phase == Ready(eligible) && errors == old(errors)
      ensures old(w.saved).Some? ==> PageOutcome(old(w), w, old(w.saved).value, old(errors), errors, r)
    {
      Await();
      var pending := w.saved;
      Fire(LoadPage(eligible));
      if pending.Some? { r := RecoverPending(); } else { r := Done(()); }
    }

    /** The part of it for a saved request. */
    method RecoverPending() returns (r: Outcome<()>)
      requires Valid() && w.phase.Recovering? && !w.phase.resume && w.phase.found == map[]
      requires w.saved == Some(w.phase.op)
      modifies this
      ensures Valid() && old(trace) <= trace && w.posts == old(w.posts)
      ensures w.closed != old(w.closed) ==>
                w.saved.None? && |w.closed| == |old(w.closed)| + 1
                && w.closed[|old(w.closed)|].op == old(w.saved).value && w.closed[|old(w.closed)|].ending.Completed?
      ensures w.closed == old(w.closed) ==> w.saved == old(w.saved)
      ensures w.phase == Ready(false) || w.phase.Stale?
      ensures old(errors) <= errors && PageOutcome(old(w), w, old(w.phase).op, old(errors), errors, r)
    {
      ghost var before := w;
      var op := w.phase.op;
      var recovered := RecoverOrLeave(op);
      if recovered.Threw? { return Threw(recovered.code); }
      AllFound(before, w, op);
      if |recovered.value| == |op| {
        var clears := StoreWorks();
        if !clears {
          Fire(RecoveryFailed);
          return Threw("storage_unavailable");
        }
      }
      Fire(RecoveryDone);
      r := Done(());
    }

    /** Any sequence of page loads, draws, resumptions, pauses and crashes. */
    method Live(rounds: nat)
      requires Valid()
      modifies this
      ensures Valid() && old(trace) <= trace
    {
      var n := rounds;
      while n > 0
        invariant Valid() && old(trace) <= trace
      {
        var choice: int := *;
        if choice == 0 {
          Fire(Crash);
        } else if choice == 1 && (w.phase.Stale? || w.phase.Ready?) {
          var eligible: bool := *;
          var page := PulsePage(eligible);
        } else if choice == 2 && w.phase.Ready? {
          var resume: bool := *;
          var o: Offer := *;
          if FreshOffer(w, o) { var submitted := SubmitPulse(resume, o); }
        } else {
          Await();
        }
        n := n - 1;
      }
    }
  }
}
