/** The draw recovery protocol: one browser tab, one unreliable network and the
    Pulse server, as a machine over events.

    The tab saves a list of action identifiers before the first POST. Every await
    point of the source is a boundary between two events, so a crash, a lost or late
    message and a reload may happen between any two client steps. `World` holds the
    whole state; `posts`, `asked`, `minted` and `closed` are history that no event
    reads to decide what the client does next. */
module DrawProtocol {
  import opened Basics

  type Id = string
  type Grant = string

  /** One saved action: its identifier, which is also the idempotency key, and the
      server's selection token. */
  datatype Action = Action(id: Id, selection: string)

  type Operation = seq<Action>

  /** The server's one-time decision about an action identifier. */
  datatype Decision = Committed(grant: Grant) | Refused

  datatype Phase =
    | Stale                       // nothing rendered: a page load must come first
    | Ready(draw: bool)           // page rendered; `draw` says the draw buttons are enabled
    | Recovering(resume: bool, op: Operation, found: map<Id, Option<Grant>>)
    | Resolving(op: Operation, results: seq<Grant>, known: map<Id, Grant>, attempt: nat, cleared: bool)
    | Waiting(op: Operation, results: seq<Grant>, known: map<Id, Grant>, attempt: nat)

  /** Why a saved operation was erased: all its actions gave these grants, or the first ones
      did and the next was refused. */
  datatype Ending = Completed(grants: seq<Grant>) | Stopped(grants: seq<Grant>)
  datatype Closed = Closed(op: Operation, ending: Ending)

  datatype World = World(
    saved: Option<Operation>,
    phase: Phase,
    wire: set<Action>,
    decided: map<Id, Decision>,
    tickets: nat,
    earned: nat,
    posts: seq<Action>,
    asked: set<Id>,               // a lookup came back empty since the last POST of this id
    minted: map<Id, string>,      // every identifier ever saved, with its selection
    closed: seq<Closed>
  )

  const MAX_ATTEMPTS: nat := 3

  /** A `late` lookup answer is empty although the action is committed by now: the server read
      its history before the commit. Found grants are never wrong, decisions being final. */
  datatype Event =
    | LoadPage(eligible: bool)
    | Draw(op: Operation)
    | Resume
    | RecoveryAnswer(i: nat, late: bool)
    | RecoveryFailed
    | RecoveryDone
    | TakeKnown
    | Post
    | Reply
    | ReplyLost
    | LookupAnswer(late: bool)
    | LookupFailed
    | Abort
    | Finish
    | Crash
    | Deliver(action: Action, commit: bool, grant: Grant, keep: bool)
    | Drop(action: Action)
    | Earn

  function Init(): World {
    World(None, Stale, {}, map[], 0, 0, [], {}, map[], [])
  }

  function Ids(op: Operation): set<Id> {
    set a | a in op :: a.id
  }

  predicate WellFormed(op: Operation) {
    && (|op| == 1 || |op| == 5)
    && forall i, j :: 0 <= i < j < |op| ==> op[i].id != op[j].id
  }

  predicate IsCommitted(w: World, id: Id) {
    id in w.decided && w.decided[id].Committed?
  }

  function CommittedIds(w: World): set<Id> {
    set id | id in w.decided && w.decided[id].Committed?
  }

  predicate Distinct(gs: seq<Grant>) {
    forall i, j :: 0 <= i < j < |gs| ==> gs[i] != gs[j]
  }

  // ---- client bookkeeping -----------------------------------------------------

  /** The lookups that found a grant, keyed by identifier. */
  function Known(found: map<Id, Option<Grant>>): map<Id, Grant> {
    map id | id in found && found[id].Some? :: found[id].value
  }

  /** The recovered grants in operation order. */
  function Recovered(op: Operation, found: map<Id, Option<Grant>>): (gs: seq<Grant>)
    requires forall a | a in op :: a.id in found
    ensures |gs| <= |op|
    ensures (forall a | a in op :: found[a.id].Some?)
            ==> |gs| == |op| && forall i | 0 <= i < |op| :: gs[i] == found[op[i].id].value
    ensures (exists a | a in op :: found[a.id].None?) ==> |gs| < |op|
  {
    if op == [] then []
    else
      assert forall a | a in op[1..] :: a in op;
      var rest := Recovered(op[1..], found);
      assert forall a | a in op :: a == op[0] || a in op[1..];
      match found[op[0].id]
      case Some(g) => [g] + rest
      case None => rest
  }

  /** A confirmed grant is appended; a grant seen before ends the session. */
  function Accept(p: Phase, g: Grant): Phase
    requires p.Resolving? || p.Waiting?
  {
    if g in p.results then Stale
    else Resolving(p.op, p.results + [g], p.known, 0, true)
  }

  /** After an uncertain outcome: the next attempt must look up before it posts. */
  function Retry(p: Phase): Phase
    requires p.Resolving? || p.Waiting?
  {
    if p.attempt + 1 < MAX_ATTEMPTS then Resolving(p.op, p.results, p.known, p.attempt + 1, false)
    else Stale
  }

  function Erase(w: World, op: Operation, ending: Ending): World {
    w.(saved := None, closed := w.closed + [Closed(op, ending)])
  }

  function Current(p: Phase): Action
    requires (p.Resolving? || p.Waiting?) && |p.results| < |p.op|
  {
    p.op[|p.results|]
  }

  function Mint(minted: map<Id, string>, op: Operation): map<Id, string>
    requires forall i, j | 0 <= i < j < |op| :: op[i].id != op[j].id
  {
    if op == [] then minted else Mint(minted, op[1..])[op[0].id := op[0].selection]
  }

  // ---- steps --------------------------------------------------------------------

  predicate Enabled(w: World, e: Event) {
    match e
    case LoadPage(_) => w.phase.Stale? || w.phase.Ready?
    case Draw(op) =>
      w.phase.Ready? && w.phase.draw && w.saved.None? && WellFormed(op)
      && forall a | a in op :: a.id !in w.minted
    case Resume => w.phase.Ready? && w.saved.Some?
    case RecoveryAnswer(i, _) =>
      w.phase.Recovering? && i < |w.phase.op| && w.phase.op[i].id !in w.phase.found
    case RecoveryFailed => w.phase.Recovering?
    case RecoveryDone => w.phase.Recovering? && forall a | a in w.phase.op :: a.id in w.phase.found
    case TakeKnown =>
      w.phase.Resolving? && w.phase.attempt == 0 && |w.phase.results| < |w.phase.op|
      && Current(w.phase).id in w.phase.known
    case Post =>
      w.phase.Resolving? && |w.phase.results| < |w.phase.op| && w.phase.cleared
      && Current(w.phase).id !in w.phase.known
    case Reply => w.phase.Waiting? && |w.phase.results| < |w.phase.op| && Current(w.phase).id in w.decided
    case ReplyLost => w.phase.Waiting?
    case LookupAnswer(_) => w.phase.Resolving? && |w.phase.results| < |w.phase.op| && !w.phase.cleared
    case LookupFailed => w.phase.Resolving? && !w.phase.cleared
    case Abort => w.phase.Resolving? || w.phase.Waiting?
    case Finish => w.phase.Resolving? && |w.phase.results| == |w.phase.op|
    case Crash => true
    case Deliver(a, commit, grant, _) =>
      a in w.wire && (commit && a.id !in w.decided ==> w.tickets > 0 && grant != "")
    case Drop(a) => a in w.wire
    case Earn => true
  }

  function Step(w: World, e: Event): World
    requires Enabled(w, e)
  {
    match e
    case LoadPage(eligible) =>
      if w.saved.Some? then w.(phase := Recovering(false, w.saved.value, map[]))
      else w.(phase := Ready(eligible))
    case Draw(op) =>
      w.(saved := Some(op), phase := Resolving(op, [], map[], 0, true),
         minted := Mint(w.minted, op))
    case Resume => w.(phase := Recovering(true, w.saved.value, map[]))
    case RecoveryAnswer(i, late) =>
      var id := w.phase.op[i].id;
      if IsCommitted(w, id) && !late
      then w.(phase := w.phase.(found := w.phase.found[id := Some(w.decided[id].grant)]))
      else w.(phase := w.phase.(found := w.phase.found[id := None]), asked := w.asked + {id})
    case RecoveryFailed => w.(phase := Stale)
    case RecoveryDone =>
      var p := w.phase;
      var grants := Recovered(p.op, p.found);
      if !Distinct(grants) then w.(phase := Stale)
      else if p.resume then w.(phase := Resolving(p.op, [], Known(p.found), 0, true))
      else if |grants| == |p.op| then Erase(w, p.op, Completed(grants)).(phase := Ready(false))
      else w.(phase := Ready(false))
    case TakeKnown => w.(phase := Accept(w.phase, w.phase.known[Current(w.phase).id]))
    case Post =>
      var a := Current(w.phase);
      w.(phase := Waiting(w.phase.op, w.phase.results, w.phase.known, w.phase.attempt),
         wire := w.wire + {a}, posts := w.posts + [a], asked := w.asked - {a.id})
    case Reply =>
      (match w.decided[Current(w.phase).id]
       case Committed(g) => w.(phase := Accept(w.phase, g))
       case Refused => Erase(w, w.phase.op, Stopped(w.phase.results)).(phase := Stale))
    case ReplyLost => w.(phase := Retry(w.phase))
    case LookupAnswer(late) =>
      var id := Current(w.phase).id;
      if IsCommitted(w, id) && !late then w.(phase := Accept(w.phase, w.decided[id].grant))
      else w.(phase := w.phase.(cleared := true), asked := w.asked + {id})
    case LookupFailed => w.(phase := Retry(w.phase))
    case Abort => w.(phase := Stale)
    case Finish => Erase(w, w.phase.op, Completed(w.phase.results)).(phase := Stale)
    case Crash => w.(phase := Stale)
    case Deliver(a, commit, grant, keep) =>
      var w' := if keep then w else w.(wire := w.wire - {a});
      if a.id in w.decided then w'
      else if commit then w'.(decided := w.decided[a.id := Committed(grant)], tickets := w.tickets - 1)
      else w'.(decided := w.decided[a.id := Refused])
    case Drop(a) => w.(wire := w.wire - {a})
    case Earn => w.(tickets := w.tickets + 1, earned := w.earned + 1)
  }

  predicate Legal(w: World, es: seq<Event>)
    decreases |es|
  {
    es == [] || (Enabled(w, es[0]) && Legal(Step(w, es[0]), es[1..]))
  }

  function After(w: World, es: seq<Event>): World
    requires Legal(w, es)
    decreases |es|
  {
    if es == [] then w else After(Step(w, es[0]), es[1..])
  }

  // ---- the inductive invariant ---------------------------------------------------

  /** A later action of `op` was posted only if every earlier one is committed. */
  ghost predicate PrefixSafe(w: World, op: Operation) {
    forall i, j :: 0 <= i < j < |op| && op[j] in w.posts ==> IsCommitted(w, op[i].id)
  }

  /** `gs` are the server's grants for the first |gs| actions of `op`, all different. */
  ghost predicate Confirmed(w: World, op: Operation, gs: seq<Grant>) {
    && |gs| <= |op|
    && Distinct(gs)
    && forall i | 0 <= i < |gs| :: IsCommitted(w, op[i].id) && w.decided[op[i].id].grant == gs[i]
  }

  /** Nothing about an erased operation is in doubt. */
  ghost predicate Settled(w: World, c: Closed) {
    && Confirmed(w, c.op, c.ending.grants)
    && match c.ending
       case Completed(gs) => |gs| == |c.op|
       case Stopped(gs) =>
         && |gs| < |c.op|
         && c.op[|gs|].id in w.decided && w.decided[c.op[|gs|].id].Refused?
         && forall j | |gs| < j < |c.op| :: c.op[j] !in w.posts && c.op[j].id !in w.decided
  }

  ghost predicate OwnOp(w: World, op: Operation) {
    WellFormed(op) && forall a | a in op :: a.id in w.minted && w.minted[a.id] == a.selection
  }

  ghost predicate Truthful(w: World, known: map<Id, Grant>) {
    forall id | id in known :: IsCommitted(w, id) && w.decided[id].grant == known[id]
  }

  /** Every action from `k` on that was already posted and is not known as committed
      has been looked up, with an empty answer, since its last POST. */
  ghost predicate LookedUp(w: World, op: Operation, known: map<Id, Grant>, k: nat) {
    forall j | k <= j < |op| :: op[j] in w.posts && op[j].id !in known ==> op[j].id in w.asked
  }

  ghost predicate PhaseOk(w: World) {
    match w.phase
    case Stale => true
    case Ready(draw) => draw ==> w.saved.None?
    case Recovering(_, op, found) =>
      && w.saved == Some(op)
      && Truthful(w, Known(found))
      && (forall a | a in op && a.id in found && found[a.id].None? :: a in w.posts ==> a.id in w.asked)
    case Resolving(op, results, known, attempt, cleared) =>
      && w.saved == Some(op)
      && Confirmed(w, op, results) && Truthful(w, known)
      && (if attempt == 0 then cleared && LookedUp(w, op, known, |results|)
          else |results| < |op| && op[|results|].id !in known && LookedUp(w, op, known, |results| + 1)
               && (cleared ==> op[|results|].id in w.asked))
    case Waiting(op, results, known, _) =>
      && w.saved == Some(op)
      && |results| < |op| && Confirmed(w, op, results) && Truthful(w, known)
      && op[|results|] in w.posts && op[|results|].id !in known && LookedUp(w, op, known, |results| + 1)
  }

  ghost predicate Apart(w: World, op: Operation) {
    forall c | c in w.closed :: Ids(c.op) !! Ids(op)
  }

  ghost predicate Inv(w: World) {
    PhaseOk(w) && CoreInv(w)
  }

  /** Everything but the tab's memory. */
  ghost predicate CoreInv(w: World) {
    RequestsOk(w) && MessagesOk(w) && LedgerOk(w)
  }

  ghost predicate RequestsOk(w: World) {
    && (w.saved.Some? ==> OwnOp(w, w.saved.value) && PrefixSafe(w, w.saved.value) && Apart(w, w.saved.value))
    && (forall c | c in w.closed :: OwnOp(w, c.op) && Settled(w, c))
  }

  ghost predicate MessagesOk(w: World) {
    && (forall a | a in w.wire :: a in w.posts)
    && (forall a | a in w.posts :: a.id in w.minted && w.minted[a.id] == a.selection)
    && (forall a | a in w.posts :: Owned(w, a))
  }

  ghost predicate LedgerOk(w: World) {
    && (forall id | id in w.decided :: id in w.minted && Action(id, w.minted[id]) in w.posts)
    && (forall id | IsCommitted(w, id) :: w.decided[id].grant != "")
    && w.tickets + |CommittedIds(w)| == w.earned
  }

  ghost predicate InClosed(w: World, a: Action) {
    exists c :: c in w.closed && a in c.op
  }

  /** A posted action belongs to the saved operation or to an erased one. */
  ghost predicate Owned(w: World, a: Action) {
    (w.saved.Some? && a in w.saved.value) || InClosed(w, a)
  }
}
