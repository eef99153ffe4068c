/** The browse cache of the community adapter: public lists only, at most 24 paths, fifteen
    seconds, nothing shared across a change of token or language or across a clear.

    A promise is the number of the request behind it; `requests` records every request ever
    sent. The ordered map of the source is a sequence of slots with distinct paths. */
module ContentCache {
  import opened Basics

  /** One request: what it asked for, under which token and language and in which epoch it
      was sent, and what became of it. `settledAt` is history. */
  datatype Request = Request(path: string, scope: string, epoch: nat, pending: bool, expires: int,
                             settledAt: int, failed: bool)

  datatype Slot = Slot(path: string, promise: nat)

  datatype Cache = Cache(slots: seq<Slot>, epoch: nat, scope: Option<string>, requests: seq<Request>)

  const CAPACITY: nat := 24
  const FRESH_FOR: int := 15000

  function Empty(): Cache { Cache([], 0, None, []) }

  predicate StartsWith(s: string, prefix: string) { prefix <= s }

  /** The public browsing lists. */
  predicate Cacheable(path: string) {
    StartsWith(path, "/question/page?") || StartsWith(path, "/tags/page?") || StartsWith(path, "/search?")
  }

  // ---- the operations ------------------------------------------------------------------------

  function Cleared(c: Cache): Cache { c.(slots := [], epoch := c.epoch + 1) }

  /** A change of token or language empties the cache first. */
  function InScope(c: Cache, scope: string): Cache {
    if c.scope == Some(scope) then c else Cleared(c).(scope := Some(scope))
  }

  function Find(slots: seq<Slot>, path: string): Option<nat> {
    if slots == [] then None else if slots[0].path == path then Some(slots[0].promise) else Find(slots[1..], path)
  }

  function Without(slots: seq<Slot>, path: string): seq<Slot> {
    if slots == [] then [] else (if slots[0].path == path then [] else [slots[0]]) + Without(slots[1..], path)
  }

  predicate Live(c: Cache, p: nat, now: int) {
    p < |c.requests| && (c.requests[p].pending || c.requests[p].expires > now)
  }

  /** The promise a call may reuse. */
  function Reusable(c: Cache, path: string, now: int): Option<nat> {
    match Find(c.slots, path)
    case None => None
    case Some(p) => if Live(c, p, now) then Some(p) else None
  }

  function Sent(c: Cache, path: string, scope: string): Cache {
    c.(requests := c.requests + [Request(path, scope, c.epoch, true, 0, 0, false)])
  }

  /** A new entry goes to the end; the oldest one leaves when there are too many. */
  function Stored(slots: seq<Slot>, path: string, p: nat): seq<Slot> {
    var slots' := Without(slots, path) + [Slot(path, p)];
    if |slots'| > CAPACITY then slots'[1..] else slots'
  }

  function Called(c: Cache, path: string, scope: string, now: int): Cache {
    if !Cacheable(path) then Sent(c, path, scope)
    else
      var c1 := InScope(c, scope);
      if Reusable(c1, path, now).Some? then c1
      else Sent(c1, path, scope).(slots := Stored(c1.slots, path, |c1.requests|))
  }

  /** The promise the call returns. */
  function Promise(c: Cache, path: string, scope: string, now: int): nat {
    if !Cacheable(path) then |c.requests|
    else match Reusable(InScope(c, scope), path, now) case Some(p) => p case None => |c.requests|
  }

  function Settled(c: Cache, p: nat, now: int): Cache
    requires p < |c.requests|
  {
    c.(requests := c.requests[p := c.requests[p].(pending := false, expires := now + FRESH_FOR, settledAt := now)])
  }

  /** A failure takes its own slot out, and only in the epoch it belongs to. */
  function FailedAt(c: Cache, p: nat): Cache
    requires p < |c.requests|
  {
    var r := c.requests[p];
    var c' := c.(requests := c.requests[p := r.(failed := true)]);
    if r.epoch == c.epoch && Find(c.slots, r.path) == Some(p) then c'.(slots := Without(c.slots, r.path)) else c'
  }

  class AnswerAdapter {
    var contentCache: seq<Slot>
    var contentEpoch: nat
    var contentScope: Option<string>
    var requests: seq<Request>

    constructor ()
      ensures Contents() == Empty()
    {
      contentCache, contentEpoch, contentScope, requests := [], 0, None, [];
    }

    ghost function Contents(): Cache
      reads this
    {
      Cache(contentCache, contentEpoch, contentScope, requests)
    }

    method ClearContentCache()
      modifies this
      ensures Contents() == Cleared(old(Contents()))
    {
      contentCache := [];
      contentEpoch := contentEpoch + 1;
    }

    method Send(path: string, scope: string) returns (p: nat)
      modifies this`requests
      ensures Contents() == Sent(old(Contents()), path, scope) && p == |old(requests)|
    {
      p := |requests|;
      requests := requests + [Request(path, scope, contentEpoch, true, 0, 0, false)];
    }

    method Content(path: string, scope: string, now: int) returns (p: nat)
      modifies this
      ensures Contents() == Called(old(Contents()), path, scope, now)
      ensures p == Promise(old(Contents()), path, scope, now)
    {
      if !Cacheable(path) {
        p := Send(path, scope);
        return;
      }
      if contentScope != Some(scope) {
        ClearContentCache();
        contentScope := Some(scope);
      }
      var existing := Find(contentCache, path);
      if existing.Some? && existing.value < |requests|
         && (requests[existing.value].pending || requests[existing.value].expires > now) {
        return existing.value;
      }
      p := Send(path, scope);
      contentCache := Without(contentCache, path);
      contentCache := contentCache + [Slot(path, p)];
      if |contentCache| > CAPACITY { contentCache := contentCache[1..]; }
    }

    method OnValue(p: nat, now: int)
      requires p < |requests|
      modifies this`requests
      ensures Contents() == Settled(old(Contents()), p, now)
    {
      requests := requests[p := requests[p].(pending := false, expires := now + FRESH_FOR, settledAt := now)];
    }

    method OnError(p: nat)
      requires p < |requests|
      modifies this`requests, this`contentCache
      ensures Contents() == FailedAt(old(Contents()), p)
    {
      var r := requests[p];
      requests := requests[p := r.(failed := true)];
      if r.epoch == contentEpoch && Find(contentCache, r.path) == Some(p) {
        contentCache := Without(contentCache, r.path);
      }
    }
  }

  // ---- runs --------------------------------------------------------------------------------------

  datatype Event =
    | Call(path: string, scope: string, now: int)
    | Clear
    | Value(promise: nat, now: int)
    | Error(promise: nat)

  /** A request settles once, with a value or an error. */
  predicate Enabled(c: Cache, e: Event) {
    match e
    case Value(p, _) => p < |c.requests| && c.requests[p].pending && !c.requests[p].failed
    case Error(p) => p < |c.requests| && c.requests[p].pending && !c.requests[p].failed
    case _ => true
  }

  function Step(c: Cache, e: Event): Cache
    requires Enabled(c, e)
  {
    match e
    case Call(path, scope, now) => Called(c, path, scope, now)
    case Clear => Cleared(c)
    case Value(p, now) => Settled(c, p, now)
    case Error(p) => FailedAt(c, p)
  }

  predicate Legal(c: Cache, es: seq<Event>)
    decreases |es|
  {
    es == [] || (Enabled(c, es[0]) && Legal(Step(c, es[0]), es[1..]))
  }

  function After(c: Cache, es: seq<Event>): Cache
    requires Legal(c, es)
    decreases |es|
  {
    if es == [] then c else After(Step(c, es[0]), es[1..])
  }

  // ---- the invariant -------------------------------------------------------------------------------

  predicate DistinctPaths(slots: seq<Slot>) {
    forall i, j | 0 <= i < j < |slots| :: slots[i].path != slots[j].path
  }

  predicate SlotOk(c: Cache, s: Slot) {
    && s.promise < |c.requests|
    && var r := c.requests[s.promise];
       r.path == s.path && Some(r.scope) == c.scope && r.epoch == c.epoch && !r.failed
  }

  ghost predicate Inv(c: Cache) {
    && |c.slots| <= CAPACITY && DistinctPaths(c.slots)
    && (forall s | s in c.slots :: SlotOk(c, s))
    && (forall r | r in c.requests && !r.pending :: r.expires == r.settledAt + FRESH_FOR && !r.failed)
  }

  lemma {:induction false} WithoutMembers(slots: seq<Slot>, path: string)
    ensures |Without(slots, path)| <= |slots|
    ensures forall s :: s in Without(slots, path) <==> s in slots && s.path != path
  {
    if slots != [] {
      WithoutMembers(slots[1..], path);
      assert slots == [slots[0]] + slots[1..];
    }
  }

  lemma {:induction false} WithoutFacts(slots: seq<Slot>, path: string)
    requires DistinctPaths(slots)
    ensures DistinctPaths(Without(slots, path)) && |Without(slots, path)| <= |slots|
    ensures forall s :: s in Without(slots, path) <==> s in slots && s.path != path
    ensures Find(slots, path).Some? ==> |Without(slots, path)| == |slots| - 1
  {
    WithoutMembers(slots, path);
    if slots != [] {
      var first, tail := slots[0], slots[1..];
      WithoutFacts(tail, path);
      OthersDiffer(slots);
      if first.path == path {
        Absent(tail, path);
      } else {
        WithoutMembers(tail, path);
        FirstDiffers(first, Without(tail, path));
      }
    }
  }

  lemma OthersDiffer(slots: seq<Slot>)
    requires DistinctPaths(slots) && slots != []
    ensures forall s | s in slots[1..] :: s.path != slots[0].path
  {
    forall s | s in slots[1..] ensures s.path != slots[0].path {
      var i :| 0 <= i < |slots[1..]| && slots[1..][i] == s;
      assert slots[i + 1] == s;
    }
  }

  lemma FirstDiffers(first: Slot, rest: seq<Slot>)
    requires DistinctPaths(rest) && forall s | s in rest :: s.path != first.path
    ensures DistinctPaths([first] + rest)
  {
  }

  lemma {:induction false} Absent(slots: seq<Slot>, path: string)
    requires forall s | s in slots :: s.path != path
    ensures Without(slots, path) == slots && Find(slots, path).None?
  {
    if slots != [] { Absent(slots[1..], path); }
  }

  lemma {:induction false} FindFacts(slots: seq<Slot>, path: string)
    ensures Find(slots, path).Some? ==> Slot(path, Find(slots, path).value) in slots
    ensures Find(slots, path).None? ==> forall s | s in slots :: s.path != path
  {
    if slots != [] && slots[0].path != path { FindFacts(slots[1..], path); }
  }

  lemma CallInv(c: Cache, path: string, scope: string, now: int)
    requires Inv(c)
    ensures Inv(Called(c, path, scope, now))
  {
    var c' := Called(c, path, scope, now);
    var c1 := if Cacheable(path) then InScope(c, scope) else c;
    assert Inv(c1);
    if c' != c1 {
      forall r | r in c'.requests && !r.pending ensures r in c.requests {}
      if Cacheable(path) {
        WithoutFacts(c1.slots, path);
        var kept := Without(c1.slots, path);
        assert DistinctPaths(kept + [Slot(path, |c1.requests|)]);
        forall s | s in c'.slots ensures SlotOk(c', s) {
          assert s in kept || s == Slot(path, |c1.requests|);
        }
      }
    }
  }

  lemma ErrorInv(c: Cache, p: nat)
    requires Inv(c) && Enabled(c, Error(p))
    ensures Inv(FailedAt(c, p))
  {
    var r := c.requests[p];
    var c' := FailedAt(c, p);
    WithoutFacts(c.slots, r.path);
    FindFacts(c.slots, r.path);
    forall s | s in c'.slots ensures SlotOk(c', s) {
      assert SlotOk(c, s);
      if s.promise == p {
        SlotIsFound(c.slots, s);
      }
    }
    forall q | q in c'.requests && !q.pending ensures q in c.requests {}
  }

  lemma {:induction false} SlotIsFound(slots: seq<Slot>, s: Slot)
    requires DistinctPaths(slots) && s in slots
    ensures Find(slots, s.path) == Some(s.promise)
  {
    if slots[0] != s {
      var i :| 0 <= i < |slots| && slots[i] == s;
      assert slots[0].path != slots[i].path;
      assert slots[1..][i - 1] == s;
      SlotIsFound(slots[1..], s);
    }
  }

  lemma StepInv(c: Cache, e: Event)
    requires Inv(c) && Enabled(c, e)
    ensures Inv(Step(c, e))
  {
    match e
    case Call(path, scope, now) => CallInv(c, path, scope, now);
    case Error(p) => ErrorInv(c, p);
    case Value(p, now) =>
      var c' := Step(c, e);
      forall r | r in c'.requests && !r.pending ensures r == c'.requests[p] || r in c.requests {}
      forall s | s in c'.slots ensures SlotOk(c', s) { assert SlotOk(c, s); }
    case Clear =>
  }

  lemma {:induction false} RunInv(c: Cache, es: seq<Event>)
    requires Inv(c) && Legal(c, es)
    ensures Inv(After(c, es))
    decreases |es|
  {
    if es != [] {
      StepInv(c, es[0]);
      RunInv(Step(c, es[0]), es[1..]);
    }
  }

  /** Against a plain adapter that sends every request: in any run a call returns a request
      for the same path, sent under the present token and language, since the last clear, not
      known to have failed, and if answered then less than fifteen seconds ago. */
  lemma PromiseIsCurrent(es: seq<Event>, path: string, scope: string, now: int)
    requires Legal(Empty(), es)
    ensures var c := After(Empty(), es);
            var c', p := Called(c, path, scope, now), Promise(c, path, scope, now);
            && p < |c'.requests|
            && var r := c'.requests[p];
               && r.path == path && r.scope == scope && r.epoch == c'.epoch && !r.failed
               && (r.pending || now < r.settledAt + FRESH_FOR)
  {
    RunInv(Empty(), es);
    var c := After(Empty(), es);
    if Cacheable(path) {
      FindFacts(InScope(c, scope).slots, path);
    }
  }

  /** The map never holds more than 24 entries, one per path. */
  lemma BoundedSlots(es: seq<Event>)
    requires Legal(Empty(), es)
    ensures var c := After(Empty(), es); |c.slots| <= CAPACITY && DistinctPaths(c.slots)
  {
    RunInv(Empty(), es);
  }

  /** A late failure removes its own entry if that is still there, and nothing else. */
  lemma FailureRemovesOnlyItself(es: seq<Event>, p: nat)
    requires Legal(Empty(), es) && Enabled(After(Empty(), es), Error(p))
    ensures var c := After(Empty(), es);
            forall s :: s in FailedAt(c, p).slots <==> s in c.slots && s.promise != p
  {
    RunInv(Empty(), es);
    var c := After(Empty(), es);
    var r := c.requests[p];
    WithoutFacts(c.slots, r.path);
    FindFacts(c.slots, r.path);
    forall s | s in c.slots
      ensures s.promise == p <==> (r.epoch == c.epoch && Find(c.slots, r.path) == Some(p) && s.path == r.path)
    {
      assert SlotOk(c, s);
      SlotIsFound(c.slots, s);
    }
  }
}
