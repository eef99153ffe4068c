/** The coalescing wake-up queue: at most 64 users pending, at most two workers, one mutex.

    `Queue` is what the mutex guards. The class has the three critical sections of the
    source; the machine below interleaves them for any number of goroutines. A wake-up is
    owed from the moment it is accepted until the next job of its user starts. */
module DeliveryQueue {
  import opened Basics

  type User = string

  const CAPACITY: nat := 64
  const MAX_WORKERS: nat := 2

  // ---- what the mutex guards ------------------------------------------------------------

  datatype Queue = Queue(pending: map<User, bool>, queue: seq<User>, workers: int)

  predicate Accepts(q: Queue, u: User) { u in q.pending || |q.pending| < CAPACITY }

  predicate Spawns(q: Queue, u: User) { u !in q.pending && |q.pending| < CAPACITY && q.workers < MAX_WORKERS }

  function Enqueued(q: Queue, u: User): Queue {
    if u in q.pending then q.(pending := q.pending[u := true])
    else if |q.pending| >= CAPACITY then q
    else Queue(q.pending[u := false], q.queue + [u], if q.workers < MAX_WORKERS then q.workers + 1 else q.workers)
  }

  /** The top of the worker loop: exit when nothing is queued, else take the first user. */
  function Taken(q: Queue): Queue {
    if q.queue == [] then q.(workers := q.workers - 1)
    else q.(queue := q.queue[1..], pending := q.pending[q.queue[0] := false])
  }

  /** The end of a job: queue the user again when a wake-up arrived meanwhile. */
  function Finished(q: Queue, u: User): Queue {
    if u in q.pending && q.pending[u] then q.(queue := q.queue + [u])
    else q.(pending := q.pending - {u})
  }

  class PulseExperienceDelivery {
    var pending: map<User, bool>
    var queue: seq<User>
    var workers: int
    ghost var tries: seq<(User, bool)>             // every call of `sync` with its outcome

    constructor ()
      ensures Contents() == Queue(map[], [], 0)
    {
      pending, queue, workers := map[], [], 0;
      tries := [];
    }

    ghost function Contents(): Queue
      reads this
    {
      Queue(pending, queue, workers)
    }

    method Enqueue(user: User) returns (spawn: bool)
      modifies this`pending, this`queue, this`workers
      ensures Contents() == Enqueued(old(Contents()), user)
      ensures spawn == Spawns(old(Contents()), user)
    {
      spawn := false;
      if user in pending {
        pending := pending[user := true];
        return;
      }
      if |pending| >= CAPACITY {
        return;
      }
      pending := pending[user := false];
      queue := queue + [user];
      if workers < MAX_WORKERS {
        workers := workers + 1;
        spawn := true;
      }
    }

    method TakeNext() returns (user: Option<User>)
      modifies this`pending, this`queue, this`workers
      ensures Contents() == Taken(old(Contents()))
      ensures user == if old(queue) == [] then None else Some(old(queue)[0])
    {
      if |queue| == 0 {
        workers := workers - 1;
        return None;
      }
      user := Some(queue[0]);
      queue := queue[1..];
      pending := pending[user.value := false];
    }

    method Finish(user: User)
      modifies this`pending, this`queue
      ensures Contents() == Finished(old(Contents()), user)
    {
      if user in pending && pending[user] {
        queue := queue + [user];
      } else {
        pending := pending - {user};
      }
    }

    /** The delivery itself, which may fail. */
    method Sync(user: User) returns (ok: bool)
      modifies this`tries
      ensures tries == old(tries) + [(user, ok)]
    {
      ok := *;
      tries := tries + [(user, ok)];
    }

    /** One job: it ends with the first success, or after exactly three failures. */
    method Deliver(user: User) returns (ok: bool)
      modifies this`tries
      ensures exists job :: tries == old(tries) + job && IsJob(job, user, ok)
    {
      ok := false;
      ghost var job: seq<(User, bool)> := [];
      for attempt := 0 to 3
        invariant tries == old(tries) + job && |job| == attempt && !ok
        invariant forall i | 0 <= i < attempt :: job[i] == (user, false)
      {
        ok := Sync(user);
        job := job + [(user, ok)];
        if ok {
          assert IsJob(job, user, ok);
          return;
        }
      }
      assert IsJob(job, user, ok);
    }

    /** The worker loop when nobody else wakes or works: every queued user is served once, in
        order, and the worker leaves nothing behind, whether deliveries succeed or not. */
    method Run() returns (served: seq<User>)
      requires pending.Keys == Members(queue) && NoRepeats(queue)
      modifies this
      ensures served == old(queue)
      ensures Contents() == Queue(map[], [], old(workers) - 1)
      ensures exists jobs :: tries == old(tries) + Flat(jobs) && AreJobs(jobs, served)
    {
      served := [];
      ghost var jobs: seq<seq<(User, bool)>> := [];
      while queue != []
        invariant served + queue == old(queue) && workers == old(workers)
        invariant tries == old(tries) + Flat(jobs) && AreJobs(jobs, served)
        invariant NoRepeats(queue) && forall u :: u in pending <==> u in queue
        decreases |queue|
      {
        ghost var line := queue;
        ghost var job;
        var user;
        user, job := ServeFirst();
        assert line == [user] + queue;
        assert (jobs + [job])[..|jobs|] == jobs;
        served, jobs := served + [user], jobs + [job];
      }
      var none := TakeNext();
    }

    /** One turn of that loop. */
    method ServeFirst() returns (user: User, ghost job: seq<(User, bool)>)
      requires queue != [] && NoRepeats(queue) && forall u :: u in pending <==> u in queue
      modifies this
      ensures queue == old(queue)[1..] && user == old(queue)[0] && workers == old(workers)
      ensures NoRepeats(queue) && forall u :: u in pending <==> u in queue
      ensures tries == old(tries) + job && (IsJob(job, user, true) || IsJob(job, user, false))
    {
      HeadLeaves(queue);
      var next := TakeNext();
      user := next.value;
      var ok := Deliver(user);
      job :| tries == old(tries) + job && IsJob(job, user, ok);
      Finish(user);
    }
  }

  /** The tries of one job: failures, then a success; or three failures. */
  predicate IsJob(job: seq<(User, bool)>, user: User, ok: bool) {
    && 1 <= |job| <= 3 && (!ok ==> |job| == 3)
    && forall i | 0 <= i < |job| :: job[i] == (user, ok && i == |job| - 1)
  }

  predicate AreJobs(jobs: seq<seq<(User, bool)>>, users: seq<User>) {
    |jobs| == |users| && forall i | 0 <= i < |jobs| :: IsJob(jobs[i], users[i], true) || IsJob(jobs[i], users[i], false)
  }

  function Flat<T>(parts: seq<seq<T>>): seq<T> {
    if parts == [] then [] else Flat(parts[..|parts| - 1]) + parts[|parts| - 1]
  }

  // ---- the machine ----------------------------------------------------------------------

  datatype Worker = AtTop | Running(user: User) | Gone

  /** `owed`, `accepted` and `started` are history: wake-ups accepted and not yet followed by
      a job start, and the counts of both. */
  datatype State = State(q: Queue, pool: seq<Worker>, owed: set<User>,
                         accepted: map<User, nat>, started: map<User, nat>)

  datatype Event = Wake(user: User) | Take(worker: nat) | Complete(worker: nat)

  function Count(m: map<User, nat>, u: User): nat { if u in m then m[u] else 0 }

  function Init(): State { State(Queue(map[], [], 0), [], {}, map[], map[]) }

  predicate Enabled(s: State, e: Event) {
    match e
    case Wake(_) => true
    case Take(i) => i < |s.pool| && s.pool[i].AtTop?
    case Complete(i) => i < |s.pool| && s.pool[i].Running?
  }

  function Step(s: State, e: Event): State
    requires Enabled(s, e)
  {
    match e
    case Wake(u) =>
      var s' := s.(q := Enqueued(s.q, u), pool := if Spawns(s.q, u) then s.pool + [AtTop] else s.pool);
      if Accepts(s.q, u)
      then s'.(owed := s.owed + {u}, accepted := s.accepted[u := Count(s.accepted, u) + 1])
      else s'
    case Take(i) =>
      if s.q.queue == [] then s.(q := Taken(s.q), pool := s.pool[i := Gone])
      else
        var u := s.q.queue[0];
        s.(q := Taken(s.q), pool := s.pool[i := Running(u)],
           owed := s.owed - {u}, started := s.started[u := Count(s.started, u) + 1])
    case Complete(i) =>
      s.(q := Finished(s.q, s.pool[i].user), pool := s.pool[i := AtTop])
  }

  predicate Legal(s: State, es: seq<Event>)
    decreases |es|
  {
    es == [] || (Enabled(s, es[0]) && Legal(Step(s, es[0]), es[1..]))
  }

  function After(s: State, es: seq<Event>): State
    requires Legal(s, es)
    decreases |es|
  {
    if es == [] then s else After(Step(s, es[0]), es[1..])
  }

  // ---- the invariant ----------------------------------------------------------------------

  function Live(pool: seq<Worker>): nat {
    if pool == [] then 0 else Live(pool[..|pool| - 1]) + if pool[|pool| - 1].Gone? then 0 else 1
  }

  function Active(pool: seq<Worker>): set<User> {
    set i | 0 <= i < |pool| && pool[i].Running? :: pool[i].user
  }

  function Members(queue: seq<User>): set<User> { set u | u in queue }

  predicate Flagged(q: Queue, u: User) { u in q.pending && q.pending[u] }

  ghost predicate Sizes(q: Queue, pool: seq<Worker>) {
    && q.workers == Live(pool) <= MAX_WORKERS
    && |q.pending.Keys| <= CAPACITY
    && (q.queue != [] ==> Live(pool) > 0)
  }

  /** The pending users are the queued ones and the running ones. */
  ghost predicate Partition(q: Queue, pool: seq<Worker>) { Covers(q, Active(pool)) }

  ghost predicate Covers(q: Queue, active: set<User>) {
    && (forall u :: u in q.pending <==> (u in q.queue || u in active))
    && (forall u :: !(u in q.queue && u in active))
  }

  predicate NoRepeats(queue: seq<User>) {
    forall i, j | 0 <= i < j < |queue| :: queue[i] != queue[j]
  }

  predicate Solo(pool: seq<Worker>) {
    forall i, j | 0 <= i < j < |pool| && pool[i].Running? && pool[j].Running? :: pool[i].user != pool[j].user
  }

  /** What the mutex guards agrees with the worker pool. */
  ghost predicate Shape(q: Queue, pool: seq<Worker>) {
    Sizes(q, pool) && Partition(q, pool) && NoRepeats(q.queue) && Solo(pool)
  }

  /** A wake-up is owed exactly to the users queued, or running and flagged. */
  ghost predicate Owing(s: State) { OwedIs(s.owed, s.q, Active(s.pool)) }

  ghost predicate OwedIs(owed: set<User>, q: Queue, active: set<User>) {
    forall u :: u in owed <==> u in q.queue || (u in active && Flagged(q, u))
  }

  ghost predicate Counted(s: State) {
    forall u :: Count(s.started, u) + (if u in s.owed then 1 else 0) <= Count(s.accepted, u)
  }

  ghost predicate Inv(s: State) {
    Shape(s.q, s.pool) && Owing(s) && Counted(s)
  }

  lemma {:induction false} LiveUpdate(pool: seq<Worker>, i: nat, w: Worker)
    requires i < |pool|
    ensures Live(pool[i := w]) == Live(pool) - (if pool[i].Gone? then 0 else 1) + (if w.Gone? then 0 else 1)
  {
    var n := |pool| - 1;
    if i == n {
      assert pool[i := w][..n] == pool[..n];
    } else {
      assert pool[i := w][..n] == pool[..n][i := w];
      LiveUpdate(pool[..n], i, w);
    }
  }

  lemma {:induction false} SomeoneLives(pool: seq<Worker>, i: nat)
    requires i < |pool| && !pool[i].Gone?
    ensures Live(pool) > 0
  {
    if i < |pool| - 1 { SomeoneLives(pool[..|pool| - 1], i); }
  }

  lemma {:induction false} LiveMeansSomeone(pool: seq<Worker>) returns (i: nat)
    requires Live(pool) > 0
    ensures i < |pool| && !pool[i].Gone?
  {
    var n := |pool| - 1;
    if pool[n].Gone? { i := LiveMeansSomeone(pool[..n]); } else { i := n; }
  }

  /** Only worker `i` changes between running and not running. */
  lemma ActiveUpdate(pool: seq<Worker>, i: nat, w: Worker)
    requires i < |pool|
    requires pool[i].Running? ==> forall j | 0 <= j < |pool| && j != i && pool[j].Running? ::
                 pool[j].user != pool[i].user
    ensures Active(pool[i := w]) ==
            Active(pool) - (if pool[i].Running? then {pool[i].user} else {}) + (if w.Running? then {w.user} else {})
  {
    var pool' := pool[i := w];
    forall v | v in Active(pool) && (pool[i].Running? ==> v != pool[i].user) ensures v in Active(pool') {
      var j :| 0 <= j < |pool| && pool[j].Running? && pool[j].user == v;
      assert pool'[j] == pool[j];
    }
    if w.Running? { assert pool'[i] == w; }
  }

  lemma ActiveAppend(pool: seq<Worker>)
    ensures Active(pool + [AtTop]) == Active(pool) && Live(pool + [AtTop]) == Live(pool) + 1
  {
    assert (pool + [AtTop])[..|pool|] == pool;
    forall v | v in Active(pool) ensures v in Active(pool + [AtTop]) {
      var i :| 0 <= i < |pool| && pool[i].Running? && pool[i].user == v;
      assert (pool + [AtTop])[i] == pool[i];
    }
  }

  lemma WakeInv(s: State, u: User)
    requires Inv(s)
    ensures Inv(Step(s, Wake(u)))
  {
    ActiveAppend(s.pool);
    WakeShape(s.q, s.pool, u);
    WakeOwing(s, u);
  }

  lemma WakeOwing(s: State, u: User)
    requires Inv(s) && Active(s.pool + [AtTop]) == Active(s.pool)
    ensures Owing(Step(s, Wake(u)))
  {
    assert Active(Step(s, Wake(u)).pool) == Active(s.pool);
    WakeOwed(s.owed, s.q, Active(s.pool), u);
  }

  lemma WakeOwed(owed: set<User>, q: Queue, active: set<User>, u: User)
    requires OwedIs(owed, q, active) && Covers(q, active)
    ensures OwedIs(if Accepts(q, u) then owed + {u} else owed, Enqueued(q, u), active)
  {
    if u !in q.pending { assert forall v :: v in q.queue + [u] <==> v in q.queue || v == u; }
  }

  lemma WakeShape(q: Queue, pool: seq<Worker>, u: User)
    requires Shape(q, pool)
    ensures Shape(Enqueued(q, u), if Spawns(q, u) then pool + [AtTop] else pool)
  {
    ActiveAppend(pool);
    assert |q.pending| == |q.pending.Keys|;
    if u in q.pending || |q.pending| >= CAPACITY {
      assert Enqueued(q, u).pending.Keys == q.pending.Keys;
    } else {
      assert Enqueued(q, u).pending.Keys == q.pending.Keys + {u};
      WakeNew(q, Enqueued(q, u), pool, u);
    }
  }

  lemma WakeNew(q: Queue, q': Queue, pool: seq<Worker>, u: User)
    requires Partition(q, pool) && NoRepeats(q.queue) && Solo(pool) && u !in q.pending
    requires q'.queue == q.queue + [u] && q'.pending.Keys == q.pending.Keys + {u}
    requires Active(pool + [AtTop]) == Active(pool)
    ensures Partition(q', pool) && NoRepeats(q'.queue)
    ensures Partition(q', pool + [AtTop]) && Solo(pool + [AtTop])
  {
    assert forall v :: v in q'.queue <==> v in q.queue || v == u;
    assert forall v :: v in q'.pending <==> v in q'.pending.Keys;
  }

  lemma TakeInv(s: State, i: nat)
    requires Inv(s) && Enabled(s, Take(i))
    ensures Inv(Step(s, Take(i)))
  {
    TakeShape(s.q, s.pool, i);
    if s.q.queue == [] {
      ActiveUpdate(s.pool, i, Gone);
    } else {
      ActiveUpdate(s.pool, i, Running(s.q.queue[0]));
      TakeOwing(s, i);
    }
  }

  lemma HeadLeaves(queue: seq<User>)
    requires NoRepeats(queue) && queue != []
    ensures NoRepeats(queue[1..]) && queue[0] !in queue[1..]
    ensures forall v :: v in queue <==> v == queue[0] || v in queue[1..]
  {
  }

  lemma TakeOwing(s: State, i: nat)
    requires Inv(s) && Enabled(s, Take(i)) && s.q.queue != []
    requires Active(s.pool[i := Running(s.q.queue[0])]) == Active(s.pool) + {s.q.queue[0]}
    ensures Owing(Step(s, Take(i)))
  {
    HeadLeaves(s.q.queue);
    assert s.q.queue[0] !in Active(s.pool);
  }

  lemma TakeShape(q: Queue, pool: seq<Worker>, i: nat)
    requires Shape(q, pool) && i < |pool| && pool[i].AtTop?
    ensures Shape(Taken(q), pool[i := if q.queue == [] then Gone else Running(q.queue[0])])
  {
    if q.queue == [] {
      LiveUpdate(pool, i, Gone);
      ActiveUpdate(pool, i, Gone);
    } else {
      TakeFirst(q, pool, i);
    }
  }

  lemma TakeFirst(q: Queue, pool: seq<Worker>, i: nat)
    requires Shape(q, pool) && i < |pool| && pool[i].AtTop? && q.queue != []
    ensures Shape(Taken(q), pool[i := Running(q.queue[0])])
  {
    var w := Running(q.queue[0]);
    LiveUpdate(pool, i, w);
    ActiveUpdate(pool, i, w);
    HeadLeaves(q.queue);
    assert q.queue[0] !in Active(pool);
    SomeoneLives(pool[i := w], i);
    assert Taken(q).pending.Keys == q.pending.Keys;
    TakeSolo(pool, i, q.queue[0]);
  }

  lemma TakeSolo(pool: seq<Worker>, i: nat, u: User)
    requires Solo(pool) && i < |pool| && u !in Active(pool)
    ensures Solo(pool[i := Running(u)])
  {
    forall j | 0 <= j < |pool| && pool[j].Running? ensures pool[j].user != u {
      assert pool[j].user in Active(pool);
    }
  }

  lemma CompleteInv(s: State, i: nat)
    requires Inv(s) && Enabled(s, Complete(i))
    ensures Inv(Step(s, Complete(i)))
  {
    assert s.pool[i].user in Active(s.pool);
    ActiveUpdate(s.pool, i, AtTop);
    CompleteShape(s.q, s.pool, i);
  }

  lemma CompleteShape(q: Queue, pool: seq<Worker>, i: nat)
    requires Shape(q, pool) && i < |pool| && pool[i].Running?
    ensures Shape(Finished(q, pool[i].user), pool[i := AtTop])
  {
    var u := pool[i].user;
    CompleteSizes(q, pool, i);
    ActiveUpdate(pool, i, AtTop);
    assert u in Active(pool);
    CompleteCovers(q, Active(pool), u);
    assert Solo(pool[i := AtTop]);
  }

  lemma CompleteCovers(q: Queue, active: set<User>, u: User)
    requires Covers(q, active) && NoRepeats(q.queue) && u in active
    ensures Covers(Finished(q, u), active - {u}) && NoRepeats(Finished(q, u).queue)
  {
    PendingAfter(q, u);
    if Flagged(q, u) { LastIsNew(q.queue, u); }
  }

  lemma LastIsNew(queue: seq<User>, u: User)
    requires NoRepeats(queue) && u !in queue
    ensures NoRepeats(queue + [u])
  {
  }

  lemma CompleteSizes(q: Queue, pool: seq<Worker>, i: nat)
    requires Sizes(q, pool) && i < |pool| && pool[i].Running?
    ensures Sizes(Finished(q, pool[i].user), pool[i := AtTop])
  {
    LiveUpdate(pool, i, AtTop);
    SomeoneLives(pool[i := AtTop], i);
    PendingAfter(q, pool[i].user);
    SubsetSize(Finished(q, pool[i].user).pending.Keys, q.pending.Keys);
  }

  lemma PendingAfter(q: Queue, u: User)
    ensures var q' := Finished(q, u);
            if Flagged(q, u) then q' == q.(queue := q.queue + [u]) &&
               forall v :: v in q'.queue <==> v in q.queue || v == u
            else q'.queue == q.queue && q'.pending.Keys == q.pending.Keys - {u}
  {
  }

  lemma StepInv(s: State, e: Event)
    requires Inv(s) && Enabled(s, e)
    ensures Inv(Step(s, e))
  {
    match e
    case Wake(u) => WakeInv(s, u);
    case Take(i) => TakeInv(s, i);
    case Complete(i) => CompleteInv(s, i);
  }

  /** In every reachable state: pending is the disjoint union of queued and running users,
      nobody twice; the bounds hold; a non-empty queue has a live worker; and what is owed is
      exactly what is queued or flagged. */
  lemma {:induction false} ReachableInv(s: State, es: seq<Event>)
    requires Inv(s) && Legal(s, es)
    ensures Inv(After(s, es))
    decreases |es|
  {
    if es != [] {
      StepInv(s, es[0]);
      ReachableInv(Step(s, es[0]), es[1..]);
    }
  }

  lemma InitInv()
    ensures Inv(Init())
  {
    assert Members([]) == {} && Active([]) == {};
  }

  /** The bounds, in numbers. */
  lemma Bounds(es: seq<Event>)
    requires Legal(Init(), es)
    ensures var s := After(Init(), es);
            && |s.q.pending| <= 64 && |s.q.queue| <= 64
            && s.q.workers == Live(s.pool) <= 2 && (s.q.queue != [] ==> Live(s.pool) >= 1)
  {
    InitInv();
    ReachableInv(Init(), es);
    var s := After(Init(), es);
    assert |s.q.pending| == |s.q.pending.Keys|;
    QueueIsShort(s.q, s.pool);
  }

  /** No wake-up is turned away but that of a 65th user: one for a user pending already raises
      its flag, any other joins the end of the queue, and a worker starts with it unless two
      are alive. Either way the wake-up is owed from then on. */
  lemma WakeUpIsAccepted(s: State, u: User)
    requires Inv(s)
    ensures var s' := Step(s, Wake(u));
            if u in s.q.pending then
              && s'.q == s.q.(pending := s.q.pending[u := true]) && s'.pool == s.pool
              && u in s'.owed && Count(s'.accepted, u) == Count(s.accepted, u) + 1
            else if |s.q.pending| < 64 then
              && s'.q.pending == s.q.pending[u := false] && s'.q.queue == s.q.queue + [u]
              && u in s'.owed && Count(s'.accepted, u) == Count(s.accepted, u) + 1
              && (Live(s.pool) < 2 ==> s'.pool == s.pool + [AtTop] && s'.q.workers == s.q.workers + 1)
              && (Live(s.pool) == 2 ==> s'.pool == s.pool && s'.q.workers == s.q.workers)
            else s' == s
  {
  }

  /** So two users wake two workers. */
  lemma TwoWorkersRun(u: User, v: User)
    requires u != v
    ensures var s := Step(Step(Init(), Wake(u)), Wake(v)); s.pool == [AtTop, AtTop] && s.q.queue == [u, v]
  {
    InitInv();
    StepInv(Init(), Wake(u));
    WakeUpIsAccepted(Init(), u);
    var s := Step(Init(), Wake(u));
    assert Live(s.pool) == 1;
    WakeUpIsAccepted(s, v);
  }

  /** A job woken while it ran goes to the end of the queue; one that was not is done. */
  lemma JobEnds(s: State, i: nat)
    requires Inv(s) && i < |s.pool| && s.pool[i].Running?
    ensures var u, s' := s.pool[i].user, Step(s, Complete(i));
            && u in s.q.pending && s'.pool == s.pool[i := AtTop]
            && if s.q.pending[u] then s'.q == s.q.(queue := s.q.queue + [u])
               else s'.q == s.q.(pending := s.q.pending - {u})
  {
    assert s.pool[i].user in Active(s.pool);
  }

  /** A worker at the top takes the first user and lowers its flag, or leaves an empty queue. */
  lemma JobStarts(s: State, i: nat)
    requires Inv(s) && i < |s.pool| && s.pool[i].AtTop?
    ensures var s' := Step(s, Take(i));
            if s.q.queue == [] then s'.pool == s.pool[i := Gone] && s'.q == s.q.(workers := s.q.workers - 1)
            else
              var u := s.q.queue[0];
              && s'.pool == s.pool[i := Running(u)] &&
                 s'.q == s.q.(queue := s.q.queue[1..], pending := s.q.pending[u := false])
              && Count(s'.started, u) == Count(s.started, u) + 1
  {
  }

  /** No lost wake-up: once no worker is left, nothing is owed, queued or pending. */
  lemma QuiescentMeansServed(es: seq<Event>)
    requires Legal(Init(), es) && Live(After(Init(), es).pool) == 0
    ensures var s := After(Init(), es); s.owed == {} && s.q.queue == [] && s.q.pending == map[] && s.q.workers == 0
  {
    InitInv();
    ReachableInv(Init(), es);
    var s := After(Init(), es);
    forall u | u in Active(s.pool) ensures false {
      var i :| 0 <= i < |s.pool| && s.pool[i].Running? && s.pool[i].user == u;
      SomeoneLives(s.pool, i);
    }
    assert Active(s.pool) == {};
    assert s.q.pending.Keys == {};
  }

  // ---- order of service ---------------------------------------------------------------------

  /** The users whose jobs start during `es`, in order. */
  function Starts(s: State, es: seq<Event>): seq<User>
    requires Legal(s, es)
    decreases |es|
  {
    if es == [] then []
    else (if es[0].Take? && s.q.queue != [] then [s.q.queue[0]] else []) + Starts(Step(s, es[0]), es[1..])
  }

  /** First in, first out: whatever happens, the users queued now start before anyone queued
      later and in their present order; the one at index k starts after exactly k others. */
  lemma {:induction false} FirstInFirstOut(s: State, es: seq<Event>)
    requires Legal(s, es)
    ensures s.q.queue <= Starts(s, es) + After(s, es).q.queue
    decreases |es|
  {
    if es != [] {
      var s', rest := Step(s, es[0]), es[1..];
      FirstInFirstOut(s', rest);
      QueueMoves(s, es[0]);
      var first := if es[0].Take? && s.q.queue != [] then [s.q.queue[0]] else [];
      OneMoreStart(first, s.q.queue, s'.q.queue, Starts(s', rest), After(s', rest).q.queue);
    }
  }

  /** A step appends to the queue, or takes its head. */
  lemma QueueMoves(s: State, e: Event)
    requires Enabled(s, e)
    ensures var q' := Step(s, e).q.queue;
            if e.Take? && s.q.queue != [] then s.q.queue == [s.q.queue[0]] + q' else s.q.queue <= q'
  {
  }

  lemma OneMoreStart(first: seq<User>, queue: seq<User>, queue': seq<User>, starts: seq<User>, left: seq<User>)
    requires queue' <= starts + left && (queue == first + queue' || (first == [] && queue <= queue'))
    ensures queue <= first + starts + left
  {
    assert first + starts + left == first + (starts + left);
  }

  lemma QueueIsShort(q: Queue, pool: seq<Worker>)
    requires Shape(q, pool)
    ensures |q.queue| <= CAPACITY
  {
    MembersSize(q.queue);
    SubsetSize(Members(q.queue), q.pending.Keys);
    assert |q.pending| == |q.pending.Keys|;
  }

  /** So nobody waits behind more than 63 other job starts. */
  lemma WaitsBehindAtMost63(es: seq<Event>, more: seq<Event>, k: nat)
    requires Legal(Init(), es) && k < |After(Init(), es).q.queue| && Legal(After(Init(), es), more)
    ensures k <= 63
    ensures k < |Starts(After(Init(), es), more)| ==>
              Starts(After(Init(), es), more)[k] == After(Init(), es).q.queue[k]
    ensures k >= |Starts(After(Init(), es), more)| ==>
              var left := After(After(Init(), es), more).q.queue;
              var ahead := k - |Starts(After(Init(), es), more)|;
              ahead < |left| && left[ahead] == After(Init(), es).q.queue[k]
  {
    var s := After(Init(), es);
    assert Inv(s) by {
      InitInv();
      ReachableInv(Init(), es);
    }
    QueueIsShort(s.q, s.pool);
    FirstInFirstOut(s, more);
    InLine(s.q.queue, Starts(s, more), After(s, more).q.queue, k);
  }

  lemma InLine(queue: seq<User>, starts: seq<User>, left: seq<User>, k: nat)
    requires queue <= starts + left && k < |queue|
    ensures k < |starts| ==> starts[k] == queue[k]
    ensures k >= |starts| ==> k - |starts| < |left| && left[k - |starts|] == queue[k]
  {
    assert (starts + left)[k] == queue[k];
  }

  lemma {:induction false} MembersSize(queue: seq<User>)
    requires NoRepeats(queue)
    ensures |Members(queue)| == |queue|
  {
    if queue == [] {
      assert Members(queue) == {};
    } else {
      var n := |queue| - 1;
      MembersSize(queue[..n]);
      assert queue == queue[..n] + [queue[n]];
      assert Members(queue) == Members(queue[..n]) + {queue[n]};
    }
  }

  // ---- draining -----------------------------------------------------------------------------

  function Weight(q: Queue, w: Worker): nat {
    match w
    case Gone => 0
    case AtTop => 1
    case Running(u) => if Flagged(q, u) then 4 else 2
  }

  function PoolWeight(q: Queue, pool: seq<Worker>): nat {
    if pool == [] then 0 else PoolWeight(q, pool[..|pool| - 1]) + Weight(q, pool[|pool| - 1])
  }

  /** Worker steps left at most: two per queued user, and what each worker still has to do. */
  function Measure(s: State): nat { 2 * |s.q.queue| + PoolWeight(s.q, s.pool) }

  lemma {:induction false} PoolWeightUpdate(q: Queue, q': Queue, pool: seq<Worker>, i: nat, w: Worker)
    requires i < |pool|
    requires forall j | 0 <= j < |pool| && j != i :: Weight(q', pool[j]) == Weight(q, pool[j])
    ensures PoolWeight(q', pool[i := w]) == PoolWeight(q, pool) - Weight(q, pool[i]) + Weight(q', w)
  {
    var n := |pool| - 1;
    if i == n {
      assert pool[i := w][..n] == pool[..n];
      SameWeight(q, q', pool[..n]);
    } else {
      assert pool[i := w][..n] == pool[..n][i := w];
      PoolWeightUpdate(q, q', pool[..n], i, w);
    }
  }

  lemma {:induction false} SameWeight(q: Queue, q': Queue, pool: seq<Worker>)
    requires forall j | 0 <= j < |pool| :: Weight(q', pool[j]) == Weight(q, pool[j])
    ensures PoolWeight(q', pool) == PoolWeight(q, pool)
  {
    if pool != [] { SameWeight(q, q', pool[..|pool| - 1]); }
  }

  lemma OthersKeepTheirWeight(q: Queue, pool: seq<Worker>, i: nat)
    requires Shape(q, pool) && i < |pool|
    requires pool[i].Running? || pool[i].AtTop?
    ensures var q' := if pool[i].AtTop? then Taken(q) else Finished(q, pool[i].user);
            forall j | 0 <= j < |pool| && j != i :: Weight(q', pool[j]) == Weight(q, pool[j])
  {
    forall j | 0 <= j < |pool| && j != i && pool[j].Running? ensures pool[j].user in Active(pool) {}
    if q.queue != [] { assert q.queue[0] in Members(q.queue); }
  }

  lemma WorkerStepDecreases(s: State, e: Event)
    requires Inv(s) && Enabled(s, e) && !e.Wake?
    ensures Measure(Step(s, e)) < Measure(s)
  {
    var i, s' := e.worker, Step(s, e);
    OthersKeepTheirWeight(s.q, s.pool, i);
    PoolWeightUpdate(s.q, s'.q, s.pool, i, s'.pool[i]);
    if e.Complete? { assert s.pool[i].user in Active(s.pool); }
  }

  /** Without new wake-ups every schedule is finite: at most `Measure` worker steps, and one
      is always possible until the last worker is gone. */
  lemma {:induction false} Drains(s: State, es: seq<Event>)
    requires Inv(s) && Legal(s, es) && forall e | e in es :: !e.Wake?
    ensures |es| + Measure(After(s, es)) <= Measure(s)
    ensures Live(After(s, es).pool) > 0 ==> exists e: Event :: !e.Wake? && Enabled(After(s, es), e)
    decreases |es|
  {
    if es == [] {
      if Live(s.pool) > 0 {
        var i := LiveMeansSomeone(s.pool);
        if s.pool[i].AtTop? { assert Enabled(s, Take(i)); } else { assert Enabled(s, Complete(i)); }
      }
    } else {
      StepInv(s, es[0]);
      WorkerStepDecreases(s, es[0]);
      Drains(Step(s, es[0]), es[1..]);
    }
  }

  /** Coalescing: jobs started for a user, plus the one still owed, never exceed the wake-ups
      accepted for it. */
  lemma JobsNeverExceedWakeups(es: seq<Event>, u: User)
    requires Legal(Init(), es)
    ensures var s := After(Init(), es);
            Count(s.started, u) + (if u in s.q.queue || (u in Active(s.pool) && Flagged(s.q, u)) then 1 else 0)
            <= Count(s.accepted, u)
  {
    InitInv();
    ReachableInv(Init(), es);
  }
}
