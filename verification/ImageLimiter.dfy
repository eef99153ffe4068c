/** The image import limiter: at most four downloads at once, one per user, sixty per user
    and record, and a bounded user table. Times are integers in one unit; `MINUTE` is
    sixty seconds of it.

    The class keeps the source's shape: the table holds references to quota records and a
    release closure holds one too, so that "the record a release acts on" is an object. The
    machine below it numbers the records of a user to say the same on values. */
module ImageLimiter {
  import opened Basics

  type User = string

  const MINUTE: int := 60_000_000_000
  const MAX_USERS: nat := 4096
  const PER_RECORD: nat := 60
  const MAX_ACTIVE: nat := 4

  datatype Quota = Quota(since: int, count: nat, busy: bool)
  datatype Limiter = Limiter(users: map<User, Quota>, active: int)

  // ---- one call ---------------------------------------------------------------------------

  predicate Expired(q: Quota, now: int) { !q.busy && now - q.since >= MINUTE }

  function Swept(users: map<User, Quota>, now: int): map<User, Quota> {
    map u | u in users && !Expired(users[u], now) :: users[u]
  }

  /** After the sweep and the lookup: the record of `user`, created if there was room. */
  function WithRecord(users: map<User, Quota>, user: User, now: int): map<User, Quota> {
    var kept := Swept(users, now);
    if user in kept || |kept| >= MAX_USERS then kept else kept[user := Quota(now, 0, false)]
  }

  predicate Grants(l: Limiter, user: User, now: int) {
    var users := WithRecord(l.users, user, now);
    user in users && !users[user].busy && users[user].count < PER_RECORD && l.active < MAX_ACTIVE
  }

  function Acquired(l: Limiter, user: User, now: int): Limiter {
    var users := WithRecord(l.users, user, now);
    if Grants(l, user, now)
    then Limiter(users[user := Quota(users[user].since, users[user].count + 1, true)], l.active + 1)
    else Limiter(users, l.active)
  }

  class ImageQuota {
    var since: int
    var count: nat
    var busy: bool

    constructor (now: int)
      ensures Value() == Quota(now, 0, false)
    {
      since, count, busy := now, 0, false;
    }

    function Value(): Quota
      reads this
    {
      Quota(since, count, busy)
    }
  }

  class ImageLimiter {
    var users: map<User, ImageQuota>
    var active: int

    constructor ()
      ensures Valid() && Contents() == Limiter(map[], 0)
    {
      users, active := map[], 0;
    }

    /** No two users share a record. */
    ghost predicate Valid()
      reads this
    {
      forall u, v | u in users && v in users && u != v :: users[u] != users[v]
    }

    ghost function Contents(): Limiter
      reads this, users.Values
    {
      Limiter(map u | u in users :: users[u].Value(), active)
    }

    /** The loop that forgets idle records a minute old. */
    method Sweep(now: int)
      requires Valid()
      modifies this
      ensures Valid() && users.Keys <= old(users.Keys) && forall u | u in users :: users[u] == old(users)[u]
      ensures Contents() == Limiter(Swept(old(Contents()).users, now), old(active))
    {
      ghost var before := Contents().users;
      var ids := users.Keys;
      while ids != {}
        invariant Valid() && active == old(active) && ids <= users.Keys <= old(users.Keys)
        invariant forall u | u in users :: users[u] == old(users)[u]
        invariant forall u | u in old(users) && u !in ids :: u in users <==> !Expired(before[u], now)
        decreases |ids|
      {
        var id :| id in ids;
        ids := ids - {id};
        assert before[id] == users[id].Value();
        if !users[id].busy && now - users[id].since >= MINUTE {
          users := users - {id};
        }
      }
      assert Contents().users == Swept(before, now);
    }

    /** The lookup after the sweep: the user's record, created when the table has room. */
    method FindRecord(user: User, now: int) returns (q: ImageQuota?)
      requires Valid()
      modifies this
      ensures Valid() && active == old(active)
      ensures var kept := old(Contents()).users;
              Contents().users == if user in kept || |kept| >= MAX_USERS then kept
                else kept[user := Quota(now, 0, false)]
      ensures (q != null) == (user in users) && (q != null ==> users[user] == q)
      ensures forall u | u in users :: (u in old(users) && users[u] == old(users)[u]) ||
                      (fresh(users[u]) && users[u] == q)
    {
      assert Contents().users.Keys == users.Keys;
      assert |users| == |users.Keys| && |Contents().users| == |Contents().users.Keys|;
      if user in users { return users[user]; }
      if |users| >= MAX_USERS { return null; }
      q := new ImageQuota(now);
      users := users[user := q];
    }

    /** The record handed to the caller is the one in the table. */
    method Acquire(user: User, now: int) returns (q: ImageQuota?)
      requires Valid()
      modifies this, users.Values
      ensures Valid()
      ensures (q != null) == Grants(old(Contents()), user, now)
      ensures Contents() == Acquired(old(Contents()), user, now)
      ensures q != null ==> user in users && users[user] == q
    {
      ghost var before := Contents();
      Sweep(now);
      q := FindRecord(user, now);
      assert Contents() == Limiter(WithRecord(before.users, user, now), before.active);
      if q == null { return; }
      assert q == users[user] && Contents().users[user] == q.Value();
      if q.busy || q.count >= PER_RECORD || active >= MAX_ACTIVE { return null; }
      Occupy(user, q);
    }

    /** The admission itself. */
    method Occupy(user: User, q: ImageQuota)
      requires Valid() && user in users && users[user] == q
      modifies this`active, q`count, q`busy
      ensures Valid() && users == old(users)
      ensures Contents() == Limiter(old(Contents()).users[user := Quota(old(q.since), old(q.count) + 1, true)],
                                    old(active) + 1)
    {
      ghost var before := Contents().users;
      q.count := q.count + 1;
      q.busy := true;
      active := active + 1;
      assert Contents().users == before[user := q.Value()];
    }

    /** The release closure: it writes the record it captured, wherever that record is. */
    method Release(q: ImageQuota)
      requires Valid()
      modifies this`active, q`busy
      ensures Valid() && users == old(users) && !q.busy
      ensures forall u | u in users && users[u] == q ::
                Contents() == Limiter(old(Contents()).users[u := old(q.Value()).(busy := false)], old(active) - 1)
      ensures (forall u | u in users :: users[u] != q) ==>
                Contents() == Limiter(old(Contents()).users, old(active) - 1)
    {
      q.busy := false;
      active := active - 1;
    }
  }

  // ---- what a call answers --------------------------------------------------------------------

  /** A record outlives this call: its import runs, or it is less than a minute old. */
  predicate Stays(l: Limiter, v: User, now: int) {
    v in l.users && (l.users[v].busy || now - l.users[v].since < 60 * 1_000_000_000)
  }

  ghost function Staying(l: Limiter, now: int): set<User> { set v | v in l.users && Stays(l, v, now) }

  /** The user's record for this call: the one that stays, or a new one while there is room. */
  ghost function RecordFor(l: Limiter, u: User, now: int): (q: seq<Quota>)
    ensures |q| <= 1
  {
    if Stays(l, u, now) then [l.users[u]]
    else if |Staying(l, now)| < 4096 then [Quota(now, 0, false)]
    else []
  }

  lemma SweptStays(l: Limiter, now: int)
    ensures forall v :: v in Swept(l.users, now) <==> Stays(l, v, now)
    ensures forall v | Stays(l, v, now) :: Swept(l.users, now)[v] == l.users[v]
    ensures |Swept(l.users, now)| == |Staying(l, now)|
  {
    assert Swept(l.users, now).Keys == Staying(l, now);
  }

  /** An import is admitted if and only if the user has a record, idle and used fewer than 60
      times, and fewer than four imports run; it is then counted once and marked. Every other
      user's record stays as it is unless it is idle and a minute old. */
  lemma AcquiredExactly(l: Limiter, u: User, now: int)
    ensures var q, l' := RecordFor(l, u, now), Acquired(l, u, now);
            var ok := q != [] && !q[0].busy && q[0].count < 60 && l.active < 4;
            && (Grants(l, u, now) <==> ok)
            && l'.active == l.active + (if ok then 1 else 0)
            && (u in l'.users <==> q != [])
            && (q != [] ==> l'.users[u] == if ok then Quota(q[0].since, q[0].count + 1, true) else q[0])
            && (forall v | v != u :: v in l'.users <==> Stays(l, v, now))
            && (forall v | v != u && Stays(l, v, now) :: l'.users[v] == l.users[v])
  {
    SweptStays(l, now);
  }

  /** Every admission is in the log, under its user and reading, and nothing else is. */
  lemma AdmissionIsLogged(s: State, u: User, now: int)
    ensures var s' := Step(s, Acquire(u, now));
            if Grants(s.limiter, u, now)
            then |s'.log| == |s.log| + 1 && s'.log[..|s.log|] == s.log
                 && s'.log[|s.log|].record.user == u && s'.log[|s.log|].time == now
            else s'.log == s.log
  {
  }

  /** In numbers: in every run at most four imports are active and 4096 users known, and with the
      readings in order at most 120 imports of one user fall into 60 seconds. */
  lemma LimitsInNumbers(es: seq<Event>, u: User, from: int)
    requires Legal(Init(), es)
    ensures var s := After(Init(), es); s.limiter.active == |s.held| <= 4 && |s.limiter.users| <= 4096
    ensures AllInOrder(Init(), es) ==> InMinute(After(Init(), es).log, u, from) <= 120
    ensures MINUTE == 60_000_000_000
  {
    LimiterBounds(es);
    if AllInOrder(Init(), es) { AtMost120PerMinute(es, u, from); }
  }

  // ---- runs -----------------------------------------------------------------------------------

  /** A record is named by its user and its number among that user's records. */
  datatype Record = Record(user: User, number: nat)
  datatype Admission = Admission(record: Record, time: int)

  /** `numbers` counts the records created per user, `born` is the latest one's creation
      time, `held` the release closures not yet called, `log` every admission. */
  datatype State = State(limiter: Limiter, numbers: map<User, nat>, born: map<User, int>,
                         held: set<Record>, log: seq<Admission>, clock: int)

  datatype Event = Acquire(user: User, now: int) | Release(record: Record)

  function Number(s: State, u: User): nat { if u in s.numbers then s.numbers[u] else 0 }

  function Init(): State { State(Limiter(map[], 0), map[], map[], {}, [], 0) }

  /** Clock readings are taken before the lock and may enter it in any order; a closure is
      called once. */
  predicate Enabled(s: State, e: Event) {
    match e
    case Acquire(_, _) => true
    case Release(r) => r in s.held
  }

  /** The reading of this event is not before that of the last acquisition. */
  predicate InOrder(s: State, e: Event) { e.Acquire? ==> e.now >= s.clock }

  /** The readings of a run entered the lock in order. */
  predicate AllInOrder(s: State, es: seq<Event>)
    requires Legal(s, es)
    decreases |es|
  {
    es == [] || (InOrder(s, es[0]) && AllInOrder(Step(s, es[0]), es[1..]))
  }

  predicate Creates(s: State, u: User, now: int) {
    u !in Swept(s.limiter.users, now) && |Swept(s.limiter.users, now)| < MAX_USERS
  }

  function Step(s: State, e: Event): State
    requires Enabled(s, e)
  {
    match e
    case Acquire(u, now) =>
      var s' := if Creates(s, u, now)
                then s.(numbers := s.numbers[u := Number(s, u) + 1], born := s.born[u := now])
                else s;
      var r := Record(u, Number(s', u));
      var s'' := s'.(limiter := Acquired(s.limiter, u, now), clock := now);
      if Grants(s.limiter, u, now) then s''.(held := s.held + {r}, log := s.log + [Admission(r, now)]) else s''
    case Release(r) =>
      var users := s.limiter.users;
      var users' := if InTable(s, r) then users[r.user := users[r.user].(busy := false)] else users;
      s.(limiter := Limiter(users', s.limiter.active - 1), held := s.held - {r})
  }

  /** The record is the one the table holds for its user. */
  predicate InTable(s: State, r: Record) { r.user in s.limiter.users && r.number == Number(s, r.user) }

  predicate Legal(s: State, es: seq<Event>)
    decreases |es|
  {
    es == [] || (Enabled(s, es[0]) && Legal(Step(s, es[0]), es[1..]))
  }

  function After(s: State, es: seq<Event>): State
    requires Legal(s, es)
    decreases |es|
  {
    if es == [] then s else After(Step(s, es[0]), es[1..])
  }

  // ---- counters -------------------------------------------------------------------------------

  function Busy(l: Limiter): set<User> { set u | u in l.users && l.users[u].busy }

  ghost predicate HeldOk(s: State) {
    && (forall r | r in s.held :: InTable(s, r) && s.limiter.users[r.user].busy)
    && (forall u | u in Busy(s.limiter) :: Record(u, Number(s, u)) in s.held)
  }

  ghost predicate CountersOk(s: State) {
    && HeldOk(s)
    && s.limiter.active == |Busy(s.limiter)| <= MAX_ACTIVE
    && |s.limiter.users| <= MAX_USERS
  }

  lemma SweepKeepsBusy(users: map<User, Quota>, now: int)
    ensures forall u | u in users && users[u].busy :: u in Swept(users, now)
    ensures |Swept(users, now)| <= |users|
  {
    var kept := Swept(users, now);
    SubsetSize(kept.Keys, users.Keys);
    assert |kept| == |kept.Keys| && |users| == |users.Keys|;
  }

  lemma AcquireSize(l: Limiter, u: User, now: int)
    requires |l.users| <= MAX_USERS
    ensures |Acquired(l, u, now).users| <= MAX_USERS
  {
    SweepKeepsBusy(l.users, now);
    var kept := Swept(l.users, now);
    var users := WithRecord(l.users, u, now);
    var end := Acquired(l, u, now).users;
    if u !in kept && |kept| < MAX_USERS {
      assert users.Keys == kept.Keys + {u};
    }
    assert end.Keys == users.Keys;
    assert |end| == |end.Keys| && |users| == |users.Keys| && |kept| == |kept.Keys|;
  }

  lemma AcquireBusy(l: Limiter, u: User, now: int)
    ensures Busy(Acquired(l, u, now)) == if Grants(l, u, now) then Busy(l) + {u} else Busy(l)
    ensures Grants(l, u, now) ==> u !in Busy(l)
  {
    SweepKeepsBusy(l.users, now);
  }

  lemma AcquireHeld(s: State, u: User, now: int)
    requires CountersOk(s)
    ensures HeldOk(Step(s, Acquire(u, now)))
  {
    var s' := Step(s, Acquire(u, now));
    AcquireBusy(s.limiter, u, now);
    SweepKeepsBusy(s.limiter.users, now);
    forall r | r in s.held ensures InTable(s', r) && s'.limiter.users[r.user].busy {
      assert r.user in Swept(s.limiter.users, now);
    }
    forall v | v in Busy(s'.limiter) ensures Record(v, Number(s', v)) in s'.held {
      if v in Busy(s.limiter) { assert v in Swept(s.limiter.users, now); }
    }
  }

  lemma ReleaseOk(s: State, r: Record)
    requires CountersOk(s) && r in s.held
    ensures CountersOk(Step(s, Release(r)))
  {
    var s' := Step(s, Release(r));
    assert InTable(s, r);
    assert r.user in Busy(s.limiter);
    assert Busy(s'.limiter) == Busy(s.limiter) - {r.user};
    assert s'.limiter.users.Keys == s.limiter.users.Keys;
    assert |s'.limiter.users| == |s'.limiter.users.Keys| && |s.limiter.users| == |s.limiter.users.Keys|;
  }

  lemma CountersStep(s: State, e: Event)
    requires CountersOk(s) && Enabled(s, e)
    ensures CountersOk(Step(s, e))
  {
    match e
    case Release(r) => ReleaseOk(s, r);
    case Acquire(u, now) =>
      AcquireHeld(s, u, now);
      AcquireBusy(s.limiter, u, now);
      AcquireSize(s.limiter, u, now);
  }

  lemma {:induction false} CountersRun(s: State, es: seq<Event>)
    requires CountersOk(s) && Legal(s, es)
    ensures CountersOk(After(s, es))
    decreases |es|
  {
    if es != [] {
      CountersStep(s, es[0]);
      CountersRun(Step(s, es[0]), es[1..]);
    }
  }

  /** In every run: active is the number of busy users, at most four; the table stays
      bounded; and every closure still to be called acts on the record in the table. */
  lemma LimiterBounds(es: seq<Event>)
    requires Legal(Init(), es)
    ensures var s := After(Init(), es);
            && s.limiter.active == |Busy(s.limiter)| == |s.held| <= MAX_ACTIVE
            && |s.limiter.users| <= MAX_USERS
            && forall r | r in s.held :: InTable(s, r) && s.limiter.users[r.user].busy
  {
    assert Busy(Init().limiter) == {};
    CountersRun(Init(), es);
    var s := After(Init(), es);
    HeldSize(s, Busy(s.limiter), s.held);
  }

  lemma {:induction false} HeldSize(s: State, busy: set<User>, held: set<Record>)
    requires forall r | r in held :: r.user in busy && r.number == Number(s, r.user)
    requires forall u | u in busy :: Record(u, Number(s, u)) in held
    ensures |held| == |busy|
  {
    if busy == {} {
      assert held == {};
    } else {
      var u :| u in busy;
      HeldSize(s, busy - {u}, held - {Record(u, Number(s, u))});
    }
  }

  // ---- the rate ---------------------------------------------------------------------------------

  function Used(log: seq<Admission>, r: Record): nat {
    if log == [] then 0 else Used(log[..|log| - 1], r) + if log[|log| - 1].record == r then 1 else 0
  }

  /** Admissions of `u` at times in [from, from + MINUTE). */
  function InMinute(log: seq<Admission>, u: User, from: int): nat {
    if log == [] then 0
    else
      var a := log[|log| - 1];
      InMinute(log[..|log| - 1], u, from) + if a.record.user == u && from <= a.time < from + MINUTE then 1 else 0
  }

  /** What the log says of one user: record numbers never go back, and two admissions on
      records two or more apart lie a minute apart. */
  ghost predicate Spread(log: seq<Admission>) {
    forall i, j | 0 <= i < j < |log| && log[i].record.user == log[j].record.user ::
      && log[i].record.number <= log[j].record.number
      && (log[i].record.number + 1 < log[j].record.number ==> log[i].time + MINUTE <= log[j].time)
  }

  ghost predicate BirthsOk(s: State) {
    && s.born.Keys == s.numbers.Keys
    && (forall u | u in s.limiter.users :: u in s.numbers && s.limiter.users[u].since == s.born[u])
    && (forall u | u in s.numbers && u !in s.limiter.users :: s.born[u] + MINUTE <= s.clock)
    && (forall u | u in s.numbers :: s.born[u] <= s.clock)
  }

  function Born(s: State, u: User): int { if u in s.born then s.born[u] else 0 }

  predicate EntryOk(s: State, a: Admission) {
    var n, born := Number(s, a.record.user), Born(s, a.record.user);
    && a.time <= s.clock && a.record.user in s.numbers && a.record.number <= n
    && (a.record.number == n ==> born <= a.time)
    && (a.record.number < n ==> a.time <= born)
    && (a.record.number + 1 < n ==> a.time + MINUTE <= born)
  }

  ghost predicate LogOk(s: State) { forall a | a in s.log :: EntryOk(s, a) }

  ghost predicate UsesOk(s: State) {
    && (forall r: Record :: Used(s.log, r) <= PER_RECORD)
    && (forall u | u in s.limiter.users :: Used(s.log, Record(u, Number(s, u))) == s.limiter.users[u].count)
    && (forall r: Record :: r.number > Number(s, r.user) ==> Used(s.log, r) == 0)
  }

  ghost predicate RateOk(s: State) {
    BirthsOk(s) && LogOk(s) && UsesOk(s) && Spread(s.log)
  }

  lemma BirthsStep(s: State, e: Event)
    requires BirthsOk(s) && Enabled(s, e) && InOrder(s, e)
    ensures BirthsOk(Step(s, e))
  {
    if e.Acquire? { BirthsAcquire(s, e.user, e.now); }
  }

  lemma BirthsAcquire(s: State, u: User, now: int)
    requires BirthsOk(s) && now >= s.clock
    ensures BirthsOk(Step(s, Acquire(u, now)))
  {
    var s' := Step(s, Acquire(u, now));
    SweptStays(s.limiter, now);
    AcquiredExactly(s.limiter, u, now);
    forall v | v in s'.limiter.users ensures v in s'.numbers && s'.limiter.users[v].since == s'.born[v] {
      assert v == u || Stays(s.limiter, v, now);
    }
    forall v | v in s'.numbers && v !in s'.limiter.users ensures s'.born[v] + MINUTE <= s'.clock {
      assert v in s.numbers && s'.born[v] == s.born[v];
    }
  }

  lemma EntryStep(s: State, e: Event, a: Admission)
    requires BirthsOk(s) && EntryOk(s, a) && Enabled(s, e) && InOrder(s, e)
    ensures EntryOk(Step(s, e), a)
  {
    if e.Acquire? && e.user == a.record.user && Creates(s, e.user, e.now) && e.user in s.limiter.users {
      assert Expired(s.limiter.users[e.user], e.now);
    }
  }

  lemma LogStep(s: State, e: Event)
    requires BirthsOk(s) && LogOk(s) && Enabled(s, e) && InOrder(s, e)
    ensures LogOk(Step(s, e))
  {
    var s' := Step(s, e);
    forall a | a in s'.log ensures EntryOk(s', a) {
      if a in s.log { EntryStep(s, e, a); } else { NewEntryOk(s, e.user, e.now); }
    }
  }

  lemma NewEntryOk(s: State, u: User, now: int)
    requires BirthsOk(s) && now >= s.clock && Grants(s.limiter, u, now)
    ensures var s' := Step(s, Acquire(u, now)); EntryOk(s', Admission(Record(u, Number(s', u)), now))
  {
  }

  lemma UsedAppend(log: seq<Admission>, a: Admission)
    ensures forall r :: Used(log + [a], r) == Used(log, r) + if a.record == r then 1 else 0
  {
    assert (log + [a])[..|log|] == log;
  }

  lemma UsesStep(s: State, e: Event)
    requires BirthsOk(s) && UsesOk(s) && Enabled(s, e) && InOrder(s, e)
    ensures UsesOk(Step(s, e))
  {
    if e.Acquire? { UsesAcquire(s, e.user, e.now); }
  }

  lemma UsesAcquire(s: State, u: User, now: int)
    requires BirthsOk(s) && UsesOk(s) && now >= s.clock
    ensures UsesOk(Step(s, Acquire(u, now)))
  {
    var s' := Step(s, Acquire(u, now));
    var r := Record(u, Number(s', u));
    UsedAppend(s.log, Admission(r, now));
    ForUser(s, u, now);
    NoneTooMany(s, u, now);
    forall v | v in s'.limiter.users ensures Used(s'.log, Record(v, Number(s', v))) == s'.limiter.users[v].count {
      if v != u {
        assert v in s.limiter.users && s'.limiter.users[v] == s.limiter.users[v];
        assert Number(s', v) == Number(s, v);
      }
    }
  }

  lemma NoneTooMany(s: State, u: User, now: int)
    requires BirthsOk(s) && UsesOk(s) && now >= s.clock
    ensures var s' := Step(s, Acquire(u, now));
            forall q: Record :: Used(s'.log, q) <= PER_RECORD &&
                                (q.number > Number(s', q.user) ==> Used(s'.log, q) == 0)
  {
    var s' := Step(s, Acquire(u, now));
    UsedAppend(s.log, Admission(Record(u, Number(s', u)), now));
    ForUser(s, u, now);
    forall q: Record ensures Used(s'.log, q) <= PER_RECORD && (q.number > Number(s', q.user) ==> Used(s'.log, q) == 0) {
      assert q.user != u ==> Number(s', q.user) == Number(s, q.user);
    }
  }

  /** The record about to be used has been used as often as its count says. */
  lemma ForUser(s: State, u: User, now: int)
    requires BirthsOk(s) && UsesOk(s) && now >= s.clock
    ensures var n, users := Number(Step(s, Acquire(u, now)), u), WithRecord(s.limiter.users, u, now);
            && n >= Number(s, u)
            && (u in users ==> Used(s.log, Record(u, n)) == users[u].count)
  {
  }

  lemma SpreadStep(s: State, e: Event)
    requires BirthsOk(s) && LogOk(s) && Spread(s.log) && Enabled(s, e) && InOrder(s, e)
    ensures Spread(Step(s, e).log)
  {
    if e.Acquire? && Grants(s.limiter, e.user, e.now) {
      var s' := Step(s, e);
      var n := |s.log|;
      NewEntryOk(s, e.user, e.now);
      BirthsStep(s, e);
      forall i | 0 <= i < n ensures EntryOk(s', s.log[i]) { EntryStep(s, e, s.log[i]); }
    }
  }

  lemma {:induction false} RateRun(s: State, es: seq<Event>)
    requires RateOk(s) && Legal(s, es) && AllInOrder(s, es)
    ensures RateOk(After(s, es))
    decreases |es|
  {
    if es != [] {
      BirthsStep(s, es[0]);
      LogStep(s, es[0]);
      UsesStep(s, es[0]);
      SpreadStep(s, es[0]);
      RateRun(Step(s, es[0]), es[1..]);
    }
  }

  lemma {:induction false} TwoRecordsCover(log: seq<Admission>, u: User, from: int, n: nat)
    requires forall a | a in log && a.record.user == u && from <= a.time < from + MINUTE ::
               a.record.number in {n, n + 1}
    ensures InMinute(log, u, from) <= Used(log, Record(u, n)) + Used(log, Record(u, n + 1))
  {
    if log != [] { TwoRecordsCover(log[..|log| - 1], u, from, n); }
  }

  lemma {:induction false} FirstInMinute(log: seq<Admission>, u: User, from: int) returns (i: nat)
    requires InMinute(log, u, from) > 0
    ensures i < |log| && log[i].record.user == u && from <= log[i].time < from + MINUTE
    ensures forall j | 0 <= j < i && log[j].record.user == u :: !(from <= log[j].time < from + MINUTE)
  {
    var n := |log| - 1;
    if InMinute(log[..n], u, from) > 0 {
      i := FirstInMinute(log[..n], u, from);
    } else {
      i := n;
      NoneInMinute(log[..n], u, from);
    }
  }

  lemma {:induction false} NoneInMinute(log: seq<Admission>, u: User, from: int)
    requires InMinute(log, u, from) == 0
    ensures forall j | 0 <= j < |log| && log[j].record.user == u :: !(from <= log[j].time < from + MINUTE)
  {
    if log != [] { NoneInMinute(log[..|log| - 1], u, from); }
  }

  /** When the clock readings entered the lock in order, any interval shorter than a minute admits at
      most 120 imports of one user: two records' worth. */
  lemma AtMost120PerMinute(es: seq<Event>, u: User, from: int)
    requires Legal(Init(), es) && AllInOrder(Init(), es)
    ensures InMinute(After(Init(), es).log, u, from) <= 2 * PER_RECORD
  {
    RateRun(Init(), es);
    var log := After(Init(), es).log;
    if InMinute(log, u, from) > 0 {
      var i := FirstInMinute(log, u, from);
      AllOnTwoRecords(log, u, from, i);
      TwoRecordsCover(log, u, from, log[i].record.number);
    }
  }

  lemma AllOnTwoRecords(log: seq<Admission>, u: User, from: int, i: nat)
    requires Spread(log) && i < |log| && log[i].record.user == u && from <= log[i].time < from + MINUTE
    requires forall j | 0 <= j < i && log[j].record.user == u :: !(from <= log[j].time < from + MINUTE)
    ensures forall a | a in log && a.record.user == u && from <= a.time < from + MINUTE ::
              a.record.number in {log[i].record.number, log[i].record.number + 1}
  {
    forall a | a in log && a.record.user == u && from <= a.time < from + MINUTE
      ensures a.record.number in {log[i].record.number, log[i].record.number + 1}
    {
      var j :| 0 <= j < |log| && log[j] == a;
    }
  }
}
