/** Delivering Pulse experience grants into the community ledger: award first, acknowledge
    after, with any number of consumers that may stop anywhere and come back with stale
    pages. Pulse may reverse a grant at any time.

    A consumer's knowledge is what it was once shown, so `listed` (every delivery any fetch
    ever returned) and `applied` (every award that ever committed) are all the memory the
    consumers share: an award of anything ever listed and an acknowledgement of anything
    ever applied cover every interleaving, restart and duplicate. */
module ExperienceOutbox {

  type GrantId = string

  datatype Status = Pending | Settled | Reversed

  /** Pulse's own row. */
  datatype Grant = Grant(amount: int, status: Status, delivered: bool)

  /** One line of a fetched page; `reversed` is its status. */
  datatype Delivery = Delivery(grant: GrantId, amount: int, reversed: bool)

  datatype EntryState = Awarded | Revoked
  datatype Entry = Entry(amount: int, state: EntryState)
  datatype Change = Change(grant: GrantId, delta: int)

  datatype World = World(grants: map<GrantId, Grant>, entries: map<GrantId, Entry>, ledger: seq<Change>,
                         listed: set<Delivery>, applied: set<Delivery>, acked: set<Delivery>)

  const MAX_AMOUNT: int := 1_000_000

  function Init(): World { World(map[], map[], [], {}, {}, {}) }

  predicate ProperAmount(a: int) { 1 <= a <= MAX_AMOUNT }

  predicate ProperId(g: GrantId) {
    1 <= |g| <= 100 && forall c | c in g :: c != ' ' && c != '/' && c != '\\'
  }

  // ---- the community store ------------------------------------------------------------------

  /** `AwardPulse` refuses a malformed grant and a grant whose amount changed. */
  predicate AwardCommits(w: World, d: Delivery) {
    && ProperId(d.grant) && ProperAmount(d.amount)
    && (d.grant in w.entries ==> w.entries[d.grant].amount == d.amount)
  }

  /** A first award credits; a reversal takes back what was credited and leaves a tombstone;
      everything else changes nothing. */
  function Award(w: World, d: Delivery): World {
    if d.grant !in w.entries then
      if d.reversed then w.(entries := w.entries[d.grant := Entry(d.amount, Revoked)])
      else w.(entries := w.entries[d.grant := Entry(d.amount, Awarded)],
              ledger := w.ledger + [Change(d.grant, d.amount)])
    else if d.reversed && w.entries[d.grant].state.Awarded? then
      var e := w.entries[d.grant];
      w.(entries := w.entries[d.grant := e.(state := Revoked)], ledger := w.ledger + [Change(d.grant, -e.amount)])
    else w
  }

  // ---- Pulse --------------------------------------------------------------------------------

  predicate IsListed(w: World, d: Delivery) {
    && d.grant in w.grants && !w.grants[d.grant].delivered
    && w.grants[d.grant].amount == d.amount
    && w.grants[d.grant].status == (if d.reversed then Reversed else Pending)
  }

  function AckedStatus(d: Delivery): Status { if d.reversed then Reversed else Settled }

  /** Pulse accepts an acknowledgement of the state it still has, or a repetition. */
  predicate AckAccepted(w: World, d: Delivery) {
    && d.grant in w.grants
    && var g := w.grants[d.grant];
       || (g.delivered && g.status == AckedStatus(d))
       || (!g.delivered && g.status == (if d.reversed then Reversed else Pending))
  }

  function Acknowledged(w: World, d: Delivery): World
    requires AckAccepted(w, d)
  {
    w.(grants := w.grants[d.grant := w.grants[d.grant].(status := AckedStatus(d), delivered := true)],
       acked := w.acked + {d})
  }

  // ---- runs ---------------------------------------------------------------------------------

  datatype Event =
    | Mint(grant: GrantId, amount: int)
    | Reverse(grant: GrantId)
    | List(delivery: Delivery)
    | Apply(delivery: Delivery)
    | Ack(delivery: Delivery)

  predicate Enabled(w: World, e: Event) {
    match e
    case Mint(g, amount) => g !in w.grants && ProperAmount(amount)
    case Reverse(g) => g in w.grants
    case List(d) => IsListed(w, d)
    case Apply(d) => d in w.listed && AwardCommits(w, d)
    case Ack(d) => d in w.applied && AckAccepted(w, d)
  }

  function Step(w: World, e: Event): World
    requires Enabled(w, e)
  {
    match e
    case Mint(g, amount) => w.(grants := w.grants[g := Grant(amount, Pending, false)])
    case Reverse(g) =>
      if w.grants[g].status.Reversed? then w
      else w.(grants := w.grants[g := w.grants[g].(status := Reversed, delivered := false)])
    case List(d) => w.(listed := w.listed + {d})
    case Apply(d) => Award(w, d).(applied := w.applied + {d})
    case Ack(d) => Acknowledged(w, d)
  }

  predicate Legal(w: World, es: seq<Event>)
    decreases |es|
  {
    es == [] || (Enabled(w, es[0]) && Legal(Step(w, es[0]), es[1..]))
  }

  function After(w: World, es: seq<Event>): World
    requires Legal(w, es)
    decreases |es|
  {
    if es == [] then w else After(Step(w, es[0]), es[1..])
  }

  // ---- what holds -----------------------------------------------------------------------------

  function Net(ledger: seq<Change>, g: GrantId): int {
    if ledger == [] then 0
    else Net(ledger[..|ledger| - 1], g) + if ledger[|ledger| - 1].grant == g then ledger[|ledger| - 1].delta else 0
  }

  function Credits(ledger: seq<Change>, g: GrantId): nat {
    if ledger == [] then 0
    else
      var c := ledger[|ledger| - 1];
      Credits(ledger[..|ledger| - 1], g) + if c.grant == g && c.delta > 0 then 1 else 0
  }

  /** What the ledger should say of a grant. */
  function Worth(w: World, g: GrantId): int {
    if g in w.entries && w.entries[g].state.Awarded? then w.entries[g].amount else 0
  }

  ghost predicate LedgerOk(w: World) {
    && (forall g :: Net(w.ledger, g) == Worth(w, g))
    && (forall g :: Credits(w.ledger, g) <= if g in w.entries then 1 else 0)
    && (forall g | g in w.entries :: ProperAmount(w.entries[g].amount))
  }

  ghost predicate MemoryOk(w: World) {
    && (forall d | d in w.listed :: d.grant in w.grants && w.grants[d.grant].amount == d.amount
                                    && (d.reversed ==> w.grants[d.grant].status.Reversed?))
    && w.applied <= w.listed
    && (forall d | d in w.applied :: d.grant in w.entries && (d.reversed ==> w.entries[d.grant].state.Revoked?))
    && (forall g | g in w.entries :: g in w.grants && w.entries[g].amount == w.grants[g].amount
                                     && (w.entries[g].state.Revoked? ==> w.grants[g].status.Reversed?))
    && w.acked <= w.applied
    && (forall g | g in w.grants && w.grants[g].delivered ::
          !w.grants[g].status.Pending? && Delivery(g, w.grants[g].amount, w.grants[g].status.Reversed?) in w.applied)
  }

  lemma NetAppend(ledger: seq<Change>, c: Change)
    ensures forall g :: Net(ledger + [c], g) == Net(ledger, g) + if c.grant == g then c.delta else 0
    ensures forall g :: Credits(ledger + [c], g) == Credits(ledger, g) + if c.grant == g && c.delta > 0 then 1 else 0
  {
    assert (ledger + [c])[..|ledger|] == ledger;
  }

  lemma AwardLedger(w: World, d: Delivery)
    requires LedgerOk(w) && AwardCommits(w, d)
    ensures LedgerOk(Award(w, d))
  {
    if d.grant !in w.entries && !d.reversed {
      NetAppend(w.ledger, Change(d.grant, d.amount));
    } else if d.grant in w.entries && d.reversed && w.entries[d.grant].state.Awarded? {
      NetAppend(w.ledger, Change(d.grant, -d.amount));
    }
  }

  lemma LedgerStep(w: World, e: Event)
    requires LedgerOk(w) && Enabled(w, e)
    ensures LedgerOk(Step(w, e))
  {
    var w' := Step(w, e);
    if e.Apply? {
      AwardLedger(w, e.delivery);
      var a := Award(w, e.delivery);
      assert w'.ledger == a.ledger && w'.entries == a.entries;
    } else {
      assert w'.ledger == w.ledger && w'.entries == w.entries;
    }
    SameBooks(if e.Apply? then Award(w, e.delivery) else w, w');
  }

  lemma SameBooks(w: World, w': World)
    requires LedgerOk(w) && w'.ledger == w.ledger && w'.entries == w.entries
    ensures LedgerOk(w')
  {
    forall g ensures Net(w'.ledger, g) == Worth(w', g) { assert Worth(w', g) == Worth(w, g); }
  }

  lemma MemoryStep(w: World, e: Event)
    requires MemoryOk(w) && Enabled(w, e)
    ensures MemoryOk(Step(w, e))
  {
  }

  lemma {:induction false} RunOk(w: World, es: seq<Event>)
    requires LedgerOk(w) && MemoryOk(w) && Legal(w, es)
    ensures LedgerOk(After(w, es)) && MemoryOk(After(w, es))
    decreases |es|
  {
    if es != [] {
      LedgerStep(w, es[0]);
      MemoryStep(w, es[0]);
      RunOk(Step(w, es[0]), es[1..]);
    }
  }

  /** Whatever stops, restarts or runs twice: a grant is credited at most once, its net worth
      is its amount or nothing, and only applied deliveries are acknowledged. */
  lemma CreditedAtMostOnce(es: seq<Event>, g: GrantId)
    requires Legal(Init(), es)
    ensures var w := After(Init(), es);
            && Credits(w.ledger, g) <= 1
            && Net(w.ledger, g) == Worth(w, g)
            && w.acked <= w.applied <= w.listed
  {
    RunOk(Init(), es);
  }

  /** Once Pulse holds a grant as delivered, both sides agree: its amount is in the community
      ledger exactly when the grant is settled, and nothing is when it is reversed. */
  lemma DeliveredMeansAgreed(es: seq<Event>, g: GrantId)
    requires Legal(Init(), es)
    requires g in After(Init(), es).grants && After(Init(), es).grants[g].delivered
    ensures var w := After(Init(), es);
            Net(w.ledger, g) == if w.grants[g].status.Settled? then w.grants[g].amount else 0
  {
    RunOk(Init(), es);
  }

  /** An applied reversal is final: no stale award brings the grant back. */
  lemma {:induction false} ReversalIsFinal(w: World, es: seq<Event>, d: Delivery)
    requires LedgerOk(w) && MemoryOk(w) && Legal(w, es) && d in w.applied && d.reversed
    ensures Net(After(w, es).ledger, d.grant) == 0
    decreases |es|
  {
    if es != [] {
      LedgerStep(w, es[0]);
      MemoryStep(w, es[0]);
      ReversalIsFinal(Step(w, es[0]), es[1..], d);
    }
  }

  lemma {:induction false} Extend(w: World, es: seq<Event>, e: Event)
    requires Legal(w, es) && Enabled(After(w, es), e)
    ensures Legal(w, es + [e]) && After(w, es + [e]) == Step(After(w, es), e)
    decreases |es|
  {
    if es == [] {
      assert [e][1..] == [];
    } else {
      Extend(Step(w, es[0]), es[1..], e);
      assert (es + [e])[1..] == es[1..] + [e];
    }
  }

  // ---- the consumer ------------------------------------------------------------------------------

  /** A fetched page, an empty answer for an unknown account, or a failure. */
  datatype Page = Deliveries(list: seq<Delivery>) | NotFound | Unavailable

  const PAGES: nat := 3
  const PAGE_SIZE: nat := 20

  /** Lists, awards and acknowledgements are never taken back. */
  ghost predicate Remembers(w: World, w': World) {
    w.listed <= w'.listed && w.applied <= w'.applied && w.acked <= w'.acked
  }

  /** What an end of the delivery said last. */
  datatype Answer = Nothing | Fetched(page: Page) | AwardSaid(ok: bool) | AckSaid(ok: bool)

  /** The end of the outbox: nothing is left, or the account is unknown. */
  predicate IsEnd(p: Page) { p == NotFound || p == Deliveries([]) }

  /** A page that is gone through: one to twenty deliveries. */
  predicate IsFull(p: Page) { p.Deliveries? && 1 <= |p.list| <= 20 }

  function Lines(pages: seq<Page>): seq<Delivery> {
    if pages == [] then []
    else Lines(pages[..|pages| - 1]) + if pages[|pages| - 1].Deliveries? then pages[|pages| - 1].list else []
  }

  /** Why a run that received `pages` and went past `passed` may give up: the last page failed or
      was too long; the next delivery is of no proper amount, or was not awarded, or not
      acknowledged; or three pages were passed in full. */
  ghost predicate MayGiveUp(pages: seq<Page>, passed: seq<Delivery>, last: Answer)
    requires pages != []
  {
    var page, lines := pages[|pages| - 1], Lines(pages);
    || page == Unavailable
    || (page.Deliveries? && |page.list| > 20)
    || (|passed| < |lines| && Fails(lines[|passed|], last))
    || (|pages| == 3 && passed == lines)
  }

  predicate Fails(d: Delivery, last: Answer) {
    !(1 <= d.amount <= 1000000) || last == AwardSaid(false) || last == AckSaid(false)
  }

  class Consumer {
    var w: World
    ghost var trace: seq<Event>
    ghost var pages: seq<Page>                     // every page fetched so far
    ghost var acked: seq<Delivery>                 // every delivery acknowledged so far
    ghost var last: Answer

    ghost predicate Valid()
      reads this
    {
      Legal(Init(), trace) && w == After(Init(), trace)
    }

    constructor ()
      ensures Valid() && pages == []
    {
      w, trace, pages, acked, last := Init(), [], [], [], Nothing;
    }

    method Fire(e: Event)
      requires Valid() && Enabled(w, e)
      modifies this`w, this`trace
      ensures Valid() && w == Step(old(w), e) && old(trace) <= trace
    {
      Extend(Init(), trace, e);
      w := Step(w, e);
      trace := trace + [e];
    }

    /** Pulse and the other consumers, for as long as they like. What was listed or applied
        stays so. */
    method Others()
      requires Valid()
      modifies this`w, this`trace
      ensures Valid() && old(trace) <= trace && Remembers(old(w), w)
    {
      var n: nat := *;
      while n > 0
        invariant Valid() && old(trace) <= trace && Remembers(old(w), w)
      {
        var e: Event := *;
        if Enabled(w, e) { Fire(e); }
        n := n - 1;
      }
    }

    /** GET experience: every line of a page is listed. */
    method Fetch() returns (page: Page)
      requires Valid()
      modifies this
      ensures Valid() && old(trace) <= trace && Remembers(old(w), w)
      ensures page.Deliveries? ==> forall d | d in page.list :: d in w.listed
      ensures pages == old(pages) + [page] && acked == old(acked) && last == Fetched(page)
    {
      Others();
      var raw: Page := *;
      if !raw.Deliveries? {
        pages, last := pages + [raw], Fetched(raw);
        return raw;
      }
      var list: seq<Delivery> := [];
      for i := 0 to |raw.list|
        invariant Valid() && old(trace) <= trace && Remembers(old(w), w)
        invariant pages == old(pages) && acked == old(acked) && forall d | d in list :: d in w.listed
      {
        if IsListed(w, raw.list[i]) {
          Fire(List(raw.list[i]));
          list := list + [raw.list[i]];
        }
      }
      page := Deliveries(list);
      pages, last := pages + [page], Fetched(page);
    }

    method AwardPulse(d: Delivery) returns (ok: bool)
      requires Valid() && d in w.listed
      modifies this`w, this`trace, this`last
      ensures Valid() && old(trace) <= trace && Remembers(old(w), w)
      ensures last == AwardSaid(ok) && (ok ==> d in w.applied)
    {
      Others();
      ok := *;
      ok := ok && AwardCommits(w, d);
      if ok { Fire(Apply(d)); }
      last := AwardSaid(ok);
    }

    /** POST ack: true only for a 200 answer. */
    method Acknowledge(d: Delivery) returns (ok: bool)
      requires Valid() && d in w.applied
      modifies this`w, this`trace, this`last, this`acked
      ensures Valid() && old(trace) <= trace && Remembers(old(w), w)
      ensures last == AckSaid(ok) && acked == old(acked) + (if ok then [d] else []) && (ok ==> d in w.acked)
    {
      Others();
      ok := AckAccepted(w, d);
      if ok {
        var reached: bool := *;
        if reached { Fire(Ack(d)); }
        var replied: bool := *;
        ok := reached && replied;
      }
      last := AckSaid(ok);
      if ok { acked := acked + [d]; }
    }

    /** `consumePulseExperience`. It fetches one to three pages and goes through them in order,
        applying and then acknowledging every delivery. It returns nil exactly when it comes to
        an end of the outbox with everything before it passed, and anything else for one of the
        reasons above. */
    method Consume() returns (ok: bool, ghost got: seq<Page>, ghost passed: seq<Delivery>)
      requires Valid()
      modifies this
      ensures Valid() && old(trace) <= trace
      ensures pages == old(pages) + got && 1 <= |got| <= 3 && forall i | 0 <= i < |got| - 1 :: IsFull(got[i])
      ensures acked == old(acked) + passed && passed <= Lines(got) && |passed| <= 60
      ensures forall d | d in passed :: d in w.applied && d in w.acked
      ensures ok <==> IsEnd(got[|got| - 1])
      ensures if ok then passed == Lines(got) else MayGiveUp(got, passed, last)
    {
      got, passed := [], [];
      for i := 0 to PAGES
        invariant Valid() && old(trace) <= trace && pages == old(pages) + got && acked == old(acked) + passed
        invariant |got| == i && (forall k | 0 <= k < i :: IsFull(got[k])) && passed == Lines(got) && |passed| <= 20 * i
        invariant forall d | d in passed :: d in w.applied && d in w.acked
      {
        ghost var part;
        var page, whole;
        page, whole, part := OnePage();
        PageMore(got, page, part);
        got, passed := got + [page], passed + part;
        if page.NotFound? { return true, got, passed; }
        if page.Unavailable? || |page.list| > PAGE_SIZE { return false, got, passed; }
        if |page.list| == 0 { return true, got, passed; }
        if !whole { return false, got, passed; }
      }
      ok := false;
    }

    /** Fetches a page and, unless it ends the run by itself, goes through it. */
    method OnePage() returns (page: Page, whole: bool, ghost part: seq<Delivery>)
      requires Valid()
      modifies this
      ensures Valid() && old(trace) <= trace && Remembers(old(w), w)
      ensures pages == old(pages) + [page] && acked == old(acked) + part
      ensures forall d | d in part :: d in w.applied && d in w.acked
      ensures if IsFull(page)
              then part <= page.list && if whole then part == page.list
                                        else |part| < |page.list| && Fails(page.list[|part|], last)
              else part == [] && last == Fetched(page)
    {
      page := Fetch();
      whole, part := true, [];
      if page.Deliveries? && 1 <= |page.list| <= PAGE_SIZE { whole, part := PassPage(page.list); }
    }

    /** One page: every delivery is applied and then acknowledged, up to the first that fails. */
    method PassPage(list: seq<Delivery>) returns (ok: bool, ghost passed: seq<Delivery>)
      requires Valid() && forall d | d in list :: d in w.listed
      modifies this`w, this`trace, this`last, this`acked
      ensures Valid() && old(trace) <= trace && Remembers(old(w), w)
      ensures acked == old(acked) + passed && passed <= list
      ensures forall d | d in passed :: d in w.applied && d in w.acked
      ensures if ok then passed == list else |passed| < |list| && Fails(list[|passed|], last)
    {
      passed := [];
      for j := 0 to |list|
        invariant Valid() && old(trace) <= trace && Remembers(old(w), w)
        invariant acked == old(acked) + passed && passed == list[..j]
        invariant forall d | d in passed :: d in w.applied && d in w.acked
      {
        var d := list[j];
        if !ProperAmount(d.amount) { return false, passed; }
        var awarded := AwardPulse(d);
        if !awarded { return false, passed; }
        var acknowledged := Acknowledge(d);
        if !acknowledged { return false, passed; }
        passed := passed + [d];
      }
      ok := true;
    }
  }

  lemma PageMore(got: seq<Page>, page: Page, part: seq<Delivery>)
    requires if IsFull(page) then part <= page.list else part == []
    ensures var before, lines := Lines(got), Lines(got + [page]);
            && before + part <= lines
            && (IsFull(page) && part == page.list ==> before + part == lines && |lines| <= |before| + 20)
            && (IsFull(page) && |part| < |page.list| ==> |before + part| < |lines| && |before + part| < |before| + 20
                                                          && lines[|before + part|] == page.list[|part|])
            && (IsEnd(page) ==> before + part == lines)
  {
    OnePageMore(got, page);
  }

  lemma OnePageMore(pages: seq<Page>, page: Page)
    ensures Lines(pages + [page]) == Lines(pages) + if page.Deliveries? then page.list else []
  {
    assert (pages + [page])[..|pages|] == pages;
  }

  // ---- the two ends ---------------------------------------------------------------------------------

  /** What an award does: the first one of a proper grant credits it, or for a reversal leaves a
      tombstone; a reversal of a credited grant takes the amount back; the same again changes
      nothing; and a changed amount or a malformed grant is refused. */
  lemma AwardExactly(w: World, d: Delivery)
    ensures AwardCommits(w, d) <==>
            && 1 <= |d.grant| <= 100 && (forall i | 0 <= i < |d.grant| :: d.grant[i] !in " /\\")
            && 1 <= d.amount <= 1000000
            && (d.grant in w.entries ==> w.entries[d.grant].amount == d.amount)
    ensures var w' := Award(w, d);
            && (d.grant !in w.entries && !d.reversed ==>
                  w'.ledger == w.ledger + [Change(d.grant, d.amount)]
                  && w'.entries == w.entries[d.grant := Entry(d.amount, Awarded)])
            && (d.grant !in w.entries && d.reversed ==>
                  w'.ledger == w.ledger && w'.entries == w.entries[d.grant := Entry(d.amount, Revoked)])
            && (d.grant in w.entries && d.reversed && w.entries[d.grant].state == Awarded ==>
                  w'.ledger == w.ledger + [Change(d.grant, -w.entries[d.grant].amount)]
                  && w'.entries == w.entries[d.grant := Entry(w.entries[d.grant].amount, Revoked)])
            && (d.grant in w.entries && (!d.reversed || w.entries[d.grant].state == Revoked) ==> w' == w)
  {
    forall i | 0 <= i < |d.grant| ensures d.grant[i] in d.grant {}
    assert forall c: char :: c in " /\\" <==> c == ' ' || c == '/' || c == '\\';
  }

  /** What Pulse lists, accepts and takes back. It lists an undelivered grant in the state it is
      in; it accepts an acknowledgement of that state, or the same one again, and settles a
      pending grant by it; and a reversal makes any grant undelivered again, once. */
  lemma PulseExactly(w: World, d: Delivery, g: GrantId)
    ensures IsListed(w, d) <==>
            d.grant in w.grants && w.grants[d.grant] == Grant(d.amount, if d.reversed then Reversed else Pending, false)
    ensures AckAccepted(w, d) <==>
            && d.grant in w.grants
            && var row := w.grants[d.grant];
               || (!row.delivered && row.status == (if d.reversed then Reversed else Pending))
               || (row.delivered && row.status == (if d.reversed then Reversed else Settled))
    ensures AckAccepted(w, d) ==>
              Acknowledged(w, d).grants ==
              w.grants[d.grant := Grant(w.grants[d.grant].amount, if d.reversed then Reversed else Settled, true)]
    ensures g in w.grants ==>
              Step(w, Reverse(g)).grants ==
              if w.grants[g].status == Reversed then w.grants
              else w.grants[g := Grant(w.grants[g].amount, Reversed, false)]
  {
  }

  /** A grant that stays pending is delivered by one listing, award and acknowledgement, and is
      then credited and settled. */
  lemma PendingIsDelivered(es: seq<Event>, g: GrantId)
    requires Legal(Init(), es)
    requires var w := After(Init(), es);
             && g in w.grants && w.grants[g].status.Pending? && !w.grants[g].delivered
             && 1 <= |g| <= 100 && forall i | 0 <= i < |g| :: g[i] !in " /\\"
    ensures var w := After(Init(), es);
            var d := Delivery(g, w.grants[g].amount, false);
            && Enabled(w, List(d)) && Enabled(Step(w, List(d)), Apply(d))
            && Enabled(Step(Step(w, List(d)), Apply(d)), Ack(d))
            && var end := Step(Step(Step(w, List(d)), Apply(d)), Ack(d));
               end.grants[g] == Grant(w.grants[g].amount, Settled, true) && Net(end.ledger, g) == w.grants[g].amount
  {
    var w := After(Init(), es);
    RunOk(Init(), es);
    AmountsAreProper(es, g);
    Delivered(w, Delivery(g, w.grants[g].amount, false));
  }

  lemma Delivered(w: World, d: Delivery)
    requires LedgerOk(w) && MemoryOk(w) && IsListed(w, d) && !d.reversed && 1 <= d.amount <= 1000000
    requires 1 <= |d.grant| <= 100 && forall i | 0 <= i < |d.grant| :: d.grant[i] !in " /\\"
    ensures Enabled(w, List(d)) && Enabled(Step(w, List(d)), Apply(d))
    ensures Enabled(Step(Step(w, List(d)), Apply(d)), Ack(d))
    ensures var end := Step(Step(Step(w, List(d)), Apply(d)), Ack(d));
            end.grants[d.grant] == Grant(d.amount, Settled, true) && Net(end.ledger, d.grant) == d.amount
  {
    AwardExactly(w, d);
    var w1 := w.(listed := w.listed + {d});
    assert Step(w, List(d)) == w1 && AwardCommits(w1, d);
    LedgerStep(w, List(d));
    LedgerStep(w1, Apply(d));
    Credited(w1, d);
    LedgerStep(Step(w1, Apply(d)), Ack(d));
  }

  lemma Credited(w: World, d: Delivery)
    requires MemoryOk(w) && d in w.listed && AwardCommits(w, d) && !d.reversed
    requires d.grant in w.grants && w.grants[d.grant] == Grant(d.amount, Pending, false)
    ensures var w' := Step(w, Apply(d));
            && Enabled(w', Ack(d)) && d.grant in w'.entries && w'.entries[d.grant] == Entry(d.amount, Awarded)
            && w'.grants == w.grants
  {
  }

  lemma AmountsAreProper(es: seq<Event>, g: GrantId)
    requires Legal(Init(), es) && g in After(Init(), es).grants
    ensures 1 <= After(Init(), es).grants[g].amount <= 1000000
  {
    AmountsStayProper(Init(), es);
  }

  lemma {:induction false} AmountsStayProper(w: World, es: seq<Event>)
    requires Legal(w, es) && forall g | g in w.grants :: 1 <= w.grants[g].amount <= 1000000
    ensures forall g | g in After(w, es).grants :: 1 <= After(w, es).grants[g].amount <= 1000000
    decreases |es|
  {
    if es != [] { AmountsStayProper(Step(w, es[0]), es[1..]); }
  }
}
