/** One batch of community ticket receipts: each pending receipt is deferred first, then
    posted, then acknowledged when Pulse confirms it. A receipt that fails is left pending
    and the next one is tried; only a failure of the local database ends the batch. */
module TicketBatch {
  import opened Basics

  datatype Receipt = Receipt(id: nat, user: string, external: string, day: string, category: string, ordinal: int)

  /** A row of the durable outbox. */
  datatype Row = Row(receipt: Receipt, delivered: bool, nextAttempt: int)

  /** What happened to one receipt: whether the two local writes succeeded, whom the identity
      lookup returned, and Pulse's answer. `granted` says whether the POST took effect there,
      which a lost answer leaves unknown to the caller. */
  datatype Reply = Reply(deferOk: bool, identity: Option<string>, granted: bool, status: int,
                         entry: Option<nat>, ackOk: bool)

  const BACKOFF: int := 60

  /** Pulse answers an entry number only for a ticket it has. */
  predicate Honest(r: Reply) { r.status == 200 && r.entry.Some? && r.entry.value > 0 ==> r.granted }

  predicate Confirmed(x: Receipt, r: Reply) {
    r.identity == Some(x.external) && r.status == 200 && r.entry.Some? && r.entry.value > 0
  }

  /** The local database failed while this receipt was handled. */
  predicate Breaks(x: Receipt, r: Reply) { !r.deferOk || (Confirmed(x, r) && !r.ackOk) }

  /** How many receipts are handled in full. */
  function Handled(xs: seq<Receipt>, rs: seq<Reply>): (n: nat)
    requires |xs| == |rs|
    ensures n <= |xs|
    ensures forall i | 0 <= i < n :: !Breaks(xs[i], rs[i])
    ensures n < |xs| ==> Breaks(xs[n], rs[n])
  {
    if xs == [] || Breaks(xs[0], rs[0]) then 0 else 1 + Handled(xs[1..], rs[1..])
  }

  predicate Due(r: Row, now: int) { !r.delivered && r.nextAttempt <= now }

  /** A page of distinct due receipts, at most a hundred. */
  predicate IsPage(outbox: map<nat, Row>, now: int, xs: seq<Receipt>) {
    && |xs| <= 100
    && (forall i | 0 <= i < |xs| ::
          xs[i].id in outbox && outbox[xs[i].id].receipt == xs[i] && Due(outbox[xs[i].id], now))
    && (forall i, j | 0 <= i < j < |xs| :: xs[i].id != xs[j].id)
  }

  class TicketStore {
    var outbox: map<nat, Row>
    var granted: set<Receipt>

    /** A receipt marked delivered is a ticket Pulse has. */
    ghost predicate Valid()
      reads this
    {
      forall id | id in outbox :: outbox[id].receipt.id == id
                                  && (outbox[id].delivered ==> outbox[id].receipt in granted)
    }

    constructor (outbox: map<nat, Row>)
      requires forall id | id in outbox :: outbox[id].receipt.id == id && !outbox[id].delivered
      ensures Valid() && this.outbox == outbox && granted == {}
    {
      this.outbox, granted := outbox, {};
    }

    /** One turn of the receipt loop; false when the local database failed. */
    method Deliver(receipt: Receipt, reply: Reply, now: int) returns (ok: bool)
      requires Valid() && receipt.id in outbox && outbox[receipt.id].receipt == receipt && !outbox[receipt.id].delivered
      requires Honest(reply)
      modifies this
      ensures Valid() && ok == !Breaks(receipt, reply)
      ensures granted == old(granted) + if Posts(receipt, reply) then {receipt} else {}
      ensures outbox == old(outbox)[receipt.id := Left(old(outbox)[receipt.id], reply, now)]
    {
      var row := outbox[receipt.id];
      if !reply.deferOk {
        assert outbox == outbox[receipt.id := row];
        return false;
      }
      row := row.(nextAttempt := now + BACKOFF);
      outbox := outbox[receipt.id := row];
      if reply.identity != Some(receipt.external) { return true; }
      if reply.granted { granted := granted + {receipt}; }
      if reply.status != 200 || reply.entry.None? || reply.entry.value == 0 { return true; }
      if !reply.ackOk { return false; }
      outbox := outbox[receipt.id := row.(delivered := true)];
      ok := true;
    }

    /** `communityTicketBatch` over the page `pending`. */
    method Batch(pending: seq<Receipt>, replies: seq<Reply>, collected: bool, now: int) returns (ok: bool)
      requires Valid() && IsPage(outbox, now, pending) && |replies| == |pending|
      requires forall r | r in replies :: Honest(r)
      modifies this
      ensures Valid()
      ensures granted == old(granted) + GrantedBy(pending, replies, Tried(pending, replies))
      ensures ok <==> collected && Handled(pending, replies) == |pending|
      ensures outbox == AfterBatch(old(outbox), pending, replies, now)
    {
      var i := 0;
      while i < |pending|
        invariant 0 <= i <= |pending| && Valid()
        invariant granted == old(granted) + GrantedBy(pending, replies, i)
        invariant IsPage(outbox, now, pending[i..])
        invariant AfterBatch(outbox, pending[i..], replies[i..], now) == AfterBatch(old(outbox), pending, replies, now)
        invariant i + Handled(pending[i..], replies[i..]) == Handled(pending, replies)
      {
        Turn(outbox, pending, replies, now, i);
        var handled := Deliver(pending[i], replies[i], now);
        if !handled { return false; }
        i := i + 1;
      }
      ok := collected;
    }
  }

  /** The POST is made and takes effect: the receipt was postponed and is its owner's. */
  predicate Posts(x: Receipt, r: Reply) { r.deferOk && r.identity == Some(x.external) && r.granted }

  /** How many receipts are tried: those handled and the one that broke the batch. */
  function Tried(xs: seq<Receipt>, rs: seq<Reply>): (n: nat)
    requires |xs| == |rs|
    ensures n <= |xs|
  {
    if Handled(xs, rs) < |xs| then Handled(xs, rs) + 1 else |xs|
  }

  /** The tickets the first `n` POSTs gave. */
  function GrantedBy(xs: seq<Receipt>, rs: seq<Reply>, n: nat): set<Receipt>
    requires n <= |xs| == |rs|
  {
    if n == 0 then {} else GrantedBy(xs, rs, n - 1) + if Posts(xs[n - 1], rs[n - 1]) then {xs[n - 1]} else {}
  }

  /** A receipt is among them exactly when it was one of the first `n`, could be postponed, was
      its owner's, and its POST took effect. */
  lemma {:induction false} GrantedExactly(xs: seq<Receipt>, rs: seq<Reply>, n: nat, x: Receipt)
    requires n <= |xs| == |rs|
    ensures x in GrantedBy(xs, rs, n) <==>
            exists i :: 0 <= i < n && xs[i] == x && rs[i].deferOk && rs[i].identity == Some(x.external) && rs[i].granted
  {
    if n > 0 { GrantedExactly(xs, rs, n - 1, x); }
  }

  /** The row after a turn: postponed unless the first write failed, delivered exactly when
      Pulse confirmed it and the last write succeeded. */
  function Left(row: Row, reply: Reply, now: int): Row {
    if !reply.deferOk then row
    else Row(row.receipt, row.delivered || (Confirmed(row.receipt, reply) && reply.ackOk), now + BACKOFF)
  }

  predicate Present(outbox: map<nat, Row>, xs: seq<Receipt>) {
    forall x | x in xs :: x.id in outbox
  }

  /** The outbox after a batch that stops at the first local failure. */
  function AfterBatch(outbox: map<nat, Row>, xs: seq<Receipt>, rs: seq<Reply>, now: int): map<nat, Row>
    requires |xs| == |rs| && Present(outbox, xs)
  {
    if xs == [] then outbox
    else
      var next := outbox[xs[0].id := Left(outbox[xs[0].id], rs[0], now)];
      if Breaks(xs[0], rs[0]) then next else AfterBatch(next, xs[1..], rs[1..], now)
  }

  lemma PageTail(outbox: map<nat, Row>, now: int, xs: seq<Receipt>, r: Reply)
    requires IsPage(outbox, now, xs) && xs != []
    ensures xs[0].id in outbox && IsPage(outbox[xs[0].id := Left(outbox[xs[0].id], r, now)], now, xs[1..])
  {
  }

  /** The batch from the i-th receipt on is its turn and, unless that breaks it, the rest. */
  lemma Turn(outbox: map<nat, Row>, xs: seq<Receipt>, rs: seq<Reply>, now: int, i: nat)
    requires i < |xs| == |rs| && IsPage(outbox, now, xs[i..])
    ensures xs[i].id in outbox && outbox[xs[i].id].receipt == xs[i] && !outbox[xs[i].id].delivered
    ensures var next := outbox[xs[i].id := Left(outbox[xs[i].id], rs[i], now)];
            && IsPage(next, now, xs[i + 1..])
            && if Breaks(xs[i], rs[i])
               then AfterBatch(outbox, xs[i..], rs[i..], now) == next && Handled(xs[i..], rs[i..]) == 0
               else AfterBatch(outbox, xs[i..], rs[i..], now) == AfterBatch(next, xs[i + 1..], rs[i + 1..], now)
                    && Handled(xs[i..], rs[i..]) == 1 + Handled(xs[i + 1..], rs[i + 1..])
  {
    assert xs[i..][1..] == xs[i + 1..] && rs[i..][1..] == rs[i + 1..];
    PageTail(outbox, now, xs[i..], rs[i]);
  }

  lemma {:induction false} Untouched(outbox: map<nat, Row>, xs: seq<Receipt>, rs: seq<Reply>, now: int, id: nat)
    requires |xs| == |rs| && Present(outbox, xs) && id in outbox
    requires forall x | x in xs :: x.id != id
    ensures id in AfterBatch(outbox, xs, rs, now) && AfterBatch(outbox, xs, rs, now)[id] == outbox[id]
  {
    if xs != [] && !Breaks(xs[0], rs[0]) {
      Untouched(outbox[xs[0].id := Left(outbox[xs[0].id], rs[0], now)], xs[1..], rs[1..], now, id);
    }
  }

  /** Receipt by receipt: everything up to the first local failure gets its own outcome,
      everything after it is as it was. */
  lemma {:induction false} EachOnItsOwn(outbox: map<nat, Row>, xs: seq<Receipt>, rs: seq<Reply>, now: int, i: nat)
    requires |xs| == |rs| && i < |xs| && IsPage(outbox, now, xs) && Present(outbox, xs)
    ensures var end := AfterBatch(outbox, xs, rs, now);
            xs[i].id in end
            && end[xs[i].id] == if i <= Handled(xs, rs) then Left(outbox[xs[i].id], rs[i], now) else outbox[xs[i].id]
  {
    var x := xs[0];
    var next := outbox[x.id := Left(outbox[x.id], rs[0], now)];
    PageTail(outbox, now, xs, rs[0]);
    forall y | y in xs[1..] ensures y.id != x.id && y.id in next {
      var k :| 0 <= k < |xs[1..]| && xs[1..][k] == y;
      assert xs[k + 1] == y;
    }
    if Breaks(x, rs[0]) {
    } else if i == 0 {
      Untouched(next, xs[1..], rs[1..], now, x.id);
    } else {
      EachOnItsOwn(next, xs[1..], rs[1..], now, i - 1);
    }
  }

  /** While the local database works, one receipt's failure stays its own: a receipt is
      acknowledged after the batch exactly when Pulse confirmed that receipt. */
  lemma FailureStaysLocal(outbox: map<nat, Row>, xs: seq<Receipt>, rs: seq<Reply>, now: int, i: nat)
    requires |xs| == |rs| && i < |xs| && IsPage(outbox, now, xs) && Present(outbox, xs)
    requires forall k | 0 <= k <= i :: rs[k].deferOk && rs[k].ackOk
    ensures var end := AfterBatch(outbox, xs, rs, now);
            xs[i].id in end && (end[xs[i].id].delivered <==> Confirmed(xs[i], rs[i]))
  {
    EachOnItsOwn(outbox, xs, rs, now, i);
  }

  /** Pulse named an entry for this receipt, and its owner is who it says. */
  predicate HasEntry(x: Receipt, r: Reply) {
    r.status == 200 && r.identity == Some(x.external) && r.entry.Some? && r.entry.value >= 1
  }

  /** The local database failed at this receipt: it could not be postponed, or could not be
      acknowledged when it should have been. */
  predicate FailedHere(x: Receipt, r: Reply) { !r.deferOk || (HasEntry(x, r) && !r.ackOk) }

  /** A receipt is left alone once the database failed at an earlier one or could not postpone
      it; otherwise it is put off by 60 seconds, and delivered exactly when Pulse named its
      entry and the acknowledgement was stored. */
  lemma RowExactly(outbox: map<nat, Row>, xs: seq<Receipt>, rs: seq<Reply>, now: int, i: nat)
    requires |xs| == |rs| && i < |xs| && IsPage(outbox, now, xs) && Present(outbox, xs)
    ensures var row, end := outbox[xs[i].id], AfterBatch(outbox, xs, rs, now);
            var reached := forall k | 0 <= k < i :: !FailedHere(xs[k], rs[k]);
            && xs[i].id in end
            && end[xs[i].id] ==
               if !reached || !rs[i].deferOk then row
               else Row(xs[i], HasEntry(xs[i], rs[i]) && rs[i].ackOk, now + 60)
  {
    EachOnItsOwn(outbox, xs, rs, now, i);
    assert forall k | 0 <= k < |xs| :: Breaks(xs[k], rs[k]) <==> FailedHere(xs[k], rs[k]);
  }

  /** Receipts outside the page are not touched, and a batch ends early exactly at the first
      receipt the database failed at. */
  lemma BatchEnds(outbox: map<nat, Row>, xs: seq<Receipt>, rs: seq<Reply>, now: int)
    requires |xs| == |rs| && Present(outbox, xs)
    ensures forall id | id in outbox && (forall x | x in xs :: x.id != id) ::
              id in AfterBatch(outbox, xs, rs, now) && AfterBatch(outbox, xs, rs, now)[id] == outbox[id]
    ensures Handled(xs, rs) == |xs| <==> forall k | 0 <= k < |xs| :: !FailedHere(xs[k], rs[k])
  {
    forall id | id in outbox && (forall x | x in xs :: x.id != id)
      ensures id in AfterBatch(outbox, xs, rs, now) && AfterBatch(outbox, xs, rs, now)[id] == outbox[id]
    {
      Untouched(outbox, xs, rs, now, id);
    }
    assert forall k | 0 <= k < |xs| :: Breaks(xs[k], rs[k]) <==> FailedHere(xs[k], rs[k]);
  }
}
