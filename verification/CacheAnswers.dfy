/** What a call to the browse cache returns and leaves behind, in terms of its entries. */
module CacheAnswers {
  import opened Basics
  import opened ContentCache

  predicate IsBrowseList(path: string) {
    "/question/page?" <= path || "/tags/page?" <= path || "/search?" <= path
  }

  /** The entry at position `i` answers this call: it is for this path, was made under this token
      and language, and waits for its reply or got it less than fifteen seconds ago. */
  predicate Answers(c: Cache, i: nat, path: string, scope: string, now: int) {
    && c.scope == Some(scope) && i < |c.slots| && c.slots[i].path == path && c.slots[i].promise < |c.requests|
    && (c.requests[c.slots[i].promise].pending || now - c.requests[c.slots[i].promise].settledAt < 15000)
  }

  lemma {:induction false} FindIs(slots: seq<Slot>, i: nat)
    requires DistinctPaths(slots) && i < |slots|
    ensures Find(slots, slots[i].path) == Some(slots[i].promise)
    ensures Without(slots, slots[i].path) == slots[..i] + slots[i + 1..]
  {
    if i == 0 {
      OthersDiffer(slots);
      Absent(slots[1..], slots[0].path);
    } else {
      assert slots[0].path != slots[i].path;
      FindIs(slots[1..], i - 1);
      assert slots[1..][i - 1] == slots[i] && slots[1..][..i - 1] == slots[1..i] && slots[1..][i..] == slots[i + 1..];
      assert [slots[0]] + slots[1..i] == slots[..i];
    }
  }

  /** A call that some entry answers returns that entry's promise and changes nothing. */
  lemma FreshIsReused(es: seq<Event>, path: string, scope: string, now: int, i: nat)
    requires Legal(Empty(), es) && IsBrowseList(path) && Answers(After(Empty(), es), i, path, scope, now)
    ensures var c := After(Empty(), es);
            Promise(c, path, scope, now) == c.slots[i].promise && Called(c, path, scope, now) == c
  {
    RunInv(Empty(), es);
    FindIs(After(Empty(), es).slots, i);
  }

  /** Any other call sends one request and returns it. Outside the browse lists nothing is kept;
      otherwise it is kept last, in place of an older one for its path, after emptying the cache
      if the token or language changed, and the oldest entry goes when there would be 25. */
  lemma OthersAreSent(es: seq<Event>, path: string, scope: string, now: int)
    requires Legal(Empty(), es)
    requires !(IsBrowseList(path) && exists i: nat :: Answers(After(Empty(), es), i, path, scope, now))
    ensures var c := After(Empty(), es);
            var c', kept := Called(c, path, scope, now), Kept(c, path, scope) + [Slot(path, |c.requests|)];
            && Promise(c, path, scope, now) == |c.requests|
            && c'.requests == c.requests + [Request(path, scope, c'.epoch, true, 0, 0, false)]
            && if !IsBrowseList(path) then c'.slots == c.slots && c'.epoch == c.epoch && c'.scope == c.scope
               else
                 && c'.scope == Some(scope) && c'.epoch == c.epoch + (if c.scope == Some(scope) then 0 else 1)
                 && c'.slots == if |kept| > 24 then kept[1..] else kept
  {
    RunInv(Empty(), es);
    var c := After(Empty(), es);
    if IsBrowseList(path) && c.scope == Some(scope) {
      FindFacts(c.slots, path);
      if Reusable(c, path, now).Some? {
        var i :| 0 <= i < |c.slots| && c.slots[i] == Slot(path, Find(c.slots, path).value);
        assert Answers(c, i, path, scope, now);
      }
      KeptIsWithout(c, path);
    }
  }

  /** The entries of the same token and language, but for one of this path. */
  ghost function Kept(c: Cache, path: string, scope: string): seq<Slot> {
    if c.scope != Some(scope) then []
    else if i: nat :| i < |c.slots| && c.slots[i].path == path then c.slots[..i] + c.slots[i + 1..]
    else c.slots
  }

  lemma KeptIsWithout(c: Cache, path: string)
    requires DistinctPaths(c.slots) && c.scope.Some?
    ensures Kept(c, path, c.scope.value) == Without(c.slots, path)
  {
    if i: nat :| i < |c.slots| && c.slots[i].path == path {
      forall j: nat | j < |c.slots| && c.slots[j].path == path
        ensures c.slots[..j] + c.slots[j + 1..] == Without(c.slots, path)
      {
        FindIs(c.slots, j);
      }
    } else {
      forall s | s in c.slots ensures s.path != path {
        var i :| 0 <= i < |c.slots| && c.slots[i] == s;
      }
      Absent(c.slots, path);
    }
  }

  /** A reply is good for fifteen seconds and moves no entry; a clear drops all entries and
      disowns the requests under way. */
  lemma RepliesAndClears(c: Cache, p: nat, now: int)
    requires p < |c.requests|
    ensures Settled(c, p, now) ==
            c.(requests := c.requests[p := c.requests[p].(pending := false, expires := now + 15000, settledAt := now)])
    ensures Cleared(c) == c.(slots := [], epoch := c.epoch + 1)
  {
  }

  lemma AtMost24(es: seq<Event>)
    requires Legal(Empty(), es)
    ensures |After(Empty(), es).slots| <= 24
  {
    BoundedSlots(es);
  }
}
