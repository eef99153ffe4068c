/** Merging polled chat messages: one message per sequence number, the highest version, in
    sequence order. */
module ChatMerge {
  import opened Basics

  datatype Message = Message(no: int, version: int, body: string)

  // ---- what a merge is ------------------------------------------------------------------------

  predicate Increasing(list: seq<Message>) {
    forall i, j | 0 <= i < j < |list| :: list[i].no < list[j].no
  }

  function Contents(list: seq<Message>): set<Message> { set m | m in list }

  predicate Numbered(all: set<Message>, no: int) { exists m :: m in all && m.no == no }

  /** `m` is among `all` and nothing there with its number has a higher version. */
  predicate IsNewest(m: Message, all: set<Message>) {
    m in all && forall x | x in all && x.no == m.no :: x.version <= m.version
  }

  /** The reference: strictly increasing, and for every number one newest message. */
  ghost predicate IsMerge(list: seq<Message>, all: set<Message>) {
    && Increasing(list)
    && (forall m | m in list :: IsNewest(m, all))
    && (forall x | x in all :: exists m :: m in list && m.no == x.no)
  }

  /** No two different messages tie for newest. */
  ghost predicate TopUnique(all: set<Message>) {
    forall a, b | IsNewest(a, all) && IsNewest(b, all) && a.no == b.no :: a == b
  }

  // ---- the code -------------------------------------------------------------------------------

  predicate Keyed(m: map<int, Message>) { forall k | k in m :: m[k].no == k }

  /** `new Map(current.map(...))`: a later entry replaces an earlier one. */
  function Indexed(list: seq<Message>): (m: map<int, Message>)
    ensures Keyed(m)
  {
    if list == [] then map[]
    else Indexed(list[..|list| - 1])[list[|list| - 1].no := list[|list| - 1]]
  }

  function Put(m: map<int, Message>, x: Message): map<int, Message> {
    if x.no !in m || x.version >= m[x.no].version then m[x.no := x] else m
  }

  function Absorbed(m: map<int, Message>, incoming: seq<Message>): map<int, Message> {
    if incoming == [] then m else Put(Absorbed(m, incoming[..|incoming| - 1]), incoming[|incoming| - 1])
  }

  function Values(m: map<int, Message>): set<Message> { set k | k in m :: m[k] }

  lemma ValuesFacts(m: map<int, Message>)
    requires Keyed(m)
    ensures forall x :: x in Values(m) <==> x.no in m && m[x.no] == x
  {
  }

  /** The values of the map in increasing order of their numbers. */
  ghost predicate IsListing(list: seq<Message>, m: map<int, Message>) {
    Increasing(list) && (forall x :: x in list <==> x.no in m && m[x.no] == x)
  }

  method MergeMessages(current: seq<Message>, incoming: seq<Message>) returns (merged: seq<Message>)
    ensures IsListing(merged, Absorbed(Indexed(current), incoming))
  {
    var m: map<int, Message> := map[];
    for i := 0 to |current|
      invariant m == Indexed(current[..i])
    {
      m := m[current[i].no := current[i]];
      assert current[..i + 1][..i] == current[..i];
    }
    assert current[..|current|] == current;
    for i := 0 to |incoming|
      invariant m == Absorbed(Indexed(current), incoming[..i])
    {
      if incoming[i].no !in m || incoming[i].version >= m[incoming[i].no].version {
        m := m[incoming[i].no := incoming[i]];
      }
      assert incoming[..i + 1][..i] == incoming[..i];
    }
    assert incoming[..|incoming|] == incoming;
    AbsorbedKeyed(Indexed(current), incoming);
    merged := Sorted(m);
  }

  /** `[...map.values()].sort(...)`: each value goes in before the first larger number. */
  method Sorted(m: map<int, Message>) returns (list: seq<Message>)
    requires Keyed(m)
    ensures IsListing(list, m)
  {
    ValuesFacts(m);
    list := [];
    var left := Values(m);
    while left != {}
      invariant left <= Values(m) && Increasing(list)
      invariant forall x :: x in list <==> x in Values(m) && x !in left
      decreases |left|
    {
      var value :| value in left;
      left := left - {value};
      list := Insert(list, value);
    }
  }

  method Insert(list: seq<Message>, value: Message) returns (longer: seq<Message>)
    requires Increasing(list) && forall x | x in list :: x.no != value.no
    ensures Increasing(longer) && forall x :: x in longer <==> x in list || x == value
  {
    var i := 0;
    while i < |list| && list[i].no < value.no
      invariant 0 <= i <= |list| && forall j | 0 <= j < i :: list[j].no < value.no
    {
      i := i + 1;
    }
    assert i < |list| ==> list[i] in list;
    Inserted(list, i, value);
    longer := list[..i] + [value] + list[i..];
  }

  lemma Inserted(list: seq<Message>, i: nat, value: Message)
    requires Increasing(list) && i <= |list| && (forall j | 0 <= j < i :: list[j].no < value.no)
    requires i < |list| ==> value.no < list[i].no
    ensures var longer := list[..i] + [value] + list[i..];
            Increasing(longer) && forall x :: x in longer <==> x in list || x == value
  {
    var a, b := list[..i], list[i..];
    assert list == a + b;
    var longer := a + [value] + b;
    forall j, k | 0 <= j < k < |longer| ensures longer[j].no < longer[k].no {
      assert longer[j] == if j < i then list[j] else if j == i then value else list[j - 1];
      assert longer[k] == if k < i then list[k] else if k == i then value else list[k - 1];
    }
    forall x ensures x in longer <==> x in list || x == value {
      assert x in longer <==> x in a || x == value || x in b;
    }
  }

  lemma {:induction false} AbsorbedKeyed(m: map<int, Message>, incoming: seq<Message>)
    requires Keyed(m)
    ensures Keyed(Absorbed(m, incoming))
  {
    if incoming != [] { AbsorbedKeyed(m, incoming[..|incoming| - 1]); }
  }

  // ---- the code is the reference ----------------------------------------------------------------

  /** The map holds one newest message of `all` for every number of `all`. */
  ghost predicate Holds(m: map<int, Message>, all: set<Message>) {
    && Keyed(m)
    && (forall k | k in m :: IsNewest(m[k], all))
    && (forall x | x in all :: x.no in m)
  }

  lemma {:induction false} AbsorbHolds(m: map<int, Message>, all: set<Message>, incoming: seq<Message>)
    requires Holds(m, all)
    ensures Holds(Absorbed(m, incoming), all + Contents(incoming))
  {
    if incoming == [] {
      assert all + Contents(incoming) == all;
    } else {
      var n := |incoming| - 1;
      AbsorbHolds(m, all, incoming[..n]);
      assert incoming == incoming[..n] + [incoming[n]];
      assert Contents(incoming) == Contents(incoming[..n]) + {incoming[n]};
      PutHolds(Absorbed(m, incoming[..n]), all + Contents(incoming[..n]), incoming[n]);
      assert all + Contents(incoming) == all + Contents(incoming[..n]) + {incoming[n]};
    }
  }

  lemma PutHolds(m: map<int, Message>, all: set<Message>, x: Message)
    requires Holds(m, all)
    ensures Holds(Put(m, x), all + {x})
  {
  }

  lemma {:induction false} IndexedFacts(list: seq<Message>)
    requires Increasing(list)
    ensures forall x :: x in list <==> x.no in Indexed(list) && Indexed(list)[x.no] == x
  {
    if list != [] {
      var n := |list| - 1;
      IndexedFacts(list[..n]);
      assert list == list[..n] + [list[n]];
      forall x | x in list[..n] ensures x.no != list[n].no {}
    }
  }

  lemma IndexedHolds(list: seq<Message>, all: set<Message>)
    requires IsMerge(list, all)
    ensures Holds(Indexed(list), all)
  {
    IndexedFacts(list);
    var m := Indexed(list);
    forall k | k in m ensures IsNewest(m[k], all) { assert m[k] in list; }
    forall x | x in all ensures x.no in m {
      var y :| y in list && y.no == x.no;
    }
  }

  lemma ListingIsMerge(list: seq<Message>, m: map<int, Message>, all: set<Message>)
    requires IsListing(list, m) && Holds(m, all)
    ensures IsMerge(list, all)
  {
    forall x | x in all ensures exists y :: y in list && y.no == x.no {
      assert m[x.no] in list;
    }
  }

  /** One poll: merging a batch into a merge of `all` is a merge of `all` and the batch. */
  lemma PollIsMerge(current: seq<Message>, all: set<Message>, incoming: seq<Message>, merged: seq<Message>)
    requires IsMerge(current, all) && IsListing(merged, Absorbed(Indexed(current), incoming))
    ensures IsMerge(merged, all + Contents(incoming))
  {
    IndexedHolds(current, all);
    AbsorbHolds(Indexed(current), all, incoming);
    ListingIsMerge(merged, Absorbed(Indexed(current), incoming), all + Contents(incoming));
  }

  // ---- convergence -------------------------------------------------------------------------------

  /** `views[i]` is the list after the first i batches, starting from nothing. */
  ghost predicate IsHistory(batches: seq<seq<Message>>, views: seq<seq<Message>>) {
    && |views| == |batches| + 1 && views[0] == []
    && forall i | 0 <= i < |batches| :: IsListing(views[i + 1], Absorbed(Indexed(views[i]), batches[i]))
  }

  function Delivered(batches: seq<seq<Message>>): set<Message> {
    if batches == [] then {} else Delivered(batches[..|batches| - 1]) + Contents(batches[|batches| - 1])
  }

  lemma {:induction false} HistoryIsMerge(batches: seq<seq<Message>>, views: seq<seq<Message>>)
    requires IsHistory(batches, views)
    ensures IsMerge(views[|batches|], Delivered(batches))
  {
    if batches != [] {
      var n := |batches| - 1;
      assert IsHistory(batches[..n], views[..n + 1]);
      HistoryIsMerge(batches[..n], views[..n + 1]);
      PollIsMerge(views[n], Delivered(batches[..n]), batches[n], views[n + 1]);
    }
  }

  /** A merge is determined by its messages when nothing ties. */
  lemma {:induction false} MergeIsUnique(a: seq<Message>, b: seq<Message>, all: set<Message>)
    requires IsMerge(a, all) && IsMerge(b, all) && TopUnique(all)
    ensures a == b
  {
    forall m | m in a ensures m in b { var x :| x in b && x.no == m.no; }
    forall m | m in b ensures m in a { var x :| x in a && x.no == m.no; }
    SameElements(a, b);
  }

  lemma {:induction false} SameElements(a: seq<Message>, b: seq<Message>)
    requires Increasing(a) && Increasing(b) && forall m :: m in a <==> m in b
    ensures a == b
  {
    HasElement(a);
    HasElement(b);
    if a != [] && b != [] {
      var n, k := |a| - 1, |b| - 1;
      assert a[n] in b && b[k] in a;
      assert a[n] == b[k];
      DropLast(a);
      DropLast(b);
      forall m ensures m in a[..n] <==> m in b[..k] {
        assert m in a[..n] <==> m in a && m != a[n];
        assert m in b[..k] <==> m in b && m != b[k];
      }
      SameElements(a[..n], b[..k]);
    }
  }

  lemma HasElement(a: seq<Message>)
    ensures a != [] ==> a[0] in a
  {
  }

  lemma DropLast(a: seq<Message>)
    requires Increasing(a) && a != []
    ensures Increasing(a[..|a| - 1]) && a == a[..|a| - 1] + [a[|a| - 1]]
    ensures forall m :: m in a[..|a| - 1] <==> m in a && m != a[|a| - 1]
  {
    assert a == a[..|a| - 1] + [a[|a| - 1]];
  }

  /** Convergence: any two ways of splitting, ordering and repeating the same messages end in
      the same list, provided no two different messages tie for newest. */
  lemma PollingConverges(b1: seq<seq<Message>>, v1: seq<seq<Message>>, b2: seq<seq<Message>>, v2: seq<seq<Message>>)
    requires IsHistory(b1, v1) && IsHistory(b2, v2)
    requires Delivered(b1) == Delivered(b2) && TopUnique(Delivered(b1))
    ensures v1[|b1|] == v2[|b2|]
  {
    HistoryIsMerge(b1, v1);
    HistoryIsMerge(b2, v2);
    MergeIsUnique(v1[|b1|], v2[|b2|], Delivered(b1));
  }

  /** And the proviso is exact: when two different messages tie, some two orders of delivering
      the same messages end in different lists. */
  lemma TiesDiverge(all: set<Message>, list: seq<Message>, a: Message, b: Message)
    requires Contents(list) == all && IsNewest(a, all) && IsNewest(b, all) && a.no == b.no && a != b
    ensures exists b1, v1, b2, v2 :: IsHistory(b1, v1) && IsHistory(b2, v2)
              && Delivered(b1) == Delivered(b2) == all && v1[|b1|] != v2[|b2|]
  {
    var v1 := EndingWith(list, a);
    var v2 := EndingWith(list, b);
    var b1, b2 := [list, [a]], [list, [b]];
    TwoBatches(list, a);
    TwoBatches(list, b);
    assert a in v1[2] && b in v2[2];
    OneMessagePerNumber(v1[2], a, b);
  }

  lemma OneMessagePerNumber(list: seq<Message>, a: Message, b: Message)
    requires Increasing(list) && a in list && a.no == b.no && a != b
    ensures b !in list
  {
  }

  lemma TwoBatches(list: seq<Message>, a: Message)
    requires a in list
    ensures Delivered([list, [a]]) == Contents(list)
  {
    var bs := [list, [a]];
    assert bs[..1] == [list] && [list][..0] == [];
    assert Delivered([list]) == {} + Contents(list);
  }

  /** Delivering everything and then `a` again leaves `a` in the list. */
  lemma EndingWith(list: seq<Message>, a: Message) returns (views: seq<seq<Message>>)
    requires IsNewest(a, Contents(list))
    ensures IsHistory([list, [a]], views) && a in views[2]
  {
    var l1 := Polled([], {}, list);
    var l2 := Polled(l1, Contents(list), [a]);
    IndexedHolds(l1, Contents(list));
    StaysNewest(Indexed(l1), Contents(list), a);
    TwoPolls(list, l1, [a], l2);
    views := [[], l1, l2];
  }

  lemma TwoPolls(x: seq<Message>, l1: seq<Message>, y: seq<Message>, l2: seq<Message>)
    requires IsListing(l1, Absorbed(Indexed([]), x)) && IsListing(l2, Absorbed(Indexed(l1), y))
    ensures IsHistory([x, y], [[], l1, l2])
  {
    var bs, vs := [x, y], [[], l1, l2];
    forall i | 0 <= i < 2 ensures IsListing(vs[i + 1], Absorbed(Indexed(vs[i]), bs[i])) {
      if i == 0 {} else { assert i == 1; }
    }
  }

  lemma StaysNewest(m: map<int, Message>, all: set<Message>, a: Message)
    requires Holds(m, all) && IsNewest(a, all)
    ensures var end := Absorbed(m, [a]); a.no in end && end[a.no] == a
  {
    assert Absorbed(m, [a][..0]) == m;
  }

  lemma Polled(current: seq<Message>, all: set<Message>, incoming: seq<Message>) returns (merged: seq<Message>)
    requires IsMerge(current, all)
    ensures IsListing(merged, Absorbed(Indexed(current), incoming)) && IsMerge(merged, all + Contents(incoming))
    ensures all == {} ==> IsMerge(merged, Contents(incoming))
  {
    var m := Absorbed(Indexed(current), incoming);
    AbsorbedKeyed(Indexed(current), incoming);
    ValuesFacts(m);
    merged := ListingExists(m, Values(m));
    PollIsMerge(current, all, incoming, merged);
    assert all == {} ==> all + Contents(incoming) == Contents(incoming);
  }

  lemma {:induction false} ListingExists(m: map<int, Message>, values: set<Message>) returns (list: seq<Message>)
    requires Keyed(m) && values <= Values(m)
    ensures Increasing(list) && forall x :: x in list <==> x in values
  {
    ValuesFacts(m);
    if values == {} {
      list := [];
    } else {
      var last := Latest(values);
      var rest := ListingExists(m, values - {last});
      list := rest + [last];
    }
  }

  lemma {:induction false} Latest(values: set<Message>) returns (last: Message)
    requires values != {}
    ensures last in values && forall x | x in values :: x.no <= last.no
  {
    var x :| x in values;
    last := x;
    if values != {x} {
      var rest := Latest(values - {x});
      if rest.no > x.no { last := rest; }
    }
  }

  // ---- the trimmed view ---------------------------------------------------------------------------

  const WINDOW: nat := 300

  function Trimmed(merged: seq<Message>, atBottom: bool): seq<Message> {
    if |merged| > WINDOW && atBottom then merged[|merged| - WINDOW..] else merged
  }

  class View {
    var messages: seq<Message>
    var more: bool

    constructor ()
      ensures messages == [] && !more
    {
      messages, more := [], false;
    }

    /** The message part of `tick`: merge, then forget the oldest when the list is long and
        the reader is at the bottom. */
    method Tick(incoming: seq<Message>, atBottom: bool)
      modifies this
      ensures exists merged :: IsListing(merged, Absorbed(Indexed(old(messages)), incoming))
                && messages == (if |merged| > 300 && atBottom then merged[|merged| - 300..] else merged)
                && more == (old(more) || (|merged| > 300 && atBottom))
    {
      var merged := MergeMessages(messages, incoming);
      messages := merged;
      if |messages| > WINDOW && atBottom {
        messages := messages[|messages| - WINDOW..];
        more := true;
      }
    }
  }

  /** The numbers in `m` above `k`. */
  function Above(m: map<int, Message>, k: int): set<int> { set j | j in m && j > k }

  predicate AmongNewest(m: map<int, Message>, k: int) { k in m && |Above(m, k)| < 300 }

  /** `view` shows the newest messages of `full`, each as `full` has it, and nothing that
      `full` does not have a message for. */
  ghost predicate ShowsNewest(view: map<int, Message>, full: map<int, Message>) {
    && view.Keys <= full.Keys
    && forall k | AmongNewest(full, k) :: k in view && view[k] == full[k]
  }

  lemma PutShows(view: map<int, Message>, full: map<int, Message>, x: Message)
    requires ShowsNewest(view, full)
    ensures ShowsNewest(Put(view, x), Put(full, x))
  {
    var v, f := Put(view, x), Put(full, x);
    forall k | AmongNewest(f, k) ensures k in v && v[k] == f[k] {
      if k in full {
        assert Above(full, k) <= Above(f, k);
        SubsetSize(Above(full, k), Above(f, k));
        assert AmongNewest(full, k);
      }
    }
  }

  lemma {:induction false} AbsorbShows(view: map<int, Message>, full: map<int, Message>, incoming: seq<Message>)
    requires ShowsNewest(view, full)
    ensures ShowsNewest(Absorbed(view, incoming), Absorbed(full, incoming))
  {
    if incoming != [] {
      var n := |incoming| - 1;
      AbsorbShows(view, full, incoming[..n]);
      PutShows(Absorbed(view, incoming[..n]), Absorbed(full, incoming[..n]), incoming[n]);
    }
  }

  lemma {:induction false} ListingSize(list: seq<Message>, m: map<int, Message>, i: nat)
    requires Keyed(m) && IsListing(list, m) && i < |list|
    ensures |Above(m, list[i].no)| == |list| - 1 - i
    decreases |list| - i
  {
    if i == |list| - 1 {
      forall j | j in m ensures j <= list[i].no { assert m[j] in list; }
      assert Above(m, list[i].no) == {};
    } else {
      ListingSize(list, m, i + 1);
      assert list[i + 1] in list;
      assert Above(m, list[i].no) == Above(m, list[i + 1].no) + {list[i + 1].no} by {
        forall j | j in Above(m, list[i].no) ensures j == list[i + 1].no || j > list[i + 1].no {
          assert m[j] in list;
        }
      }
    }
  }

  /** One tick keeps the newest messages of the untrimmed history in view. */
  lemma TickShows(view: seq<Message>, full: map<int, Message>, incoming: seq<Message>, merged: seq<Message>, trim: bool)
    requires Increasing(view) && ShowsNewest(Indexed(view), full)
    requires IsListing(merged, Absorbed(Indexed(view), incoming))
    ensures Increasing(Trimmed(merged, trim))
    ensures ShowsNewest(Indexed(Trimmed(merged, trim)), Absorbed(full, incoming))
  {
    var all := Absorbed(Indexed(view), incoming);
    AbsorbedKeyed(Indexed(view), incoming);
    AbsorbShows(Indexed(view), full, incoming);
    CutShows(merged, all, Absorbed(full, incoming), trim);
  }

  /** The newest entries of the list survive the cut. */
  lemma CutShows(merged: seq<Message>, all: map<int, Message>, full: map<int, Message>, trim: bool)
    requires Keyed(all) && IsListing(merged, all) && ShowsNewest(all, full)
    ensures Increasing(Trimmed(merged, trim)) && ShowsNewest(Indexed(Trimmed(merged, trim)), full)
  {
    var cut := Trimmed(merged, trim);
    IndexedFacts(cut);
    var shown := Indexed(cut);
    forall k | k in shown ensures k in full { assert shown[k] in merged; }
    forall k | AmongNewest(full, k) ensures k in shown && shown[k] == full[k] {
      assert all[k] in merged;
      SubsetSize(Above(all, k), Above(full, k));
      NewestIsKept(merged, all, k, trim);
    }
  }

  lemma NewestIsKept(merged: seq<Message>, all: map<int, Message>, k: int, trim: bool)
    requires Keyed(all) && IsListing(merged, all) && AmongNewest(all, k)
    ensures all[k] in Trimmed(merged, trim)
  {
    assert all[k] in merged;
    var i :| 0 <= i < |merged| && merged[i] == all[k];
    ListingSize(merged, all, i);
    if |merged| > WINDOW && trim { assert Trimmed(merged, trim)[i - (|merged| - WINDOW)] == all[k]; }
  }

  /** Everything delivered, never trimmed. */
  function AbsorbedAll(batches: seq<seq<Message>>): map<int, Message> {
    if batches == [] then map[] else Absorbed(AbsorbedAll(batches[..|batches| - 1]), batches[|batches| - 1])
  }

  /** `views[i]` is the view after the first i ticks; `bottom[i]` says where the reader was. */
  ghost predicate IsTrimmedHistory(batches: seq<seq<Message>>, bottom: seq<bool>, views: seq<seq<Message>>) {
    && |bottom| == |batches| && |views| == |batches| + 1 && views[0] == []
    && forall i | 0 <= i < |batches| :: IsTick(views[i], batches[i], bottom[i], views[i + 1])
  }

  ghost predicate IsTick(view: seq<Message>, batch: seq<Message>, bottom: bool, view': seq<Message>) {
    exists merged :: IsListing(merged, Absorbed(Indexed(view), batch)) && view' == Trimmed(merged, bottom)
  }

  /** Over any run of ticks, trimming when and as often as it does, the view shows the newest
      300 of all the numbers ever delivered, each in its newest version, in order. */
  lemma {:induction false} TrimmingKeepsNewest(batches: seq<seq<Message>>, bottom: seq<bool>, views: seq<seq<Message>>)
    requires IsTrimmedHistory(batches, bottom, views)
    ensures var view, full := views[|batches|], AbsorbedAll(batches);
            && Increasing(view) && ShowsNewest(Indexed(view), full) && Holds(full, Delivered(batches))
  {
    if batches != [] {
      var n := |batches| - 1;
      assert IsTrimmedHistory(batches[..n], bottom[..n], views[..n + 1]);
      TrimmingKeepsNewest(batches[..n], bottom[..n], views[..n + 1]);
      assert IsTick(views[n], batches[n], bottom[n], views[n + 1]);
      var merged :| IsListing(merged, Absorbed(Indexed(views[n]), batches[n])) &&
                    views[n + 1] == Trimmed(merged, bottom[n]);
      TickShows(views[n], AbsorbedAll(batches[..n]), batches[n], merged, bottom[n]);
      AbsorbHolds(AbsorbedAll(batches[..n]), Delivered(batches[..n]), batches[n]);
    }
  }
}
