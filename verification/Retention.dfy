/** Deployment backups: which of them a finishing update may remove, and what the removal
    loop leaves behind. The directory is a table of names; whether a tree may be walked
    safely is a fact about its entry. */
module Retention {
  import opened Basics
  import opened CommunityId

  const SUCCESS: string := "success"
  const RUNNING: string := "running"

  /** `status` is what a well-formed state file of that very name says. */
  datatype Entry = NotDirectory | Backup(status: Option<string>, pinned: bool, safe: bool)
  type Directory = map<string, Entry>

  // ---- names ------------------------------------------------------------------------------------

  predicate IsHex(c: char) { '0' <= c <= '9' || 'a' <= c <= 'f' }
  predicate AllHex(s: string) { forall c | c in s :: IsHex(c) }

  /** `[0-9]{8}T[0-9]{6}Z-` */
  predicate IsStamp(s: string) {
    && |s| == 17 && AllDigits(s[..8]) && s[8] == 'T' && AllDigits(s[9..15]) && s[15] == 'Z' && s[16] == '-'
  }

  /** The stamp, a revision of `n` hexadecimal digits, and a process number. */
  predicate NameWith(s: string, n: nat) {
    && |s| > n + 18 && IsStamp(s[..17]) && AllHex(s[17..n + 17]) && s[n + 17] == '-'
    && MatchesPattern(s[n + 18..])
  }

  predicate ValidName(s: string) { NameWith(s, 40) || NameWith(s, 64) }

  lemma {:induction false} GreaterIsTotal(a: string, b: string)
    ensures TextGreater(a, b) || TextGreater(b, a) || a == b
    ensures !(TextGreater(a, b) && TextGreater(b, a))
    ensures a == b ==> !TextGreater(a, b)
  {
    if a != "" && b != "" && a[0] == b[0] {
      GreaterIsTotal(a[1..], b[1..]);
      assert a == [a[0]] + a[1..] && b == [b[0]] + b[1..];
    }
  }

  lemma {:induction false} GreaterIsTransitive(a: string, b: string, c: string)
    requires TextGreater(a, b) && TextGreater(b, c)
    ensures TextGreater(a, c)
  {
    if b != "" && c != "" && a[0] == b[0] == c[0] { GreaterIsTransitive(a[1..], b[1..], c[1..]); }
  }

  // ---- the policy -------------------------------------------------------------------------------

  predicate Deletable(e: Entry) { e.Backup? && e.status == Some(SUCCESS) && !e.pinned && e.safe }

  predicate Eligible(dir: Directory, n: string, current: string) {
    n in dir && ValidName(n) && n != current && Deletable(dir[n])
  }

  ghost function EligibleSet(dir: Directory, current: string): set<string> {
    set n | n in dir && Eligible(dir, n, current)
  }

  ghost function Newer(names: set<string>, n: string): set<string> { set m | m in names && TextGreater(m, n) }

  /** The current backup uses one of the slots once it is successful. */
  function Slots(dir: Directory, keep: nat, current: string): nat {
    if current != "" && current in dir && dir[current].Backup? && dir[current].status == Some(SUCCESS)
    then if keep > 0 then keep - 1 else 0
    else keep
  }

  /** The reference: eligible, and at least as many newer eligible ones as there are slots. */
  ghost predicate IsVictim(dir: Directory, keep: nat, current: string, n: string) {
    keep > 0 && Eligible(dir, n, current) && |Newer(EligibleSet(dir, current), n)| >= Slots(dir, keep, current)
  }

  predicate Descending(list: seq<string>) {
    forall i, j | 0 <= i < j < |list| :: TextGreater(list[i], list[j])
  }

  /** A plan lists every victim once, newest first. */
  ghost predicate IsPlan(victims: seq<string>, dir: Directory, keep: nat, current: string) {
    Descending(victims) && forall n :: n in victims <==> IsVictim(dir, keep, current, n)
  }

  /** In a descending list the position of a name counts the newer ones. */
  lemma {:induction false} PositionCountsNewer(list: seq<string>, names: set<string>, i: nat)
    requires Descending(list) && (forall n :: n in list <==> n in names) && i < |list|
    ensures |Newer(names, list[i])| == i
  {
    if i == 0 {
      forall m | m in names ensures !TextGreater(m, list[0]) {
        var k :| 0 <= k < |list| && list[k] == m;
        GreaterIsTotal(m, list[0]);
      }
      assert Newer(names, list[0]) == {};
    } else {
      PositionCountsNewer(list, names, i - 1);
      StepDown(list, names, i);
    }
  }

  lemma StepDown(list: seq<string>, names: set<string>, i: nat)
    requires Descending(list) && (forall n :: n in list <==> n in names) && 0 < i < |list|
    ensures Newer(names, list[i]) == Newer(names, list[i - 1]) + {list[i - 1]}
    ensures list[i - 1] !in Newer(names, list[i - 1])
  {
    GreaterIsTotal(list[i - 1], list[i - 1]);
    assert list[i - 1] in list;
    forall m | m in names ensures TextGreater(m, list[i]) <==> TextGreater(m, list[i - 1]) || m == list[i - 1] {
      var k :| 0 <= k < |list| && list[k] == m;
      GreaterIsTotal(m, list[i]);
      GreaterIsTotal(m, list[i - 1]);
      if k < i - 1 {
      } else if k > i - 1 {
        GreaterIsTotal(list[i - 1], m);
        if k > i { GreaterIsTotal(list[i], m); }
      }
    }
  }

  /** Dropping the first `slots` of the sorted eligible names is the policy. */
  lemma TailIsPlan(list: seq<string>, dir: Directory, keep: nat, current: string)
    requires Descending(list) && forall n :: n in list <==> n in EligibleSet(dir, current)
    ensures var slots := Slots(dir, keep, current);
            IsPlan(if keep == 0 || slots > |list| then [] else list[slots..], dir, keep, current)
  {
    var slots := Slots(dir, keep, current);
    var victims := if keep == 0 || slots > |list| then [] else list[slots..];
    forall n ensures n in victims <==> IsVictim(dir, keep, current, n) {
      if n in list {
        var i :| 0 <= i < |list| && list[i] == n;
        PositionCountsNewer(list, EligibleSet(dir, current), i);
        if keep > 0 && i >= slots { assert victims[i - slots] == n; }
        if n in victims {
          var j :| 0 <= j < |victims| && victims[j] == n;
          PositionCountsNewer(list, EligibleSet(dir, current), j + slots);
        }
      } else {
        assert n !in EligibleSet(dir, current);
      }
    }
  }

  // ---- finishing ---------------------------------------------------------------------------------

  /** Other processes may rewrite the entries that are there. */
  function Disturbed(dir: Directory, change: Directory): Directory {
    map n | n in dir :: if n in change then change[n] else dir[n]
  }

  /** The directory after the first `k` disturbances. */
  function Edited(dir: Directory, edits: seq<Directory>, k: nat): (r: Directory)
    ensures r.Keys == dir.Keys
  {
    if k == 0 then dir
    else Disturbed(Edited(dir, edits, k - 1), Change(edits, k - 1))
  }

  function Change(edits: seq<Directory>, i: nat): Directory { if i < |edits| then edits[i] else map[] }

  predicate Startable(dir: Directory, name: string) {
    ValidName(name) && name in dir && dir[name].Backup? && dir[name].status == Some(RUNNING)
  }

  function Marked(dir: Directory, name: string): Directory
    requires Startable(dir, name)
  {
    dir[name := dir[name].(status := Some(SUCCESS))]
  }

  function Names(list: seq<string>): set<string> { set n | n in list }

  /** The entry is there and deletable when its turn, the i-th, comes. */
  predicate MayGo(marked: Directory, edits: seq<Directory>, i: nat, n: string) {
    n in marked && Deletable(Edited(marked, edits, i + 1)[n])
  }

  /** What a run of `finish` on the marked directory did: it removed the plan from its newest
      name on, each entry being deletable when its turn came, and stopped early only at one
      that was not, or whose removal broke off and left something of it behind. */
  ghost predicate Finished(marked: Directory, name: string, keep: nat, edits: seq<Directory>, stuck: Directory,
                           victims: seq<string>, removed: seq<string>, ok: bool, end: Directory) {
    && IsPlan(victims, marked, keep, name) && removed <= victims
    && (forall i | 0 <= i < |removed| :: MayGo(marked, edits, i, victims[i]))
    && (ok ==> removed == victims && end == Edited(marked, edits, |removed|) - Names(removed))
    && (!ok ==>
         && |removed| < |victims|
         && var now, v := Edited(marked, edits, |removed| + 1), victims[|removed|];
            || (!MayGo(marked, edits, |removed|, v) && end == now - Names(removed))
            || (v in stuck && end == (now - Names(removed))[v := stuck[v]]))
  }

  class Backups {
    var dir: Directory

    constructor (dir: Directory)
      ensures this.dir == dir
    {
      this.dir := dir;
    }

    /** `sorted(os.listdir(fd), reverse=True)` */
    method Listing() returns (list: seq<string>)
      ensures Descending(list) && forall n :: n in list <==> n in dir
    {
      list := [];
      var left := dir.Keys;
      while left != {}
        invariant left <= dir.Keys && Descending(list)
        invariant forall n :: n in list <==> n in dir && n !in left
        decreases |left|
      {
        var n :| n in left;
        left := left - {n};
        list := Insert(list, n);
      }
    }

    method Plan(keep: nat, current: string) returns (victims: Option<seq<string>>)
      ensures victims.None? <==>
              current != "" && !(ValidName(current) && current in dir && dir[current].Backup?)
      ensures victims.Some? ==> IsPlan(victims.value, dir, keep, current)
    {
      if current != "" && !ValidName(current) { return None; }
      var names := Listing();
      var candidates: seq<string> := [];
      for i := 0 to |names|
        invariant Descending(candidates)
        invariant forall n :: n in candidates <==> n in names[..i] && Eligible(dir, n, current)
      {
        var name := names[i];
        assert name in names && names[..i + 1] == names[..i] + [name];
        if ValidName(name) && dir[name].Backup? {
          var e := dir[name];
          if !(name == current || e.pinned || e.status != Some(SUCCESS)) && e.safe {
            AppendSmallest(names, i, candidates);
            candidates := candidates + [name];
          }
        }
      }
      assert names[..|names|] == names;
      var slots := keep;
      if current != "" {
        if current !in dir || !dir[current].Backup? { return None; }
        if dir[current].status == Some(SUCCESS) { slots := if keep > 0 then keep - 1 else 0; }
      }
      TailIsPlan(candidates, dir, keep, current);
      victims := Some(if keep == 0 || slots > |candidates| then [] else candidates[slots..]);
    }

    /** `edits[i]` is what others change just before the i-th removal; the removal of a name
        in `stuck` breaks off and leaves that entry. */
    method Finish(name: string, keep: nat, edits: seq<Directory>, stuck: Directory)
        returns (ok: bool, removed: seq<string>)
      modifies this
      ensures !Startable(old(dir), name) ==> !ok && removed == [] && dir == old(dir)
      ensures Startable(old(dir), name) ==>
                exists victims :: Finished(Marked(old(dir), name), name, keep, edits, stuck, victims, removed, ok, dir)
    {
      removed := [];
      if !ValidName(name) || name !in dir || !dir[name].Backup? || dir[name].status != Some(RUNNING) {
        return false, removed;
      }
      ghost var marked := Marked(dir, name);
      dir := dir[name := dir[name].(status := Some(SUCCESS))];
      var victims := Plan(keep, name);
      ok, removed := Remove(name, keep, victims.value, edits, stuck);
      assert Finished(marked, name, keep, edits, stuck, victims.value, removed, ok, dir);
    }

    /** The removal loop: every entry is checked again when its turn comes. */
    method Remove(ghost name: string, ghost keep: nat, victims: seq<string>, edits: seq<Directory>, stuck: Directory)
        returns (ok: bool, removed: seq<string>)
      requires IsPlan(victims, dir, keep, name)
      modifies this
      ensures Finished(old(dir), name, keep, edits, stuck, victims, removed, ok, dir)
    {
      removed := [];
      ghost var marked := dir;
      VictimsAreThere(victims, marked, keep, name);
      NothingRemoved(marked);
      for i := 0 to |victims|
        invariant Progress(marked, edits, victims, i, removed, dir)
      {
        ghost var before := dir;
        VictimIsThere(marked, edits, victims, i, removed, dir);
        var gone := RemoveOne(victims[i], Change(edits, i), stuck);
        if !gone {
          StopsEarly(marked, name, keep, edits, stuck, victims, i, removed, before, dir);
          return false, removed;
        }
        GoesOn(marked, edits, victims, i, removed, before, dir);
        removed := removed + [victims[i]];
      }
      assert victims[..|victims|] == victims;
      ok := true;
    }

    /** One removal, after whatever others changed meanwhile. */
    method RemoveOne(victim: string, change: Directory, stuck: Directory) returns (gone: bool)
      requires victim in dir
      modifies this
      ensures var now := Disturbed(old(dir), change);
              if gone then Deletable(now[victim]) && dir == now - {victim}
              else StoppedAt(now, victim, stuck, dir)
    {
      dir := Disturbed(dir, change);
      var e := dir[victim];
      if !e.Backup? || e.status != Some(SUCCESS) || e.pinned || !e.safe { return false; }
      if victim in stuck {
        dir := dir[victim := stuck[victim]];
        return false;
      }
      dir := dir - {victim};
      gone := true;
    }
  }

  predicate StoppedAt(now: Directory, victim: string, stuck: Directory, end: Directory)
    requires victim in now
  {
    || (!Deletable(now[victim]) && end == now)
    || (victim in stuck && end == now[victim := stuck[victim]])
  }

  /** The first `i` victims are removed and the directory is otherwise as others left it. */
  ghost predicate Progress(marked: Directory, edits: seq<Directory>, victims: seq<string>, i: nat,
                           removed: seq<string>, dir: Directory) {
    && i <= |victims| && removed == victims[..i] && Descending(victims)
    && (forall k | 0 <= k < |victims| :: victims[k] in marked)
    && dir == Edited(marked, edits, i) - Names(removed)
    && forall k | 0 <= k < i :: MayGo(marked, edits, k, victims[k])
  }

  lemma VictimIsThere(marked: Directory, edits: seq<Directory>, victims: seq<string>, i: nat,
                      removed: seq<string>, dir: Directory)
    requires Progress(marked, edits, victims, i, removed, dir) && i < |victims|
    ensures victims[i] in dir
    ensures var now := Disturbed(dir, Change(edits, i));
            && now == Edited(marked, edits, i + 1) - Names(removed)
            && now[victims[i]] == Edited(marked, edits, i + 1)[victims[i]]
  {
    StillThere(victims, i);
    DisturbedApart(Edited(marked, edits, i), Names(removed), Change(edits, i));
  }

  lemma GoesOn(marked: Directory, edits: seq<Directory>, victims: seq<string>, i: nat,
               removed: seq<string>, dir: Directory, dir': Directory)
    requires Progress(marked, edits, victims, i, removed, dir) && i < |victims| && victims[i] in dir
    requires var now := Disturbed(dir, Change(edits, i)); Deletable(now[victims[i]]) && dir' == now - {victims[i]}
    ensures Progress(marked, edits, victims, i + 1, removed + [victims[i]], dir')
  {
    VictimIsThere(marked, edits, victims, i, removed, dir);
    OneMoreName(victims, i);
    OneLess(Edited(marked, edits, i + 1), Names(removed), victims[i]);
  }

  lemma StopsEarly(marked: Directory, name: string, keep: nat, edits: seq<Directory>, stuck: Directory,
                   victims: seq<string>, i: nat, removed: seq<string>, dir: Directory, end: Directory)
    requires IsPlan(victims, marked, keep, name)
    requires Progress(marked, edits, victims, i, removed, dir) && i < |victims| && victims[i] in dir
    requires StoppedAt(Disturbed(dir, Change(edits, i)), victims[i], stuck, end)
    ensures Finished(marked, name, keep, edits, stuck, victims, removed, false, end)
  {
    VictimIsThere(marked, edits, victims, i, removed, dir);
  }

  lemma DisturbedApart(dir: Directory, gone: set<string>, change: Directory)
    ensures Disturbed(dir - gone, change) == Disturbed(dir, change) - gone
  {
  }

  lemma OneLess(dir: Directory, gone: set<string>, n: string)
    ensures dir - gone - {n} == dir - (gone + {n})
  {
  }

  method Insert(list: seq<string>, n: string) returns (longer: seq<string>)
    requires Descending(list) && n !in list
    ensures Descending(longer) && forall m :: m in longer <==> m in list || m == n
  {
    var i := 0;
    while i < |list| && TextGreater(list[i], n)
      invariant 0 <= i <= |list| && forall k | 0 <= k < i :: TextGreater(list[k], n)
    {
      i := i + 1;
    }
    AllSmaller(list, i, n);
    assert list == list[..i] + list[i..];
    longer := list[..i] + [n] + list[i..];
  }

  lemma AllSmaller(list: seq<string>, i: nat, n: string)
    requires Descending(list) && n !in list && i <= |list| && (i < |list| ==> !TextGreater(list[i], n))
    ensures forall k | i <= k < |list| :: TextGreater(n, list[k])
  {
    forall k | i <= k < |list| ensures TextGreater(n, list[k]) {
      GreaterIsTotal(n, list[i]);
      assert list[i] in list;
      if k > i { GreaterIsTransitive(n, list[i], list[k]); }
    }
  }

  lemma AppendSmallest(names: seq<string>, i: nat, candidates: seq<string>)
    requires Descending(names) && i < |names| && Descending(candidates) && forall n | n in candidates :: n in names[..i]
    ensures Descending(candidates + [names[i]])
  {
    forall k | 0 <= k < |candidates| ensures TextGreater(candidates[k], names[i]) {
      assert candidates[k] in names[..i];
      var j :| 0 <= j < i && names[..i][j] == candidates[k];
      assert names[j] == candidates[k];
    }
  }

  lemma VictimsAreThere(victims: seq<string>, dir: Directory, keep: nat, current: string)
    requires IsPlan(victims, dir, keep, current)
    ensures forall i | 0 <= i < |victims| :: victims[i] in dir && Deletable(dir[victims[i]])
  {
    forall i | 0 <= i < |victims|
      ensures victims[i] in dir && Deletable(dir[victims[i]])
    {
      assert victims[i] in victims;
    }
  }

  lemma StillThere(victims: seq<string>, i: nat)
    requires Descending(victims) && i < |victims|
    ensures victims[i] !in Names(victims[..i])
  {
    forall k | 0 <= k < i ensures victims[k] != victims[i] { GreaterIsTotal(victims[k], victims[i]); }
  }

  lemma OneMoreName(victims: seq<string>, i: nat)
    requires i < |victims|
    ensures victims[..i + 1] == victims[..i] + [victims[i]]
    ensures Names(victims[..i + 1]) == Names(victims[..i]) + {victims[i]}
  {
    assert victims[..i + 1] == victims[..i] + [victims[i]];
  }

  lemma NothingRemoved(dir: Directory)
    ensures dir - Names([]) == dir
  {
  }

  // ---- what a finished run leaves ------------------------------------------------------------------

  lemma {:induction false} NoEdits(dir: Directory, k: nat)
    ensures Edited(dir, [], k) == dir
  {
    if k > 0 { NoEdits(dir, k - 1); }
  }

  /** Undisturbed, every startable run completes and removes exactly its plan. */
  lemma QuietFinishCompletes(marked: Directory, name: string, keep: nat,
                             victims: seq<string>, removed: seq<string>, ok: bool, end: Directory)
    requires Finished(marked, name, keep, [], map[], victims, removed, ok, end)
    ensures ok && end == marked - Names(victims)
  {
    NoEdits(marked, |removed|);
    NoEdits(marked, |removed| + 1);
    VictimsAreThere(victims, marked, keep, name);
  }

  /** However it is disturbed and however it ends, a run removes only victims of its plan: never
      its own backup, nor one that was pinned, unsafe or not successful when planned, and none
      at all when nothing is to be kept; and it adds nothing. */
  lemma OnlyVictimsGo(marked: Directory, name: string, keep: nat, edits: seq<Directory>, stuck: Directory,
                      victims: seq<string>, removed: seq<string>, ok: bool, end: Directory)
    requires Finished(marked, name, keep, edits, stuck, victims, removed, ok, end)
    ensures end.Keys == marked.Keys - Names(removed)
    ensures forall n | n in marked && n !in end :: IsVictim(marked, keep, name, n) && n != name
    ensures keep == 0 ==> end.Keys == marked.Keys
  {
    forall i | 0 <= i < |removed| ensures removed[i] in victims { assert victims[i] == removed[i]; }
    if !ok {
      VictimsAreThere(victims, marked, keep, name);
      StillThere(victims, |removed|);
      assert victims[..|removed|] == removed;
    }
  }

  /** After the victims are gone no more eligible names are left than there were slots. */
  lemma {:induction false} AtMostSlotsLeft(dir: Directory, keep: nat, current: string, left: set<string>)
    requires keep > 0 && left <= EligibleSet(dir, current)
    requires forall n | n in left :: |Newer(EligibleSet(dir, current), n)| < Slots(dir, keep, current)
    ensures |left| <= Slots(dir, keep, current)
  {
    if left != {} {
      var oldest := Oldest(left);
      var newer := Newer(EligibleSet(dir, current), oldest);
      forall n | n in left - {oldest} ensures n in newer {}
      SubsetSize(left - {oldest}, newer);
    }
  }

  lemma {:induction false} Oldest(names: set<string>) returns (n: string)
    requires names != {}
    ensures n in names && forall m | m in names && m != n :: TextGreater(m, n)
  {
    n :| n in names;
    if names != {n} {
      var o := Oldest(names - {n});
      GreaterIsTotal(n, o);
      if TextGreater(n, o) {
        n := o;
      } else {
        forall m | m in names && m != n ensures TextGreater(m, n) {
          if m != o { GreaterIsTransitive(m, o, n); }
        }
      }
    }
  }

  /** A completed undisturbed run keeps at most `keep` successful, unpinned, safe backups,
      its own included. */
  lemma FinishKeepsAtMost(marked: Directory, name: string, keep: nat, victims: seq<string>, end: Directory)
    requires keep > 0 && name != "" && name in marked && marked[name].Backup? && marked[name].status == Some(SUCCESS)
    requires IsPlan(victims, marked, keep, name) && end == marked - Names(victims)
    ensures |EligibleSet(end, name)| <= keep - 1
    ensures |EligibleSet(end, "")| <= keep
  {
    var left := EligibleSet(end, name);
    forall n | n in left ensures |Newer(EligibleSet(marked, name), n)| < keep - 1 {
      assert n !in victims;
    }
    AtMostSlotsLeft(marked, keep, name, left);
    assert EligibleSet(end, "") <= left + {name};
    SubsetSize(EligibleSet(end, ""), left + {name});
  }

  /** So a plan made right after a completed run, by the same update or as a preview, selects
      nothing. */
  lemma NothingLeftToPlan(dir: Directory, name: string, keep: nat, stuck: Directory,
                          victims: seq<string>, removed: seq<string>, end: Directory, n: string)
    requires keep > 0 && Startable(dir, name)
    requires Finished(Marked(dir, name), name, keep, [], stuck, victims, removed, true, end)
    ensures !IsVictim(end, keep, name, n) && !IsVictim(end, keep, "", n)
  {
    var marked := Marked(dir, name);
    NoEdits(marked, |removed|);
    FinishKeepsAtMost(marked, name, keep, victims, end);
    assert !IsVictim(marked, keep, name, name);
    assert name in end;
    FewerNewer(EligibleSet(end, name), n);
    FewerNewer(EligibleSet(end, ""), n);
  }

  lemma FewerNewer(names: set<string>, n: string)
    ensures n in names ==> |Newer(names, n)| < |names|
  {
    if n in names {
      GreaterIsTotal(n, n);
      SubsetSize(Newer(names, n), names - {n});
    }
  }

  /** And the next update, whatever its name sorts as, removes at most one backup. */
  lemma NextUpdateRemovesAtMostOne(end: Directory, keep: nat, next: string, a: string, b: string)
    requires keep > 0 && |EligibleSet(end, "")| <= keep
    requires next !in end && next != ""
    requires var dir := end[next := Backup(Some(SUCCESS), false, true)];
             IsVictim(dir, keep, next, a) && IsVictim(dir, keep, next, b)
    ensures a == b
  {
    var dir := end[next := Backup(Some(SUCCESS), false, true)];
    var names := EligibleSet(dir, next);
    assert names <= EligibleSet(end, "");
    SubsetSize(names, EligibleSet(end, ""));
    if a != b {
      GreaterIsTotal(a, b);
      var (x, y) := if TextGreater(a, b) then (a, b) else (b, a);
      NotBoth(names, x, y);
    }
  }

  lemma NotBoth(names: set<string>, x: string, y: string)
    requires x in names && y in names && TextGreater(x, y)
    ensures |Newer(names, x)| + 2 <= |names|
  {
    GreaterIsTotal(x, y);
    GreaterIsTotal(x, x);
    SubsetSize(Newer(names, x), names - {x, y});
  }
}
