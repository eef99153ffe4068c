/** Which backups a finishing update removes, character by character and entry by entry. */
module RetentionAnswers {
  import opened Basics
  import opened CommunityId
  import opened Retention

  // ---- names ----------------------------------------------------------------------------------

  predicate DigitsAt(s: string, from: nat, to: nat)
    requires from <= to <= |s|
  {
    forall i | from <= i < to :: '0' <= s[i] <= '9'
  }

  predicate HexAt(s: string, from: nat, to: nat)
    requires from <= to <= |s|
  {
    forall i | from <= i < to :: '0' <= s[i] <= '9' || 'a' <= s[i] <= 'f'
  }

  /** `yyyymmddThhmmssZ-<n hexadecimal digits>-<number without leading zero>` */
  predicate Spells(s: string, n: nat) {
    && |s| >= n + 19
    && DigitsAt(s, 0, 8) && s[8] == 'T' && DigitsAt(s, 9, 15) && s[15] == 'Z' && s[16] == '-'
    && HexAt(s, 17, n + 17) && s[n + 17] == '-' && s[n + 18] != '0' && DigitsAt(s, n + 18, |s|)
  }

  lemma DigitsMean(s: string, from: nat, to: nat)
    requires from <= to <= |s|
    ensures AllDigits(s[from..to]) <==> DigitsAt(s, from, to)
    ensures AllHex(s[from..to]) <==> HexAt(s, from, to)
  {
    var part := s[from..to];
    forall i | from <= i < to ensures part[i - from] == s[i] && s[i] in part { assert part[i - from] == s[i]; }
  }

  lemma NameWithSpells(s: string, n: nat)
    ensures NameWith(s, n) <==> Spells(s, n)
  {
    if |s| >= n + 19 {
      StampSpells(s);
      DigitsMean(s, 17, n + 17);
      DigitsMean(s, n + 18, |s|);
      assert s[n + 18..|s|] == s[n + 18..];
    }
  }

  lemma StampSpells(s: string)
    requires |s| >= 19
    ensures IsStamp(s[..17]) <==>
            DigitsAt(s, 0, 8) && s[8] == 'T' && DigitsAt(s, 9, 15) && s[15] == 'Z' && s[16] == '-'
  {
    DigitsMean(s, 0, 8);
    DigitsMean(s, 9, 15);
    assert s[..17][..8] == s[0..8] && s[..17][9..15] == s[9..15];
  }

  /** Later in the listing's order: the first difference decides, and a prefix comes first. */
  ghost predicate Later(a: string, b: string) {
    exists i: nat :: i < |a| && i <= |b| && a[..i] == b[..i] && (i == |b| || a[i] > b[i])
  }

  lemma {:induction false} GreaterIsLater(a: string, b: string)
    ensures TextGreater(a, b) <==> Later(a, b)
  {
    if a != "" && b != "" && a[0] == b[0] {
      GreaterIsLater(a[1..], b[1..]);
      if Later(a[1..], b[1..]) {
        var i: nat :| i < |a[1..]| && i <= |b[1..]| &&
                      a[1..][..i] == b[1..][..i] && (i == |b[1..]| || a[1..][i] > b[1..][i]);
        assert a[..i + 1] == [a[0]] + a[1..][..i] && b[..i + 1] == [b[0]] + b[1..][..i];
      }
      if Later(a, b) {
        var i: nat :| i < |a| && i <= |b| && a[..i] == b[..i] && (i == |b| || a[i] > b[i]);
        assert i > 0;
        assert a[1..][..i - 1] == a[..i][1..] && b[1..][..i - 1] == b[..i][1..];
        assert i - 1 < |a[1..]|;
      }
    } else {
      FirstDecides(a, b);
    }
  }

  lemma FirstDecides(a: string, b: string)
    requires a == "" || b == "" || a[0] != b[0]
    ensures Later(a, b) <==> a != "" && (b == "" || a[0] > b[0])
  {
    if a != "" && (b == "" || a[0] > b[0]) { assert a[..0] == b[..0]; }
    if Later(a, b) {
      var i: nat :| i < |a| && i <= |b| && a[..i] == b[..i] && (i == |b| || a[i] > b[i]);
      if i > 0 { assert a[..i][0] == b[..i][0]; }
    }
  }

  // ---- the policy --------------------------------------------------------------------------------

  /** A directory of a proper name, not the current one, whose state says success, that is not
      pinned and can be walked. */
  predicate Removable(dir: Directory, n: string, current: string) {
    && n in dir && (Spells(n, 40) || Spells(n, 64)) && n != current
    && dir[n].Backup? && dir[n].status == Some("success") && !dir[n].pinned && dir[n].safe
  }

  ghost function RemovableAfter(dir: Directory, n: string, current: string): set<string> {
    set m | m in dir && Removable(dir, m, current) && Later(m, n)
  }

  lemma EligibleIsRemovable(dir: Directory, n: string, current: string)
    ensures Eligible(dir, n, current) <==> Removable(dir, n, current)
  {
    NameWithSpells(n, 40);
    NameWithSpells(n, 64);
  }

  /** A backup is removed if and only if it is removable and at least N removable ones are later
      by name, or N - 1 once the current one is a success; with N = 0 none is. */
  lemma VictimExactly(dir: Directory, keep: nat, current: string, n: string)
    ensures IsVictim(dir, keep, current, n) <==>
            && keep >= 1 && Removable(dir, n, current)
            && var done := current != "" && current in dir &&
                           dir[current].Backup? && dir[current].status == Some("success");
               |RemovableAfter(dir, n, current)| >= if done then keep - 1 else keep
  {
    EligibleIsRemovable(dir, n, current);
    forall m
      ensures (Eligible(dir, m, current) <==> Removable(dir, m, current)) && (TextGreater(m, n) <==> Later(m, n))
    {
      EligibleIsRemovable(dir, m, current);
      GreaterIsLater(m, n);
    }
    assert Newer(EligibleSet(dir, current), n) == RemovableAfter(dir, n, current);
  }

  /** A run may start exactly on a directory of a proper name whose state says running, and marks
      nothing else than that state. */
  lemma StartsExactly(dir: Directory, name: string)
    ensures Startable(dir, name) <==>
            && (Spells(name, 40) || Spells(name, 64)) && name in dir && dir[name].Backup?
            && dir[name].status == Some("running")
    ensures Startable(dir, name) ==>
              Marked(dir, name) == dir[name := Backup(Some("success"), dir[name].pinned, dir[name].safe)]
  {
    NameWithSpells(name, 40);
    NameWithSpells(name, 64);
  }

  /** At its turn an entry goes if and only if it is then still a success, unpinned and safe. */
  lemma GoesExactly(marked: Directory, edits: seq<Directory>, i: nat, n: string)
    ensures MayGo(marked, edits, i, n) <==>
            n in marked && Edited(marked, edits, i + 1)[n].Backup?
            && Edited(marked, edits, i + 1)[n].status == Some("success")
            && !Edited(marked, edits, i + 1)[n].pinned && Edited(marked, edits, i + 1)[n].safe
  {
  }
}
