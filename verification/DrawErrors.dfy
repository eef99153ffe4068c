/** What the client is told while it draws, what error each reply is, and what a record of these
    errors says about why a draw failed. */
module DrawErrors {
  import opened Basics
  import opened DrawProtocol

  datatype Outcome<+T> = Done(value: T) | Threw(code: string)

  datatype Reward = Reward(grantId: Grant, actionId: Id, amount: int, kind: string)

  /** A reply to the history query: a list, some other payload, or an error. */
  datatype History = Rewards(list: seq<Reward>) | NotAList | Failed(code: string)

  const MAX_SAFE_INTEGER: int := 9007199254740991

  predicate ValidResult(r: Reward, id: Id) {
    && r.grantId != "" && r.actionId == id && 0 <= r.amount <= MAX_SAFE_INTEGER
    && r.kind in {"community_exp", "newapi_quota"}
  }

  predicate Retryable(code: string) { code in {"action_pending", "pulse_unavailable", "rate_limited"} }
  predicate Refusal(code: string) { code in {"action_rejected", "selection_changed", "selection_required"} }

  /** Positions of usable records of the action: a grant, the action itself, an exact amount, a
      kind that exists. */
  ghost function Usable(list: seq<Reward>, id: Id): set<nat> {
    set i: nat | i < |list| && |list[i].grantId| > 0 && list[i].actionId == id
                 && 0 <= list[i].amount <= 9007199254740991
                 && (list[i].kind == "community_exp" || list[i].kind == "newapi_quota")
  }

  /** Anything but one usable record, or no record at all, is an error. */
  ghost function LookupError(h: History, id: Id): Option<string> {
    match h
    case Failed(code) => Some(code)
    case NotAList => Some("pulse_unavailable")
    case Rewards(list) =>
      if |Usable(list, id)| > 1 then Some("action_conflict")
      else if |Usable(list, id)| == 0 && list != [] then Some("pulse_unavailable")
      else None
  }

  ghost function PostError(reply: Outcome<Reward>, id: Id): Option<string> {
    match reply
    case Threw(code) => Some(code)
    case Done(x) => if |Usable([x], id)| == 1 then None else Some("action_pending")
  }

  /** The result of a lookup that got this reply. */
  ghost predicate LookupGives(h: History, id: Id, r: Outcome<Option<Reward>>) {
    match LookupError(h, id)
    case Some(code) => r == Threw(code)
    case None =>
      r.Done? && h.Rewards?
      && if h.list == [] then r.value == None
         else exists i: nat :: i in Usable(h.list, id) && r.value == Some(h.list[i])
  }

  /** An outcome that leaves open whether the action was committed. */
  ghost predicate Uncertain(code: string) {
    code == "action_pending" || code == "pulse_unavailable" || code == "rate_limited"
  }

  /** The server refused the draw. */
  ghost predicate SaysRefused(code: string) {
    code == "action_rejected" || code == "selection_changed" || code == "selection_required"
  }

  // ---- the record of errors -----------------------------------------------------------------

  function CodeOf<T>(r: Outcome<T>): Option<string> { if r.Threw? then Some(r.code) else None }

  function Noted(errors: seq<string>, code: Option<string>): seq<string> {
    if code.Some? then errors + [code.value] else errors
  }

  /** `n` errors were added, all uncertain. */
  ghost predicate Retried(before: seq<string>, after: seq<string>, n: nat) {
    && before <= after && |after| == |before| + n
    && forall i | |before| <= i < |after| :: Uncertain(after[i])
  }

  /** One action was tried. Success came after at most two uncertain outcomes. It failed with the
      last of one to three errors, those before it uncertain; and if it is so too, with the third. */
  ghost predicate Tried(before: seq<string>, after: seq<string>, code: Option<string>) {
    match code
    case None => before <= after && |after| <= |before| + 2 && Retried(before, after, |after| - |before|)
    case Some(c) =>
      && before <= after && |before| + 1 <= |after| <= |before| + 3 && after[|after| - 1] == c
      && (forall i | |before| <= i < |after| - 1 :: Uncertain(after[i]))
      && (Uncertain(c) ==> |after| == |before| + 3)
  }

  /** Some action was given up with this code at the end. */
  ghost predicate GaveUp(before: seq<string>, after: seq<string>, code: string) {
    exists middle :: before <= middle && Tried(middle, after, Some(code))
  }

  /** One more attempt after `n` uncertain ones, of three. */
  lemma OneMoreTry(a: seq<string>, b: seq<string>, n: nat, code: Option<string>)
    requires n < 3 && Retried(a, b, n)
    ensures code.None? || !Uncertain(code.value) || n == 2 ==> Tried(a, Noted(b, code), code)
    ensures code.Some? && Uncertain(code.value) ==> Retried(a, Noted(b, code), n + 1)
  {
  }

  lemma GaveUpLater(a: seq<string>, b: seq<string>, c: seq<string>, code: string)
    requires a <= b && (GaveUp(b, c, code) || Tried(b, c, Some(code)))
    ensures GaveUp(a, c, code)
  {
    if GaveUp(b, c, code) { var middle :| b <= middle && Tried(middle, c, Some(code)); }
  }

  // ---- usable records and the filter of the code ---------------------------------------------

  function Filter(list: seq<Reward>, id: Id): (r: seq<Reward>)
    ensures forall x | x in r :: x in list && ValidResult(x, id)
  {
    if list == [] then []
    else Filter(list[..|list| - 1], id) + if ValidResult(list[|list| - 1], id) then [list[|list| - 1]] else []
  }

  lemma UsableAtEnd(list: seq<Reward>, id: Id)
    requires list != []
    ensures var n := |list| - 1;
            && Usable(list, id) == Usable(list[..n], id) + (if ValidResult(list[n], id) then {n} else {})
            && n !in Usable(list[..n], id)
  {
    var n := |list| - 1;
    assert forall i: nat | i < n :: list[..n][i] == list[i];
  }

  lemma {:induction false} FilterFindsUsable(list: seq<Reward>, id: Id)
    ensures |Filter(list, id)| == |Usable(list, id)|
    ensures forall x | x in Filter(list, id) :: exists i: nat :: i in Usable(list, id) && list[i] == x
  {
    if list != [] {
      var n := |list| - 1;
      FilterFindsUsable(list[..n], id);
      UsableAtEnd(list, id);
      forall x | x in Filter(list, id) ensures exists i: nat :: i in Usable(list, id) && list[i] == x {
        if x in Filter(list[..n], id) {
          var i: nat :| i in Usable(list[..n], id) && list[..n][i] == x;
          assert i in Usable(list, id) && list[i] == x;
        } else {
          assert n in Usable(list, id) && list[n] == x;
        }
      }
    }
  }

  lemma OneIsUsable(x: Reward, id: Id)
    ensures |Usable([x], id)| == if ValidResult(x, id) then 1 else 0
  {
    FilterFindsUsable([x], id);
    assert [x][..0] == [];
  }
}
