/** The saved draw request: what `PulseOperation` writes to session storage, what it
    accepts when it reads it back, and when it refuses. */
module DrawStore {
  import opened Basics
  import P = DrawProtocol

  datatype Result<+T> = Ok(value: T) | Err(code: string)

  /** One request as stored. Requests saved before protocol 2 have neither a version nor a
      selection. */
  datatype Item = Item(actionId: string, idempotencyKey: string,
                         protocolVersion: Option<int>, selection: Option<string>)
  datatype Saved = Saved(head: Item, actions: Option<seq<Item>>)

  /** A storage slot: absent, text that is not JSON of the right shape, or a value. */
  datatype Slot = Absent | Corrupt | Value(saved: Saved)

  /** The server's offer; a draw whose selection is not a string is `None`. */
  datatype Choice = Choice(version: int, draws: seq<Option<string>>)

  predicate Uuid(s: string) {
    |s| == 36 && forall c | c in s :: ('a' <= c <= 'f') || ('0' <= c <= '9') || c == '-'
  }

  predicate GoodSelection(s: Option<string>) {
    s.Some? && 0 < |s.value| <= 1024
  }

  predicate ValidItem(i: Item) {
    && Uuid(i.actionId) && i.actionId == i.idempotencyKey
    && ((i.protocolVersion.None? && i.selection.None?)
        || (i.protocolVersion.Some? && i.protocolVersion.value in {2, 3} && GoodSelection(i.selection)))
  }

  predicate ValidSaved(v: Saved) {
    && ValidItem(v.head)
    && match v.actions
       case None => true
       case Some(items) =>
         && |items| in {1, 5}
         && (forall i | i in items :: ValidItem(i) && i.protocolVersion == v.head.protocolVersion
                                      && (v.head.protocolVersion == Some(3) || i.selection == v.head.selection))
         && items[0].selection == v.head.selection && items[0].actionId == v.head.actionId
         && (forall i, j | 0 <= i < j < |items| :: items[i].actionId != items[j].actionId)
  }

  function Read(slot: Slot): Result<Option<Saved>> {
    match slot
    case Absent => Ok(None)
    case Corrupt => Err("storage_unavailable")
    case Value(v) => if ValidSaved(v) then Ok(Some(v)) else Err("storage_unavailable")
  }

  function PulseActions(v: Saved): seq<Item> {
    match v.actions
    case Some(items) => items
    case None => [v.head]
  }

  /** The request as the protocol sees it. */
  function ToOperation(v: Saved): P.Operation {
    seq(|PulseActions(v)|, i requires 0 <= i < |PulseActions(v)| =>
      P.Action(PulseActions(v)[i].actionId,
               match PulseActions(v)[i].selection case Some(s) => s case None => ""))
  }

  function NewItems(draws: seq<Option<string>>, ids: seq<string>): seq<Item>
    requires |draws| == |ids|
  {
    seq(|draws|, i requires 0 <= i < |draws| => Item(ids[i], ids[i], Some(3), draws[i]))
  }

  /** The value `begin` builds for a new request, or the error it throws. */
  function NewSaved(count: int, choice: Option<Choice>, ids: seq<string>): Result<Saved>
    requires count in {1, 5} ==> |ids| == count
  {
    if count !in {1, 5} then Err("invalid_request")
    else if choice.None? || choice.value.version != 3 || |choice.value.draws| < count
         || exists d | d in choice.value.draws[..count] :: !GoodSelection(d) then Err("selection_required")
    else
      var items := NewItems(choice.value.draws[..count], ids);
      Ok(Saved(items[0], if count == 1 then None else Some(items)))
  }

  /** `crypto.randomUUID` gives well-formed identifiers, all different. */
  predicate FreshIds(ids: seq<string>) {
    (forall i | i in ids :: Uuid(i)) && (forall i, j | 0 <= i < j < |ids| :: ids[i] != ids[j])
  }

  /** What `begin` writes, `read` accepts unchanged after a reload, and it is exactly the
      offered draws in order, each under its own identifier. */
  lemma BeginReadsBack(count: int, choice: Option<Choice>, ids: seq<string>)
    requires (count in {1, 5} ==> |ids| == count) && FreshIds(ids)
    requires NewSaved(count, choice, ids).Ok?
    ensures var v := NewSaved(count, choice, ids).value;
            && Read(Value(v)) == Ok(Some(v))
            && P.WellFormed(ToOperation(v)) && |ToOperation(v)| == count
            && forall i | 0 <= i < count ::
                 GoodSelection(choice.value.draws[i])
                 && ToOperation(v)[i] == P.Action(ids[i], choice.value.draws[i].value)
  {
    var v := NewSaved(count, choice, ids).value;
    var draws := choice.value.draws[..count];
    var items := NewItems(draws, ids);
    forall i | 0 <= i < count ensures GoodSelection(draws[i]) && ids[i] in ids && ValidItem(items[i]) {
      assert draws[i] in draws;
    }
    assert PulseActions(v) == items;
    assert ValidSaved(v);
  }

  /** Anything `read` accepts is a well-formed operation: one or five actions, no identifier
      twice. */
  lemma ReadIsWellFormed(slot: Slot)
    requires Read(slot).Ok? && Read(slot).value.Some?
    ensures P.WellFormed(ToOperation(Read(slot).value.value))
  {
    var v := Read(slot).value.value;
    var op := ToOperation(v);
    forall i, j | 0 <= i < j < |op| ensures op[i].id != op[j].id {
      assert PulseActions(v)[i].actionId != PulseActions(v)[j].actionId;
    }
  }

  // ---- what is accepted, in full ----------------------------------------------------------------

  predicate IsIdentifier(s: string) { |s| == 36 && forall i | 0 <= i < 36 :: s[i] in "abcdef0123456789-" }

  /** An item of this version, or of none; its key is its identifier, and a selection of 1 to 1024
      characters goes with a version and only with one. */
  predicate IsItem(i: Item, version: Option<int>) {
    && IsIdentifier(i.actionId) && i.idempotencyKey == i.actionId && i.protocolVersion == version
    && match version
       case None => i.selection == None
       case Some(v) => (v == 2 || v == 3) && i.selection.Some? && 1 <= |i.selection.value| <= 1024
  }

  lemma UuidIsIdentifier(s: string)
    ensures Uuid(s) <==> IsIdentifier(s)
  {
    var letters := "abcdef0123456789-";
    forall c: char ensures c in letters <==> ('a' <= c <= 'f') || ('0' <= c <= '9') || c == '-' { IdentifierChar(c); }
    forall i | 0 <= i < |s| ensures s[i] in s {}
  }

  lemma IdentifierChar(c: char)
    ensures c in "abcdef0123456789-" <==> ('a' <= c <= 'f') || ('0' <= c <= '9') || c == '-'
  {
    var letters := "abcdef0123456789-";
    if 'a' <= c <= 'f' { assert letters[c as int - 'a' as int] == c; }
    if '0' <= c <= '9' { assert letters[6 + c as int - '0' as int] == c; }
    if c == '-' { assert letters[16] == c; }
  }

  /** A stored request is read if and only if: it is an item; and if it lists actions, these are
      one or five items of its version under different identifiers, the first of them the
      request's own, all with its selection unless the version is 3. Requests from before
      versions and of version 2 are read as they always were. */
  lemma ReadExactly(v: Saved)
    ensures Read(Value(v)) == if IsRequest(v) then Ok(Some(v)) else Err("storage_unavailable")
  {
    forall i: Item ensures Uuid(i.actionId) <==> IsIdentifier(i.actionId) { UuidIsIdentifier(i.actionId); }
    forall i: Item ensures ValidItem(i) <==> IsItem(i, i.protocolVersion) {}
    if v.actions.Some? {
      var items := v.actions.value;
      forall i | 0 <= i < |items| ensures items[i] in items {}
    }
  }

  predicate IsRequest(v: Saved) {
    && IsItem(v.head, v.head.protocolVersion)
    && (v.actions.Some? ==>
          var items := v.actions.value;
          && (|items| == 1 || |items| == 5)
          && (forall i | 0 <= i < |items| :: IsItem(items[i], v.head.protocolVersion))
          && (v.head.protocolVersion == Some(3) ||
                        forall i | 0 <= i < |items| :: items[i].selection == v.head.selection)
          && items[0].actionId == v.head.actionId && items[0].selection == v.head.selection
          && (forall i, j | 0 <= i < |items| && 0 <= j < |items| && items[i].actionId == items[j].actionId :: i == j))
  }

  /** A new request is made exactly for one or five draws, of an offer of version 3 whose first
      that many draws have selections of 1 to 1024 characters. */
  lemma NewSavedExactly(count: int, choice: Option<Choice>, ids: seq<string>)
    requires count in {1, 5} ==> |ids| == count
    ensures var made := NewSaved(count, choice, ids);
            var good := choice.Some? && choice.value.version == 3 && |choice.value.draws| >= count
                        && forall i | 0 <= i < count ::
                             choice.value.draws[i].Some? && 1 <= |choice.value.draws[i].value| <= 1024;
            if count != 1 && count != 5 then made == Err("invalid_request")
            else if !good then made == Err("selection_required")
            else made.Ok? && (made.value.actions.None? <==> count == 1)
  {
    if count in {1, 5} && choice.Some? && |choice.value.draws| >= count {
      var draws := choice.value.draws[..count];
      forall i | 0 <= i < count ensures draws[i] == choice.value.draws[i] && draws[i] in draws {}
    }
  }

  class PulseOperation {
    var slot: Slot

    constructor (slot: Slot)
      ensures this.slot == slot
    {
      this.slot := slot;
    }

    method ReadSlot() returns (r: Result<Option<Saved>>)
      ensures r == Read(slot)
    {
      match slot {
        case Absent => r := Ok(None);
        case Corrupt => r := Err("storage_unavailable");
        case Value(v) =>
          if ValidSaved(v) { r := Ok(Some(v)); } else { r := Err("storage_unavailable"); }
      }
    }

    /** Returns the previous request when there is one, never overwriting it; otherwise
        saves a new one before returning it. `writable` says whether storage accepts it. */
    method Begin(count: int, choice: Option<Choice>, ids: seq<string>, writable: bool) returns (r: Result<Saved>)
      requires (count in {1, 5} ==> |ids| == count) && FreshIds(ids)
      modifies this
      ensures old(slot) != Absent ==> slot == old(slot)
      ensures Read(old(slot)).Err? ==> r == Err("storage_unavailable")
      ensures Read(old(slot)).Ok? && Read(old(slot)).value.Some? ==> r == Ok(Read(old(slot)).value.value)
      ensures old(slot) == Absent ==>
                if NewSaved(count, choice, ids).Ok? && writable
                then r == NewSaved(count, choice, ids) && slot == Value(r.value)
                else r.Err? && slot == Absent
      ensures r.Ok? ==> Read(slot) == Ok(Some(r.value)) && P.WellFormed(ToOperation(r.value))
    {
      var previous := ReadSlot();
      if previous.Err? { return Err(previous.code); }
      if previous.value.Some? {
        ReadIsWellFormed(slot);
        return Ok(previous.value.value);
      }
      r := NewSaved(count, choice, ids);
      if r.Ok? {
        BeginReadsBack(count, choice, ids);
        if !writable { return Err("storage_unavailable"); }
        slot := Value(r.value);
      }
    }

    method Clear(writable: bool) returns (ok: bool)
      modifies this
      ensures ok == writable
      ensures slot == if writable then Absent else old(slot)
    {
      if writable { slot := Absent; }
      ok := writable;
    }
  }
}
