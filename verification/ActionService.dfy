/** The server side of a draw: `Execute` decides an action at most once. The rows are those of
    one user; every table it touches is scoped by user. A transaction either commits all its
    writes or none, and each call is one atomic step. Payload digests are modelled as the
    payload itself: equal digests come from equal payloads. */
module ActionService {
  import opened Basics

  type Id = string

  /** A request, its texts already trimmed. */
  datatype Command = Command(action: Id, key: string, trigger: string, protocol: int, selection: string)

  datatype Payload = Plain(action: Id) | Selected(action: Id, protocol: int, selection: string)

  /** The refusals that are written down. */
  datatype Cause = SelectionRequired | SelectionChanged | ActionsUnavailable | InsufficientTickets | BudgetExceeded

  /** `detail` is what a grant says of its reward, fixed when it is made; its status moves. */
  datatype Result = Result(grant: string, action: Id, detail: string, status: string)
  datatype Response = Granted(result: Result) | Refusal(cause: Cause)

  /** An idempotency row: of an action, or of a request key. */
  datatype Record = Record(payload: Payload, response: Option<Response>)

  /** A request row from before these tables; `intact` says that its scope and digest fit its
      own result. */
  datatype Legacy = Legacy(result: Option<Result>, intact: bool)

  datatype Grant = Grant(id: string, action: Id, detail: string, status: string)
  datatype Entry = Earned(source: nat) | Spent(source: nat, action: Id, key: string)

  datatype Tables = Tables(identities: map<Id, Record>, requests: map<string, Record>, legacy: map<string, seq<Legacy>>,
                           grants: seq<Grant>, entries: seq<Entry>)

  /** What the rest of the world says to a new draw: the checks before the ticket account is
      locked, the account, the checks after, the identifier and reward derived for it, and
      whether the database stores all of it. */
  datatype Check = Pass | Refuse(cause: Cause) | Fail
  datatype Conditions = Conditions(early: Check, source: nat, late: Check, grant: string, detail: string, stored: bool)

  datatype Outcome = Decided(response: Response) | Failed

  // ---- the rows ---------------------------------------------------------------------------

  predicate Proper(c: Command) {
    0 < |c.action| <= 191 && c.trigger == "pulse" && 0 < |c.key| <= 191
  }

  function PayloadOf(c: Command): Payload {
    if c.protocol != 0 || c.selection != "" then Selected(c.action, c.protocol, c.selection) else Plain(c.action)
  }

  function Balance(entries: seq<Entry>, source: nat): int {
    if entries == [] then 0
    else
      var e := entries[|entries| - 1];
      Balance(entries[..|entries| - 1], source) + if e.source != source then 0 else if e.Earned? then 1 else -1
  }

  function GrantsOf(grants: seq<Grant>, action: Id): seq<Grant> {
    if grants == [] then []
    else
      var g := grants[|grants| - 1];
      GrantsOf(grants[..|grants| - 1], action) + if g.action == action then [g] else []
  }

  predicate Taken(grants: seq<Grant>, id: string) { exists g | g in grants :: g.id == id }

  function ResultOf(g: Grant): Result { Result(g.id, g.action, g.detail, g.status) }

  /** Both rows exist, new ones without a response. */
  function Opened(t: Tables, c: Command): Tables {
    var row := Record(PayloadOf(c), None);
    t.(identities := if c.action in t.identities then t.identities else t.identities[c.action := row],
       requests := if c.key in t.requests then t.requests else t.requests[c.key := row])
  }

  function SaveRequest(t: Tables, c: Command, r: Response): Tables {
    t.(requests := t.requests[c.key := Record(PayloadOf(c), Some(r))])
  }

  function SaveBoth(t: Tables, c: Command, r: Response): Tables {
    SaveRequest(t, c, r).(identities := t.identities[c.action := Record(PayloadOf(c), Some(r))])
  }

  // ---- what is already known of the action ------------------------------------------------------

  datatype Recollection = Known(response: Response) | Found(response: Response) | Unknown | Conflict

  predicate Fits(c: Command, l: Legacy) {
    && c.protocol == 0 && c.selection == ""
    && l.result.Some? && l.intact && l.result.value.action == c.action && l.result.value.grant != ""
  }

  function LegacyOf(t: Tables, c: Command): seq<Legacy> { if c.key in t.legacy then t.legacy[c.key] else [] }

  /** `Known` has a response for the action already; `Found` is a grant from before that. */
  function Recall(t: Tables, c: Command, identity: Option<Response>): Recollection {
    var past := LegacyOf(t, c);
    if |past| > 1 || (|past| == 1 && !Fits(c, past[0])) then Conflict
    else if identity.Some? then
      match identity.value
      case Refusal(_) => if past != [] then Conflict else Known(identity.value)
      case Granted(cached) =>
        if past == [] then Known(identity.value)
        else if past[0].result.value.grant != cached.grant then Conflict
        else Known(Granted(past[0].result.value))
    else
      var grants := GrantsOf(t.grants, c.action);
      if |grants| > 1 then Conflict
      else if past != [] then
        if grants == [] || grants[0].id != past[0].result.value.grant then Conflict
        else Found(Granted(past[0].result.value))
      else if grants != [] then
        if c.protocol != 0 || c.selection != "" then Conflict else Found(Granted(ResultOf(grants[0])))
      else Unknown
  }

  // ---- a new draw ---------------------------------------------------------------------------------

  datatype Verdict = Grants | Refuses(cause: Cause) | Breaks

  /** Entries with this key; the ledger appends a key once. */
  function Keyed(entries: seq<Entry>, key: string): set<Entry> { set e | e in entries && e.Spent? && e.key == key }

  function Judge(t: Tables, c: Command, k: Conditions): Verdict {
    if c.protocol != 3 || c.selection == "" then Refuses(SelectionRequired)
    else if k.early.Refuse? then Refuses(k.early.cause)
    else if k.early.Fail? then Breaks
    else if Balance(t.entries, k.source) < 1 then Refuses(InsufficientTickets)
    else if k.late.Refuse? then Refuses(k.late.cause)
    else if k.late.Fail? || !k.stored || k.grant == "" || Taken(t.grants, k.grant) then Breaks
    else if Keyed(t.entries, k.grant) <= {Spent(k.source, c.action, k.grant)} then Grants
    else Breaks
  }

  /** The spend, unless the ledger has it, and the grant. */
  function Booked(t: Tables, c: Command, k: Conditions): Tables {
    t.(entries := if Keyed(t.entries, k.grant) == {} then t.entries + [Spent(k.source, c.action, k.grant)]
                    else t.entries,
       grants := t.grants + [Grant(k.grant, c.action, k.detail, "pending")])
  }

  function Drawn(t: Tables, c: Command, k: Conditions): (Tables, Outcome) {
    match Judge(t, c, k)
    case Breaks => (t, Failed)
    case Refuses(cause) => (SaveBoth(t, c, Refusal(cause)), Decided(Refusal(cause)))
    case Grants =>
      var r := Granted(Result(k.grant, c.action, k.detail, "pending"));
      (SaveBoth(Booked(t, c, k), c, r), Decided(r))
  }

  // ---- the call -------------------------------------------------------------------------------------

  /** Saving both rows makes opening them first invisible. */
  lemma SaveOpened(t: Tables, c: Command, r: Response)
    ensures SaveBoth(Opened(t, c), c, r) == SaveBoth(t, c, r)
    ensures SaveRequest(Opened(t, c), c, r).requests == SaveRequest(t, c, r).requests
  {
    var row := Record(PayloadOf(c), None);
    var saved := Record(PayloadOf(c), Some(r));
    assert t.identities[c.action := row][c.action := saved] == t.identities[c.action := saved];
    assert t.requests[c.key := row][c.key := saved] == t.requests[c.key := saved];
  }

  function Executed(t: Tables, c: Command, k: Conditions): (Tables, Outcome) {
    if !Proper(c) then (t, Failed)
    else
      var o := Opened(t, c);
      var identity, request := o.identities[c.action], o.requests[c.key];
      if identity.payload != PayloadOf(c) || request.payload != PayloadOf(c) then (t, Failed)
      else if request.response.Some? then (o, Decided(request.response.value))
      else
        match Recall(o, c, identity.response)
        case Conflict => (t, Failed)
        case Known(r) => (SaveRequest(o, c, r), Decided(r))
        case Found(r) => (SaveBoth(o, c, r), Decided(r))
        case Unknown => var d := Drawn(o, c, k); if d.1.Failed? then (t, Failed) else d
  }

  class ActionService {
    var identities: map<Id, Record>
    var requests: map<string, Record>
    var legacy: map<string, seq<Legacy>>
    var grants: seq<Grant>
    var entries: seq<Entry>

    constructor (t: Tables)
      ensures Contents() == t
    {
      identities, requests, legacy, grants, entries := t.identities, t.requests, t.legacy, t.grants, t.entries;
    }

    function Contents(): Tables
      reads this
    {
      Tables(identities, requests, legacy, grants, entries)
    }

    /** `Execute`: identity first, then the request key, then what is known of the action, and
        only then a new draw. A failure leaves every table as it was. */
    method Execute(c: Command, k: Conditions) returns (r: Outcome)
      modifies this
      ensures (Contents(), r) == Executed(old(Contents()), c, k)
    {
      if c.action == "" || |c.action| > 191 || c.trigger != "pulse" || c.key == "" || |c.key| > 191 { return Failed; }
      var payload := PayloadOf(c);
      var identity := if c.action in identities then identities[c.action] else Record(payload, None);
      if identity.payload != payload { return Failed; }
      var request := if c.key in requests then requests[c.key] else Record(payload, None);
      if request.payload != payload { return Failed; }
      if request.response.Some? {
        if c.action !in identities { identities := identities[c.action := identity]; }
        return Decided(request.response.value);
      }
      var known := Remember(c, identity.response);
      match known {
        case Conflict => r := Failed;
        case Known(response) =>
          SaveOpened(Contents(), c, response);
          requests := requests[c.key := Record(payload, Some(response))];
          r := Decided(response);
        case Found(response) =>
          SaveOpened(Contents(), c, response);
          Save(c, response);
          r := Decided(response);
        case Unknown => r := Draw(c, k);
      }
    }

    /** Old requests, a response of the action, or a grant without one. */
    method Remember(c: Command, identity: Option<Response>) returns (m: Recollection)
      ensures m == Recall(Contents(), c, identity)
    {
      var past := if c.key in legacy then legacy[c.key] else [];
      if |past| > 1 { return Conflict; }
      if |past| == 1 && !Fits(c, past[0]) { return Conflict; }
      if identity.Some? {
        if identity.value.Refusal? { return if |past| > 0 then Conflict else Known(identity.value); }
        if |past| == 0 { return Known(identity.value); }
        if past[0].result.value.grant != identity.value.result.grant { return Conflict; }
        return Known(Granted(past[0].result.value));
      }
      var made := GrantsOf(grants, c.action);
      if |made| > 1 { return Conflict; }
      if |past| == 1 {
        if |made| != 1 || made[0].id != past[0].result.value.grant { return Conflict; }
        return Found(Granted(past[0].result.value));
      }
      if |made| == 1 {
        if c.protocol != 0 || c.selection != "" { return Conflict; }
        return Found(Granted(ResultOf(made[0])));
      }
      m := Unknown;
    }

    /** A new draw: every check before the first write. */
    method Draw(c: Command, k: Conditions) returns (r: Outcome)
      modifies this
      ensures var d := Drawn(Opened(old(Contents()), c), c, k);
              if d.1.Failed? then r == Failed && Contents() == old(Contents()) else (Contents(), r) == d
    {
      if c.protocol != 3 || c.selection == "" { r := RefuseWith(c, SelectionRequired); return; }
      if k.early.Refuse? { r := RefuseWith(c, k.early.cause); return; }
      if k.early.Fail? { return Failed; }
      if Balance(entries, k.source) < 1 { r := RefuseWith(c, InsufficientTickets); return; }
      if k.late.Refuse? { r := RefuseWith(c, k.late.cause); return; }
      if k.late.Fail? || !k.stored || k.grant == "" || Taken(grants, k.grant) { return Failed; }
      var same := Keyed(entries, k.grant);
      if !(same <= {Spent(k.source, c.action, k.grant)}) { return Failed; }
      if same == {} { entries := entries + [Spent(k.source, c.action, k.grant)]; }
      var g := Grant(k.grant, c.action, k.detail, "pending");
      grants := grants + [g];
      SaveOpened(Contents(), c, Granted(ResultOf(g)));
      Save(c, Granted(ResultOf(g)));
      r := Decided(Granted(ResultOf(g)));
    }

    method RefuseWith(c: Command, cause: Cause) returns (r: Outcome)
      modifies this
      ensures Contents() == SaveBoth(Opened(old(Contents()), c), c, Refusal(cause)) && r == Decided(Refusal(cause))
    {
      SaveOpened(Contents(), c, Refusal(cause));
      Save(c, Refusal(cause));
      r := Decided(Refusal(cause));
    }

    method Save(c: Command, response: Response)
      modifies this
      ensures Contents() == SaveBoth(old(Contents()), c, response)
    {
      identities := identities[c.action := Record(PayloadOf(c), Some(response))];
      requests := requests[c.key := Record(PayloadOf(c), Some(response))];
    }
  }
}
