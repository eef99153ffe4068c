/** Strict JSON objects: the nested duplicate-name walker and the one-level object reader,
    both driven by the token stream of Go's standard decoder. Texts are sequences of lexemes;
    white space is already gone. */
module UniqueJson {
  import opened Basics

  /** `fits` is false for a number the decoder cannot convert to a float. `Broken` stands for
      any characters that begin no token. */
  datatype Lexeme = OpenBrace | CloseBrace | OpenBracket | CloseBracket | Comma | Colon
                  | Quoted(text: string) | Atom(text: string, fits: bool) | Broken

  datatype Json = Text(text: string) | Literal(text: string, fits: bool)
                | Array(items: seq<Json>) | Object(members: seq<Member>)
  datatype Member = Member(name: string, value: Json)

  // ---- the grammar ----------------------------------------------------------------------------

  function Print(v: Json): (ts: seq<Lexeme>)
    ensures ts != [] && ts[0] !in {CloseBrace, CloseBracket, Comma, Colon}
    decreases v, 0
  {
    match v
    case Text(s) => [Quoted(s)]
    case Literal(s, fits) => [Atom(s, fits)]
    case Array(items) => [OpenBracket] + PrintItems(items, true)
    case Object(members) => [OpenBrace] + PrintMembers(members, true)
  }

  /** The comma before every item but the first. */
  function Lead(first: bool): seq<Lexeme> { if first then [] else [Comma] }

  /** What follows the opening bracket, or the last item printed, up to the closing one. */
  function PrintItems(items: seq<Json>, first: bool): seq<Lexeme>
    decreases items, |items|
  {
    if items == [] then [CloseBracket]
    else Lead(first) + Print(items[0]) + PrintItems(items[1..], false)
  }

  function PrintMembers(members: seq<Member>, first: bool): seq<Lexeme>
    decreases members, |members|
  {
    if members == [] then [CloseBrace]
    else Lead(first) + [Quoted(members[0].name), Colon]
         + Print(members[0].value) + PrintMembers(members[1..], false)
  }

  datatype Read<T> = Done(value: T, rest: seq<Lexeme>) | Fail

  function Parse(ts: seq<Lexeme>): (r: Read<Json>)
    ensures r.Done? ==> |r.rest| < |ts|
    decreases |ts|, 0
  {
    if ts == [] then Fail
    else match ts[0]
      case Quoted(s) => Done(Text(s), ts[1..])
      case Atom(s, fits) => Done(Literal(s, fits), ts[1..])
      case OpenBracket =>
        var r := ParseItems(ts[1..], true);
        if r.Done? then Done(Array(r.value), r.rest) else Fail
      case OpenBrace =>
        var r := ParseMembers(ts[1..], true);
        if r.Done? then Done(Object(r.value), r.rest) else Fail
      case _ => Fail
  }

  function ParseAfter(separator: Lexeme, ts: seq<Lexeme>): (r: Read<Json>)
    ensures r.Done? ==> |r.rest| < |ts|
    decreases |ts|, 1
  {
    if ts != [] && ts[0] == separator then Parse(ts[1..]) else Fail
  }

  function ParseItems(ts: seq<Lexeme>, first: bool): (r: Read<seq<Json>>)
    ensures r.Done? ==> |r.rest| < |ts|
    decreases |ts|, 2
  {
    if ts == [] then Fail
    else if ts[0] == CloseBracket then Done([], ts[1..])
    else
      var r := if first then Parse(ts) else ParseAfter(Comma, ts);
      if r.Fail? then Fail else Consed(r.value, ParseItems(r.rest, false))
  }

  function Consed<T>(x: T, r: Read<seq<T>>): Read<seq<T>> {
    if r.Done? then Done([x] + r.value, r.rest) else Fail
  }

  /** The name that opens a member, after the separating comma if one is due. */
  function ParseName(ts: seq<Lexeme>, first: bool): (r: Read<string>)
    ensures r.Done? ==> |r.rest| < |ts|
  {
    if first then
      if ts != [] && ts[0].Quoted? then Done(ts[0].text, ts[1..]) else Fail
    else
      if |ts| > 1 && ts[0] == Comma && ts[1].Quoted? then Done(ts[1].text, ts[2..]) else Fail
  }

  function ParseMembers(ts: seq<Lexeme>, first: bool): (r: Read<seq<Member>>)
    ensures r.Done? ==> |r.rest| < |ts|
    decreases |ts|, 2
  {
    if ts == [] then Fail
    else if ts[0] == CloseBrace then Done([], ts[1..])
    else
      var k := ParseName(ts, first);
      if k.Fail? then Fail
      else
        var r := ParseAfter(Colon, k.rest);
        if r.Fail? then Fail else Consed(Member(k.value, r.value), ParseMembers(r.rest, false))
  }

  // ---- the grammar is unambiguous: parsing and printing are inverse ------------------------------

  lemma {:induction false} PrintParses(v: Json, r: seq<Lexeme>)
    ensures Parse(Print(v) + r) == Done(v, r)
    decreases v, 0
  {
    match v
    case Text(s) =>
    case Literal(s, fits) =>
    case Array(items) =>
      ItemsParse(items, true, r);
      AfterOpening(OpenBracket, PrintItems(items, true), r);
    case Object(members) =>
      MembersParse(members, true, r);
      AfterOpening(OpenBrace, PrintMembers(members, true), r);
  }

  lemma AfterOpening(x: Lexeme, body: seq<Lexeme>, r: seq<Lexeme>)
    ensures var ts := [x] + body + r; ts[0] == x && ts[1..] == body + r
  {
  }

  lemma {:induction false} ItemsParse(items: seq<Json>, first: bool, r: seq<Lexeme>)
    ensures ParseItems(PrintItems(items, first) + r, first) == Done(items, r)
    decreases items, |items|
  {
    if items == [] {
      assert ([CloseBracket] + r)[1..] == r;
    } else {
      var x, rest := items[0], items[1..];
      PrintParses(x, PrintItems(rest, false) + r);
      ItemsParse(rest, false, r);
      ItemsPrintStep(items, first);
      ItemsParseStep(x, rest, Print(x), PrintItems(rest, false), first, r);
      assert [x] + rest == items;
    }
  }

  lemma ItemsPrintStep(items: seq<Json>, first: bool)
    requires items != []
    ensures PrintItems(items, first) == Lead(first) + Print(items[0]) + PrintItems(items[1..], false)
  {
  }

  lemma ItemsParseStep(x: Json, rest: seq<Json>, head: seq<Lexeme>, tail: seq<Lexeme>, first: bool, r: seq<Lexeme>)
    requires head != [] && head[0] != CloseBracket
    requires Parse(head + (tail + r)) == Done(x, tail + r) && ParseItems(tail + r, false) == Done(rest, r)
    ensures ParseItems(Lead(first) + head + tail + r, first) == Done([x] + rest, r)
  {
    Regroup(first, head, tail, r);
    var body := head + (tail + r);
    if !first { assert ([Comma] + body)[1..] == body; }
  }

  lemma Regroup(first: bool, head: seq<Lexeme>, tail: seq<Lexeme>, r: seq<Lexeme>)
    ensures Lead(first) + head + tail + r == if first then head + (tail + r) else [Comma] + (head + (tail + r))
  {
  }

  lemma {:induction false} MembersParse(members: seq<Member>, first: bool, r: seq<Lexeme>)
    ensures ParseMembers(PrintMembers(members, first) + r, first) == Done(members, r)
    decreases members, |members|
  {
    if members == [] {
      assert ([CloseBrace] + r)[1..] == r;
    } else {
      var m, rest := members[0], members[1..];
      PrintParses(m.value, PrintMembers(rest, false) + r);
      MembersParse(rest, false, r);
      MembersPrintStep(members, first);
      MembersParseStep(m, rest, Print(m.value), PrintMembers(rest, false), first, r);
      assert [m] + rest == members;
    }
  }

  lemma MembersPrintStep(members: seq<Member>, first: bool)
    requires members != []
    ensures PrintMembers(members, first) == Lead(first) + [Quoted(members[0].name), Colon]
              + Print(members[0].value) + PrintMembers(members[1..], false)
  {
  }

  lemma MembersParseStep(m: Member, rest: seq<Member>, head: seq<Lexeme>, tail: seq<Lexeme>,
                         first: bool, r: seq<Lexeme>)
    requires Parse(head + (tail + r)) == Done(m.value, tail + r) && ParseMembers(tail + r, false) == Done(rest, r)
    ensures ParseMembers(Lead(first) + [Quoted(m.name), Colon] + head + tail + r, first) == Done([m] + rest, r)
  {
    NameRead(m.name, first, head + (tail + r));
    RegroupMember(m.name, first, head, tail, r);
    MemberParsed(m, rest, Lead(first) + [Quoted(m.name), Colon] + head + tail + r, head + (tail + r), first, r);
  }

  lemma RegroupMember(name: string, first: bool, head: seq<Lexeme>, tail: seq<Lexeme>, r: seq<Lexeme>)
    ensures var body := [Quoted(name), Colon] + (head + (tail + r));
            Lead(first) + [Quoted(name), Colon] + head + tail + r == if first then body else [Comma] + body
  {
  }

  lemma MemberParsed(m: Member, rest: seq<Member>, ts: seq<Lexeme>, body: seq<Lexeme>, first: bool, r: seq<Lexeme>)
    requires ts != [] && ts[0] != CloseBrace
    requires ParseName(ts, first) == Done(m.name, [Colon] + body) && ([Colon] + body)[1..] == body
    requires var v := Parse(body); v.Done? && v.value == m.value && ParseMembers(v.rest, false) == Done(rest, r)
    ensures ParseMembers(ts, first) == Done([m] + rest, r)
  {
  }

  lemma NameRead(name: string, first: bool, body: seq<Lexeme>)
    ensures var ts := if first then [Quoted(name), Colon] + body else [Comma] + ([Quoted(name), Colon] + body);
            && ts[0] != CloseBrace
            && ParseName(ts, first) == Done(name, [Colon] + body) && ([Colon] + body)[1..] == body
  {
  }

  lemma {:induction false} ParsePrints(ts: seq<Lexeme>)
    requires Parse(ts).Done?
    ensures ts == Print(Parse(ts).value) + Parse(ts).rest
    decreases |ts|, 0
  {
    if ts[0] == OpenBracket { ItemsPrint(ts[1..], true); }
    if ts[0] == OpenBrace { MembersPrint(ts[1..], true); }
  }

  lemma {:induction false} ItemsPrint(ts: seq<Lexeme>, first: bool)
    requires ParseItems(ts, first).Done?
    ensures ts == PrintItems(ParseItems(ts, first).value, first) + ParseItems(ts, first).rest
    decreases |ts|, 2
  {
    if ts[0] != CloseBracket {
      var body := ItemsSplit(ts, first);
      ParsePrints(body);
      ItemsPrint(Parse(body).rest, false);
      var all := ParseItems(ts, first);
      ItemsPrintStep(all.value, first);
      Regrouped(Lead(first), Print(all.value[0]), PrintItems(all.value[1..], false), all.rest);
    }
  }

  lemma Regrouped(a: seq<Lexeme>, b: seq<Lexeme>, c: seq<Lexeme>, d: seq<Lexeme>)
    ensures a + (b + (c + d)) == a + b + c + d
  {
  }

  lemma ItemsSplit(ts: seq<Lexeme>, first: bool) returns (body: seq<Lexeme>)
    requires ParseItems(ts, first).Done? && ts[0] != CloseBracket
    ensures ts == Lead(first) + body && |body| <= |ts| && Parse(body).Done?
    ensures var r := Parse(body); var (all, q) := (ParseItems(ts, first), ParseItems(r.rest, false));
            q.Done? && all.value != [] && all.value[0] == r.value && all.value[1..] == q.value && all.rest == q.rest
  {
    body := if first then ts else ts[1..];
  }

  lemma {:induction false} MembersPrint(ts: seq<Lexeme>, first: bool)
    requires ParseMembers(ts, first).Done?
    ensures ts == PrintMembers(ParseMembers(ts, first).value, first) + ParseMembers(ts, first).rest
    decreases |ts|, 2
  {
    if ts[0] != CloseBrace {
      var body := MembersSplit(ts, first);
      ParsePrints(body);
      MembersPrint(Parse(body).rest, false);
      var all := ParseMembers(ts, first);
      MembersPrintStep(all.value, first);
      var key := Lead(first) + [Quoted(all.value[0].name), Colon];
      Regrouped(key, Print(all.value[0].value), PrintMembers(all.value[1..], false), all.rest);
    }
  }

  lemma MembersSplit(ts: seq<Lexeme>, first: bool) returns (body: seq<Lexeme>)
    requires ParseMembers(ts, first).Done? && ts[0] != CloseBrace
    ensures |body| < |ts| && Parse(body).Done?
    ensures var r := Parse(body); var (all, q) := (ParseMembers(ts, first), ParseMembers(r.rest, false));
            && q.Done? && all.value != [] && all.value[0].value == r.value
            && all.value[1..] == q.value && all.rest == q.rest
            && ts == Lead(first) + [Quoted(all.value[0].name), Colon] + body
  {
    body := ParseName(ts, first).rest[1..];
  }

  // ---- what is accepted ---------------------------------------------------------------------------

  predicate Distinct(members: seq<Member>) {
    forall i, j | 0 <= i < j < |members| :: members[i].name != members[j].name
  }

  /** Every object at every depth has distinct names. */
  predicate Unique(v: Json) {
    match v
    case Array(items) => forall x | x in items :: Unique(x)
    case Object(members) => Distinct(members) && forall m | m in members :: Unique(m.value)
    case _ => true
  }

  predicate Fits(v: Json) {
    match v
    case Literal(_, fits) => fits
    case Array(items) => forall x | x in items :: Fits(x)
    case Object(members) => forall m | m in members :: Fits(m.value)
    case Text(_) => true
  }

  predicate Good(v: Json) { Unique(v) && Fits(v) }

  // ---- the decoder of the standard library ------------------------------------------------------

  datatype State = TopValue | ArrayStart | ArrayValue | ArrayComma
                 | ObjectStart | ObjectKey | ObjectColon | ObjectValue | ObjectComma

  datatype Cursor = Cursor(rest: seq<Lexeme>, state: State, stack: seq<State>)
  datatype Token = Delim(c: Lexeme) | Word(text: string) | Plain
  datatype Outcome = Got(token: Token) | Eof | SyntaxError

  predicate ValueAllowed(st: State) { st in {TopValue, ArrayStart, ArrayValue, ObjectValue} }

  function AfterValue(st: State): State {
    match st
    case ArrayStart => ArrayComma
    case ArrayValue => ArrayComma
    case ObjectValue => ObjectComma
    case _ => st
  }

  function Pop(c: Cursor): Cursor
    requires c.rest != [] && c.stack != []
  {
    var n := |c.stack| - 1;
    Cursor(c.rest[1..], AfterValue(c.stack[n]), c.stack[..n])
  }

  /** `Token`: separators are consumed where they are due; keys, values and delimiters are
      returned where they are allowed. */
  function Next(c: Cursor): (Outcome, Cursor)
    decreases |c.rest|
  {
    if c.rest == [] then (Eof, c)
    else
      var x, st, tail := c.rest[0], c.state, c.rest[1..];
      match x
      case OpenBracket =>
        if ValueAllowed(st) then (Got(Delim(x)), Cursor(tail, ArrayStart, c.stack + [st])) else (SyntaxError, c)
      case OpenBrace =>
        if ValueAllowed(st) then (Got(Delim(x)), Cursor(tail, ObjectStart, c.stack + [st])) else (SyntaxError, c)
      case CloseBracket =>
        if st in {ArrayStart, ArrayComma} && c.stack != [] then (Got(Delim(x)), Pop(c)) else (SyntaxError, c)
      case CloseBrace =>
        if st in {ObjectStart, ObjectComma} && c.stack != [] then (Got(Delim(x)), Pop(c)) else (SyntaxError, c)
      case Colon =>
        if st == ObjectColon then Next(Cursor(tail, ObjectValue, c.stack)) else (SyntaxError, c)
      case Comma =>
        if st == ArrayComma then Next(Cursor(tail, ArrayValue, c.stack))
        else if st == ObjectComma then Next(Cursor(tail, ObjectKey, c.stack))
        else (SyntaxError, c)
      case Quoted(s) =>
        if st in {ObjectStart, ObjectKey} then (Got(Word(s)), Cursor(tail, ObjectColon, c.stack))
        else if ValueAllowed(st) then (Got(Word(s)), Cursor(tail, AfterValue(st), c.stack))
        else (SyntaxError, c)
      case Atom(_, fits) =>
        if ValueAllowed(st) && fits then (Got(Plain), Cursor(tail, AfterValue(st), c.stack)) else (SyntaxError, c)
      case Broken => (SyntaxError, c)
  }

  /** Where the walker may be asked for a value. */
  predicate BeforeValue(st: State) { st in {TopValue, ArrayStart, ArrayComma, ObjectColon} }

  /** The value that the grammar has at the cursor, after the separator that is due. */
  function ValueAt(c: Cursor): Read<Json> {
    match c.state
    case ObjectColon => ParseAfter(Colon, c.rest)
    case ArrayComma => ParseAfter(Comma, c.rest)
    case _ => Parse(c.rest)
  }

  function Closed(st: State): State {
    match st
    case ArrayStart => ArrayComma
    case ObjectColon => ObjectComma
    case _ => st
  }

  class Decoder {
    var rest: seq<Lexeme>
    var state: State
    var stack: seq<State>

    constructor (input: seq<Lexeme>)
      ensures At() == Cursor(input, TopValue, [])
    {
      rest, state, stack := input, TopValue, [];
    }

    function At(): Cursor
      reads this
    {
      Cursor(rest, state, stack)
    }

    method Token() returns (t: Outcome)
      modifies this
      ensures (t, At()) == Next(old(At()))
    {
      var (outcome, c) := Next(At());
      rest, state, stack := c.rest, c.state, c.stack;
      t := outcome;
    }

    predicate More()
      reads this
    {
      rest != [] && rest[0] !in {CloseBracket, CloseBrace}
    }

    /** `Decode` into raw bytes: one value of any shape, read without looking into it. */
    method Decode() returns (v: Option<Json>)
      requires BeforeValue(state)
      modifies this
      ensures var r := ValueAt(old(At()));
              && (v.Some? <==> r.Done?)
              && (r.Done? ==> v.value == r.value && At() == Cursor(r.rest, Closed(old(state)), old(stack)))
    {
      var r := ValueAt(At());
      if r.Fail? { return None; }
      rest, state := r.rest, Closed(state);
      v := Some(r.value);
    }

    /** A token that has to be a string: the name of a member. */
    method Key(ghost first: bool) returns (name: Option<string>)
      requires state == (if first then ObjectStart else ObjectComma) && More()
      modifies this
      ensures var k := ParseName(old(rest), first);
              && (name.Some? <==> k.Done?)
              && (k.Done? ==> name.value == k.value && At() == Cursor(k.rest, ObjectColon, old(stack)))
    {
      KeyIsNext(At(), first);
      var key := Token();
      name := if key.Got? && key.token.Word? then Some(key.token.text) else None;
    }

    /** A token that has to be the closing brace. */
    method ObjectEnds(ghost first: bool, ghost outer: State, ghost below: seq<State>) returns (ok: bool)
      requires state == (if first then ObjectStart else ObjectComma) && !More()
      requires stack == below + [Opened(outer)] && BeforeValue(outer)
      modifies this
      ensures var r := ParseMembers(old(rest), first);
              if ok then r == Done([], rest) && At() == Cursor(rest, Closed(outer), below) else r.Fail?
    {
      MembersEnd(At(), first, outer, below);
      var end := Token();
      ok := end == Got(Delim(CloseBrace));
    }

    /** The walker accepts exactly the good values and consumes exactly their tokens. */
    method Walk() returns (ok: bool)
      requires BeforeValue(state)
      modifies this
      ensures var r := ValueAt(old(At()));
              && (ok <==> r.Done? && Good(r.value))
              && (ok ==> At() == Cursor(r.rest, Closed(old(state)), old(stack)))
      decreases |rest|, 2
    {
      ghost var was := At();
      FirstToken(was);
      var token := Token();
      if !token.Got? { return false; }
      if !token.token.Delim? { return true; }
      if token.token.c == OpenBrace {
        ok := WalkMembers(was.state, was.stack);
      } else if token.token.c == OpenBracket {
        ok := WalkItems(was.state, was.stack);
      } else {
        ok := false;
      }
    }

    /** The object branch, after its opening brace. */
    method WalkMembers(ghost outer: State, ghost below: seq<State>) returns (ok: bool)
      requires BeforeValue(outer) && state == ObjectStart && stack == below + [Opened(outer)]
      modifies this
      ensures var r := ParseMembers(old(rest), true);
              && (ok <==> r.Done? && Good(Object(r.value)))
              && (ok ==> At() == Cursor(r.rest, Closed(outer), below))
      decreases |rest|, 1
    {
      ghost var start, done: seq<Member> := rest, [];
      PrependNothing(ParseMembers(rest, true));
      var seen: set<string> := {};
      while More()
        invariant stack == below + [Opened(outer)] && |rest| <= |start|
        invariant state == if done == [] then ObjectStart else ObjectComma
        invariant ParseMembers(start, true) == Prepend(done, ParseMembers(rest, done == []))
        invariant Good(Object(done)) && seen == Names(done)
        decreases |rest|
      {
        ok, seen, done := WalkMember(seen, done);
        if !ok { return false; }
      }
      ok := ObjectEnds(done == [], outer, below);
    }

    /** One turn of the loop over members; `done` are those before it. */
    method WalkMember(seen: set<string>, ghost done: seq<Member>)
        returns (ok: bool, seen': set<string>, ghost done': seq<Member>)
      requires More() && state == if done == [] then ObjectStart else ObjectComma
      requires Good(Object(done)) && seen == Names(done)
      modifies this
      ensures ok ==> |rest| < |old(rest)| && state == ObjectComma && stack == old(stack)
      ensures ok ==> done' != [] && Good(Object(done')) && seen' == Names(done')
      ensures var r := Prepend(done, ParseMembers(old(rest), done == []));
              if ok then r == Prepend(done', ParseMembers(rest, false)) else r.Done? ==> !Good(Object(r.value))
      decreases |rest|, 0
    {
      ghost var before := rest;
      seen', done' := seen, done;
      var key := Key(done == []);
      if key.None? || key.value in seen {
        Rejected(done, before, done == []);
        return false, seen', done';
      }
      ghost var afterKey := rest;
      seen' := seen + {key.value};
      ok := Walk();
      if !ok {
        Rejected(done, before, done == []);
        return;
      }
      ghost var m := Member(key.value, ParseAfter(Colon, afterKey).value);
      MemberTaken(done, m, before, done == [], afterKey, rest);
      OneMoreMember(done, m);
      done' := done + [m];
    }

    /** The array branch, after its opening bracket. */
    method WalkItems(ghost outer: State, ghost below: seq<State>) returns (ok: bool)
      requires BeforeValue(outer) && state == ArrayStart && stack == below + [Opened(outer)]
      modifies this
      ensures var r := ParseItems(old(rest), true);
              && (ok <==> r.Done? && Good(Array(r.value)))
              && (ok ==> At() == Cursor(r.rest, Closed(outer), below))
      decreases |rest|, 3
    {
      ghost var start, done: seq<Json> := rest, [];
      PrependNothing(ParseItems(rest, true));
      while More()
        invariant stack == below + [Opened(outer)] && |rest| <= |start|
        invariant state == if done == [] then ArrayStart else ArrayComma
        invariant ParseItems(start, true) == Prepend(done, ParseItems(rest, done == []))
        invariant Good(Array(done))
        decreases |rest|
      {
        ghost var before := At();
        ok := Walk();
        if !ok {
          RejectedItem(done, before.rest, done == []);
          return false;
        }
        ghost var v := ValueAt(before).value;
        Extend(done, v, ParseItems(rest, false));
        done := done + [v];
      }
      var end := Token();
      ok := end == Got(Delim(CloseBracket));
    }
  }

  // ---- steps of the walk ------------------------------------------------------------------------

  /** The state saved under an opening delimiter. */
  function Opened(st: State): State {
    match st
    case ArrayComma => ArrayValue
    case ObjectColon => ObjectValue
    case _ => st
  }

  function Names(members: seq<Member>): set<string> { set m | m in members :: m.name }

  function Prepend<T>(done: seq<T>, r: Read<seq<T>>): Read<seq<T>> {
    if r.Done? then Done(done + r.value, r.rest) else Fail
  }

  lemma PrependNothing<T>(r: Read<seq<T>>)
    ensures Prepend([], r) == r
  {
    if r.Done? { assert [] + r.value == r.value; }
  }

  lemma Extend<T>(done: seq<T>, x: T, r: Read<seq<T>>)
    ensures Prepend(done, Consed(x, r)) == Prepend(done + [x], r)
  {
    if r.Done? { assert done + ([x] + r.value) == done + [x] + r.value; }
  }

  /** The first token of a value: nothing, a whole scalar, or an opening delimiter. */
  lemma FirstToken(c: Cursor)
    requires BeforeValue(c.state)
    ensures var (t, c'), r := Next(c), ValueAt(c);
            match t
            case Got(Delim(OpenBrace)) =>
              && c' == Cursor(c'.rest, ObjectStart, c.stack + [Opened(c.state)]) && |c'.rest| < |c.rest|
              && var ms := ParseMembers(c'.rest, true);
                 r == if ms.Done? then Done(Object(ms.value), ms.rest) else Fail
            case Got(Delim(OpenBracket)) =>
              && c' == Cursor(c'.rest, ArrayStart, c.stack + [Opened(c.state)]) && |c'.rest| < |c.rest|
              && var items := ParseItems(c'.rest, true);
                 r == if items.Done? then Done(Array(items.value), items.rest) else Fail
            case Got(Delim(_)) => r.Fail?
            case Got(_) => r.Done? && Good(r.value) && c' == Cursor(r.rest, Closed(c.state), c.stack)
            case _ => r.Fail? || !Good(r.value)
  {
    if c.rest != [] && c.state == ObjectColon && c.rest[0] == Colon {
      var c' := Cursor(c.rest[1..], ObjectValue, c.stack);
      assert Next(c) == Next(c') && ValueAt(c) == ValueAt(c');
      AllowedToken(c');
    } else if c.rest != [] && c.state == ArrayComma && c.rest[0] == Comma {
      var c' := Cursor(c.rest[1..], ArrayValue, c.stack);
      assert Next(c) == Next(c') && ValueAt(c) == ValueAt(c');
      AllowedToken(c');
    } else if ValueAllowed(c.state) {
      AllowedToken(c);
    }
  }

  lemma AllowedToken(c: Cursor)
    requires ValueAllowed(c.state)
    ensures var (t, c'), r := Next(c), Parse(c.rest);
            match t
            case Got(Delim(OpenBrace)) =>
              && c' == Cursor(c'.rest, ObjectStart, c.stack + [c.state]) && |c'.rest| < |c.rest|
              && var ms := ParseMembers(c'.rest, true);
                 r == if ms.Done? then Done(Object(ms.value), ms.rest) else Fail
            case Got(Delim(OpenBracket)) =>
              && c' == Cursor(c'.rest, ArrayStart, c.stack + [c.state]) && |c'.rest| < |c.rest|
              && var items := ParseItems(c'.rest, true);
                 r == if items.Done? then Done(Array(items.value), items.rest) else Fail
            case Got(Delim(_)) => r.Fail?
            case Got(_) => r.Done? && Good(r.value) && c' == Cursor(r.rest, AfterValue(c.state), c.stack)
            case _ => r.Fail? || !Good(r.value)
  {
  }

  lemma KeyIsNext(c: Cursor, first: bool)
    requires c.state == if first then ObjectStart else ObjectComma
    requires c.rest != [] && c.rest[0] !in {CloseBracket, CloseBrace}
    ensures var k := ParseName(c.rest, first);
            if k.Done? then Next(c) == (Got(Word(k.value)), Cursor(k.rest, ObjectColon, c.stack))
            else !Next(c).0.Got?
  {
  }

  lemma Rejected(done: seq<Member>, ts: seq<Lexeme>, first: bool)
    requires ts != [] && ts[0] != CloseBrace
    requires var k := ParseName(ts, first);
             || k.Fail?
             || k.value in Names(done)
             || ParseAfter(Colon, k.rest).Fail?
             || !Good(ParseAfter(Colon, k.rest).value)
    ensures var r := Prepend(done, ParseMembers(ts, first)); r.Done? ==> !Good(Object(r.value))
  {
    var r := Prepend(done, ParseMembers(ts, first));
    if r.Done? {
      var all, n := r.value, |done|;
      var m := all[n];
      assert m in all;
      if m.name in Names(done) {
        var i :| 0 <= i < n && done[i].name == m.name;
        assert all[i] == done[i];
      }
    }
  }

  lemma RejectedItem(done: seq<Json>, ts: seq<Lexeme>, first: bool)
    requires ts != [] && ts[0] != CloseBracket
    requires var r := if first then Parse(ts) else ParseAfter(Comma, ts); r.Fail? || !Good(r.value)
    ensures var r := Prepend(done, ParseItems(ts, first)); r.Done? ==> !Good(Array(r.value))
  {
    var r := Prepend(done, ParseItems(ts, first));
    if r.Done? { assert r.value[|done|] in r.value; }
  }

  /** With no member left, the closing brace is next exactly when the grammar ends there. */
  lemma MembersEnd(c: Cursor, first: bool, outer: State, below: seq<State>)
    requires c.rest == [] || c.rest[0] in {CloseBracket, CloseBrace}
    requires c.stack == below + [Opened(outer)] && BeforeValue(outer)
    requires c.state == if first then ObjectStart else ObjectComma
    ensures var r := ParseMembers(c.rest, first);
            if Next(c).0 == Got(Delim(CloseBrace))
            then r == Done([], Next(c).1.rest) && Next(c).1 == Cursor(r.rest, Closed(outer), below)
            else r.Fail?
  {
  }

  lemma MemberTaken(done: seq<Member>, m: Member, ts: seq<Lexeme>, first: bool,
                    afterKey: seq<Lexeme>, rest: seq<Lexeme>)
    requires ts != [] && ts[0] != CloseBrace
    requires ParseName(ts, first) == Done(m.name, afterKey) && ParseAfter(Colon, afterKey) == Done(m.value, rest)
    ensures Prepend(done, ParseMembers(ts, first)) == Prepend(done + [m], ParseMembers(rest, false))
  {
    Extend(done, m, ParseMembers(rest, false));
  }

  lemma OneMoreMember(done: seq<Member>, m: Member)
    requires Good(Object(done)) && Good(m.value) && m.name !in Names(done)
    ensures Good(Object(done + [m])) && Names(done + [m]) == Names(done) + {m.name}
  {
    forall i | 0 <= i < |done| ensures done[i].name != m.name { assert done[i] in done; }
  }

  // ---- the two entry points --------------------------------------------------------------------

  /** The text is one object with distinct names at every depth, and nothing else. */
  ghost predicate IsStrictObject(input: seq<Lexeme>) {
    exists v :: IsUniqueObject(v) && input == Print(v)
  }

  predicate IsUniqueObject(v: Json) { v.Object? && Good(v) }

  method UniqueExperienceJson(input: seq<Lexeme>) returns (ok: bool)
    ensures ok <==> IsStrictObject(input)
  {
    StrictMeansParsed(input);
    if input == [] || input[0] != OpenBrace { return false; }
    var d := new Decoder(input);
    ok := d.Walk();
    if !ok { return false; }
    var end := d.Token();
    ok := end == Eof;
  }

  lemma StrictMeansParsed(input: seq<Lexeme>)
    ensures IsStrictObject(input) <==>
            var r := Parse(input); r.Done? && r.rest == [] && IsUniqueObject(r.value)
  {
    var r := Parse(input);
    if r.Done? && r.rest == [] && IsUniqueObject(r.value) {
      ParsePrints(input);
      assert input == Print(r.value);
    }
    if IsStrictObject(input) {
      var v :| IsUniqueObject(v) && input == Print(v);
      PrintParses(v, []);
      assert Print(v) + [] == input;
    }
  }

  predicate NullFree(members: seq<Member>) {
    forall m | m in members :: m.value != Literal("null", true)
  }

  predicate IsTable(table: map<string, Json>, members: seq<Member>) {
    table.Keys == Names(members) && forall m | m in members :: table[m.name] == m.value
  }

  /** A text is the object with these members, their names distinct and none of them null. */
  predicate IsFlatObject(input: seq<Lexeme>, members: seq<Member>) {
    input == Print(Object(members)) && Distinct(members) && NullFree(members)
  }

  ghost predicate HasFlat(input: seq<Lexeme>) { exists members :: IsFlatObject(input, members) }

  ghost predicate HasTable(input: seq<Lexeme>, table: map<string, Json>) {
    exists members :: IsFlatObject(input, members) && IsTable(table, members)
  }

  predicate Accepted(r: Read<seq<Member>>) {
    r.Done? && r.rest == [] && Distinct(r.value) && NullFree(r.value)
  }

  lemma FlatMeansParsed(input: seq<Lexeme>)
    ensures HasFlat(input) <==> input != [] && input[0] == OpenBrace && Accepted(ParseMembers(input[1..], true))
  {
    if input != [] && input[0] == OpenBrace && Accepted(ParseMembers(input[1..], true)) {
      ParsePrints(input);
      assert IsFlatObject(input, ParseMembers(input[1..], true).value);
    }
    if HasFlat(input) {
      var members :| IsFlatObject(input, members);
      MembersParse(members, true, []);
      assert input[1..] == PrintMembers(members, true) + [];
    }
  }

  lemma FlatTable(input: seq<Lexeme>, members: seq<Member>, table: map<string, Json>)
    requires input != [] && input[0] == OpenBrace && ParseMembers(input[1..], true) == Done(members, [])
    requires Distinct(members) && NullFree(members) && IsTable(table, members)
    ensures HasTable(input, table)
  {
    ParsePrints(input);
    assert IsFlatObject(input, members);
  }

  lemma FlatRejected(done: seq<Member>, ts: seq<Lexeme>, first: bool)
    requires ts != [] && ts[0] != CloseBrace
    requires var k := ParseName(ts, first);
             || k.Fail?
             || k.value in Names(done)
             || ParseAfter(Colon, k.rest).Fail?
             || ParseAfter(Colon, k.rest).value == Literal("null", true)
    ensures !Accepted(Prepend(done, ParseMembers(ts, first)))
  {
    var r := Prepend(done, ParseMembers(ts, first));
    if r.Done? {
      var all, n := r.value, |done|;
      var m := all[n];
      assert m in all;
      if m.name in Names(done) {
        var i :| 0 <= i < n && done[i].name == m.name;
        assert all[i] == done[i];
      }
    }
  }

  lemma FlatExtends(table: map<string, Json>, done: seq<Member>, m: Member)
    requires Distinct(done) && NullFree(done) && IsTable(table, done)
    requires m.name !in table && m.value != Literal("null", true)
    ensures Distinct(done + [m]) && NullFree(done + [m]) && IsTable(table[m.name := m.value], done + [m])
  {
    forall i | 0 <= i < |done| ensures done[i].name != m.name { assert done[i] in done; }
    assert Names(done + [m]) == Names(done) + {m.name};
  }

  method AdminJsonObject(input: seq<Lexeme>) returns (result: Option<map<string, Json>>)
    ensures result.Some? <==> HasFlat(input)
    ensures result.Some? ==> HasTable(input, result.value)
  {
    FlatMeansParsed(input);
    var d := new Decoder(input);
    var first := d.Token();
    if first != Got(Delim(OpenBrace)) { return None; }
    ghost var body, done: seq<Member> := d.rest, [];
    PrependNothing(ParseMembers(d.rest, true));
    var table: map<string, Json> := map[];
    while d.More()
      invariant d.stack == [TopValue] && d.state == if done == [] then ObjectStart else ObjectComma
      invariant ParseMembers(body, true) == Prepend(done, ParseMembers(d.rest, done == []))
      invariant Distinct(done) && NullFree(done) && IsTable(table, done)
      decreases |d.rest|
    {
      var ok;
      ok, table, done := FlatMember(d, table, done);
      if !ok { return None; }
    }
    var closed := d.ObjectEnds(done == [], TopValue, []);
    if !closed || d.rest != [] { return None; }
    result := Some(table);
    assert body == input[1..] && done + [] == done;
    FlatTable(input, done, table);
  }

  /** One turn of the reader's loop. */
  method FlatMember(d: Decoder, table: map<string, Json>, ghost done: seq<Member>)
      returns (ok: bool, table': map<string, Json>, ghost done': seq<Member>)
    requires d.More() && d.state == if done == [] then ObjectStart else ObjectComma
    requires Distinct(done) && NullFree(done) && IsTable(table, done)
    modifies d
    ensures ok ==> |d.rest| < |old(d.rest)| && d.state == ObjectComma && d.stack == old(d.stack)
    ensures ok ==> done' != [] && Distinct(done') && NullFree(done') && IsTable(table', done')
    ensures var r := Prepend(done, ParseMembers(old(d.rest), done == []));
            if ok then r == Prepend(done', ParseMembers(d.rest, false)) else !Accepted(r)
  {
    ghost var before := d.rest;
    table', done' := table, done;
    var key := d.Key(done == []);
    if key.None? || key.value in table {
      FlatRejected(done, before, done == []);
      return false, table', done';
    }
    ghost var afterKey := d.rest;
    var value := d.Decode();
    if value.None? || value.value == Literal("null", true) {
      FlatRejected(done, before, done == []);
      return false, table', done';
    }
    ghost var m := Member(key.value, value.value);
    MemberTaken(done, m, before, done == [], afterKey, d.rest);
    FlatExtends(table, done, m);
    ok, table', done' := true, table[key.value := value.value], done + [m];
  }
}
