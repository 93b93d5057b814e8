/** The migration trigger scanner (app_mcp_app_triggers.go:91-207): index loops
    over a token array with a CASE depth counter, against the statements the
    tokens were printed from. Names are interned lower-case texts. */
module TriggerScan {
  import opened Wrappers

  type Name = nat

  const EMPTY: Name := 0
  const DROP: Name := 1
  const TRIGGER: Name := 2
  const IF: Name := 3
  const EXISTS: Name := 4
  const CREATE: Name := 5
  const TEMP: Name := 6
  const TEMPORARY: Name := 7
  const NOT: Name := 8
  const BEGIN: Name := 9
  const END: Name := 10
  const CASE: Name := 11
  const MAIN: Name := 12

  /** An unquoted word, a quoted name or literal, or punctuation. */
  datatype Token = Word(name: Name) | Quoted(name: Name) | Dot | Semi | Punct

  predicate Is(ts: seq<Token>, k: nat, word: Name) { k < |ts| && ts[k] == Word(word) }

  datatype Entry = Dropped | Created(sql: seq<Token>)

  type Found = map<Name, Entry>

  // ---- statements and how they are printed ---------------------------------------

  /** A piece of a trigger body: a token, or a CASE ... END with its content. */
  datatype Item = Leaf(token: Token) | Nest(items: seq<Item>)

  datatype Temp = NotTemp | TempWord | TemporaryWord

  datatype Statement =
    | CreateTrigger(temp: Temp, guarded: bool, schema: Option<Token>, name: Token, header: seq<Token>, body: seq<Item>)
    | DropTrigger(guarded: bool, schema: Option<Token>, name: Token)
    | Plain(tokens: seq<Token>)

  function PrintItems(items: seq<Item>): seq<Token> {
    if items == [] then []
    else
      (match items[0]
       case Leaf(t) => [t]
       case Nest(inner) => [Word(CASE)] + PrintItems(inner) + [Word(END)]) + PrintItems(items[1..])
  }

  function PrintName(schema: Option<Token>, name: Token): seq<Token> {
    if schema.Some? then [schema.value, Dot, name] else [name]
  }

  function Start(temp: Temp): seq<Token> {
    match temp
    case NotTemp => [Word(CREATE), Word(TRIGGER)]
    case TempWord => [Word(CREATE), Word(TEMP), Word(TRIGGER)]
    case TemporaryWord => [Word(CREATE), Word(TEMPORARY), Word(TRIGGER)]
  }

  function PrintIf(negated: bool): seq<Token> {
    if negated then [Word(IF), Word(NOT), Word(EXISTS)] else [Word(IF), Word(EXISTS)]
  }

  function Print(s: Statement): seq<Token> {
    match s
    case CreateTrigger(temp, guarded, schema, name, header, body) =>
      Start(temp) + (if guarded then PrintIf(true) else []) + PrintName(schema, name) + header + [Word(BEGIN)] +
      PrintItems(body) + [Word(END)]
    case DropTrigger(guarded, schema, name) =>
      [Word(DROP), Word(TRIGGER)] + (if guarded then PrintIf(false) else []) + PrintName(schema, name)
    case Plain(tokens) => tokens
  }

  function PrintAll(stmts: seq<Statement>): seq<Token> {
    if stmts == [] then [] else Print(stmts[0]) + ([Semi] + PrintAll(stmts[1..]))
  }

  predicate NameToken(t: Token) { (t.Word? || t.Quoted?) && t.name != EMPTY }

  predicate ItemsOk(items: seq<Item>) {
    forall i :: 0 <= i < |items| ==>
      match items[i]
      case Leaf(t) => t != Word(CASE) && t != Word(END)
      case Nest(inner) => ItemsOk(inner)
  }

  predicate NameOk(schema: Option<Token>, name: Token) {
    NameToken(name) && (schema.Some? ==> NameToken(schema.value) && schema.value != Word(IF)) &&
    (schema.None? ==> name != Word(IF))
  }

  predicate StartsTrigger(ts: seq<Token>) {
    || (Is(ts, 0, DROP) && Is(ts, 1, TRIGGER)) || (Is(ts, 0, CREATE) && Is(ts, 1, TRIGGER))
    || (Is(ts, 0, CREATE) && (Is(ts, 1, TEMP) || Is(ts, 1, TEMPORARY)) && Is(ts, 2, TRIGGER))
  }

  /** What SQL's grammar grants: bodies balance CASE with END, a header ends at
      the first BEGIN, semicolons end plain statements. */
  predicate StatementOk(s: Statement) {
    match s
    case CreateTrigger(_, _, schema, name, header, body) =>
      NameOk(schema, name) && ItemsOk(body) && Word(BEGIN) !in header && (header != [] ==> header[0] != Dot)
    case DropTrigger(_, schema, name) => NameOk(schema, name)
    case Plain(tokens) => Semi !in tokens && !StartsTrigger(tokens)
  }

  // ---- what the statements mean ----------------------------------------------------

  predicate InMain(schema: Option<Token>) { schema.None? || schema.value == Word(MAIN) || schema.value == Quoted(MAIN) }

  /** The main-schema trigger a statement creates or drops. */
  function Affects(s: Statement): Option<(Name, Entry)>
    requires StatementOk(s)
  {
    match s
    case CreateTrigger(temp, _, schema, name, _, _) =>
      if temp.NotTemp? && InMain(schema) then Some((name.name, Created(Print(s)))) else None
    case DropTrigger(_, schema, name) => if InMain(schema) then Some((name.name, Dropped)) else None
    case Plain(_) => None
  }

  function Record(s: Statement, out: Found): Found
    requires StatementOk(s)
  {
    var a := Affects(s);
    if a.Some? then out[a.value.0 := a.value.1] else out
  }

  predicate AllOk(stmts: seq<Statement>) { forall i :: 0 <= i < |stmts| ==> StatementOk(stmts[i]) }

  function RecordAll(stmts: seq<Statement>, out: Found): Found
    requires AllOk(stmts)
  {
    if stmts == [] then out else RecordAll(stmts[1..], Record(stmts[0], out))
  }

  /** The last statement about a name. */
  predicate IsLast(stmts: seq<Statement>, k: nat, name: Name)
    requires AllOk(stmts)
  {
    && k < |stmts| && Affects(stmts[k]).Some? && Affects(stmts[k]).value.0 == name
    && forall i :: k < i < |stmts| ==> Affects(stmts[i]).None? || Affects(stmts[i]).value.0 != name
  }

  /** The result holds for each name exactly the last main-schema CREATE or DROP
      TRIGGER, and nothing for a name no statement is about. */
  lemma {:induction false} LastStatementWins(stmts: seq<Statement>, out: Found, name: Name) returns (k: nat)
    requires AllOk(stmts)
    ensures k <= |stmts|
    ensures k < |stmts| ==> IsLast(stmts, k, name) && name in RecordAll(stmts, out) &&
                            RecordAll(stmts, out)[name] == Affects(stmts[k]).value.1
    ensures k == |stmts| ==>
              && (forall i :: 0 <= i < |stmts| ==> Affects(stmts[i]).None? || Affects(stmts[i]).value.0 != name)
              && (name in RecordAll(stmts, out) <==> name in out)
              && (name in out ==> RecordAll(stmts, out)[name] == out[name])
  {
    k := 0;
    if stmts != [] {
      var j := LastStatementWins(stmts[1..], Record(stmts[0], out), name);
      if j < |stmts| - 1 {
        k := j + 1;
        assert stmts[1..][j] == stmts[k];
        forall i | k < i < |stmts| ensures Affects(stmts[i]).None? || Affects(stmts[i]).value.0 != name {
          assert stmts[1..][i - 1] == stmts[i];
        }
      } else {
        forall i | 0 < i < |stmts| ensures Affects(stmts[i]).None? || Affects(stmts[i]).value.0 != name {
          assert stmts[1..][i - 1] == stmts[i];
        }
        k := if Affects(stmts[0]).Some? && Affects(stmts[0]).value.0 == name then 0 else |stmts|;
      }
    }
  }

  // ---- the scanner, each step on the tokens that are left ------------------------------

  /** What follows the first occurrence of a token. */
  function After(ts: seq<Token>, t: Token): (r: Option<seq<Token>>)
    ensures r.Some? ==> |r.value| < |ts|
  {
    if ts == [] then None else if ts[0] == t then Some(ts[1..]) else After(ts[1..], t)
  }

  function AfterSemi(ts: seq<Token>): (r: seq<Token>)
    ensures ts != [] ==> |r| < |ts|
  {
    var r := After(ts, Semi);
    if r.Some? then r.value else []
  }

  /** What follows the END that closes the body, counting CASE. */
  function AfterEnd(ts: seq<Token>, depth: nat): (r: Option<seq<Token>>)
    ensures r.Some? ==> |r.value| < |ts|
  {
    if ts == [] then None
    else if ts[0] == Word(CASE) then AfterEnd(ts[1..], depth + 1)
    else if ts[0] == Word(END) then if depth > 0 then AfterEnd(ts[1..], depth - 1) else Some(ts[1..])
    else AfterEnd(ts[1..], depth)
  }

  /** `[main.]name`: the name, the tokens after it, and whether it is in the main
      schema. */
  datatype ObjectName = ObjectName(name: Name, rest: seq<Token>, ok: bool)

  function ReadName(ts: seq<Token>): (n: ObjectName)
    ensures |n.rest| <= |ts|
  {
    if ts == [] || !NameToken(ts[0]) then ObjectName(EMPTY, ts, false)
    else if |ts| >= 3 && ts[1] == Dot then
      ObjectName(if ts[2].Word? || ts[2].Quoted? then ts[2].name else EMPTY, ts[3..], ts[0].name == MAIN)
    else ObjectName(ts[0].name, ts[1..], true)
  }

  function AfterIf(ts: seq<Token>, negated: bool): (r: seq<Token>)
    ensures |r| <= |ts|
  {
    if negated then if Is(ts, 0, IF) && Is(ts, 1, NOT) && Is(ts, 2, EXISTS) then ts[3..] else ts
    else if Is(ts, 0, IF) && Is(ts, 1, EXISTS) then ts[2..] else ts
  }

  /** What follows `[TEMP] TRIGGER` and its END. */
  function ReadTrigger(ts: seq<Token>): (e: Option<ObjectName>)
    ensures e.Some? ==> |e.value.rest| < |ts|
  {
    var name := ReadName(AfterIf(ts, true));
    var body := After(name.rest, Word(BEGIN));
    if body.None? then None
    else
      var rest := AfterEnd(body.value, 0);
      if rest.None? then None else Some(ObjectName(name.name, rest.value, name.ok))
  }

  function Scan(ts: seq<Token>, out: Found): Option<Found>
    decreases |ts|
  {
    if ts == [] then Some(out)
    else if Is(ts, 0, DROP) && Is(ts, 1, TRIGGER) then
      var name := ReadName(AfterIf(ts[2..], false));
      Scan(AfterSemi(ts), if name.ok then out[name.name := Dropped] else out)
    else if StartsTrigger(ts) then
      var temp := !Is(ts, 1, TRIGGER);
      var e := ReadTrigger(ts[if temp then 3 else 2..]);
      if e.None? then None
      else
        Scan(e.value.rest,
             if e.value.ok && !temp then out[e.value.name := Created(ts[..|ts| - |e.value.rest|])] else out)
    else Scan(AfterSemi(ts), out)
  }

  // ---- the scanner reads back what was printed ----------------------------------------

  lemma {:induction false} AfterSkips(before: seq<Token>, t: Token, rest: seq<Token>)
    requires t !in before
    ensures After(before + ([t] + rest), t) == Some(rest)
  {
    if before == [] {
      assert before + ([t] + rest) == [t] + rest;
    } else {
      AfterSkips(before[1..], t, rest);
      assert (before + ([t] + rest))[1..] == before[1..] + ([t] + rest);
    }
  }

  lemma AfterEndOne(t: Token, rest: seq<Token>, depth: nat)
    ensures AfterEnd([t] + rest, depth) ==
            if t == Word(CASE) then AfterEnd(rest, depth + 1)
            else if t == Word(END) then if depth > 0 then AfterEnd(rest, depth - 1) else Some(rest)
            else AfterEnd(rest, depth)
  {
    assert ([t] + rest)[1..] == rest;
  }

  lemma AfterEndSkipsNest(body: seq<Token>, rest: seq<Token>, tail: seq<Token>, depth: nat)
    requires var after := [Word(END)] + (rest + tail); AfterEnd(body + after, depth + 1) == AfterEnd(after, depth + 1)
    ensures AfterEnd([Word(CASE)] + body + [Word(END)] + rest + tail, depth) == AfterEnd(rest + tail, depth)
  {
    var after := [Word(END)] + (rest + tail);
    assert [Word(CASE)] + body + [Word(END)] + rest + tail == [Word(CASE)] + (body + after);
    AfterEndOne(Word(CASE), body + after, depth);
    AfterEndOne(Word(END), rest + tail, depth + 1);
  }

  lemma {:induction false} AfterEndSkipsItems(items: seq<Item>, tail: seq<Token>, depth: nat)
    requires ItemsOk(items)
    ensures AfterEnd(PrintItems(items) + tail, depth) == AfterEnd(tail, depth)
    decreases items
  {
    if items == [] {
      assert PrintItems(items) + tail == tail;
    } else {
      var rest := PrintItems(items[1..]);
      AfterEndSkipsItems(items[1..], tail, depth);
      match items[0]
      case Leaf(t) =>
        assert PrintItems(items) + tail == [t] + (rest + tail);
        AfterEndOne(t, rest + tail, depth);
      case Nest(inner) =>
        assert PrintItems(items) == [Word(CASE)] + PrintItems(inner) + [Word(END)] + rest;
        AfterEndSkipsItems(inner, [Word(END)] + (rest + tail), depth + 1);
        AfterEndSkipsNest(PrintItems(inner), rest, tail, depth);
    }
  }

  lemma NameIsRead(schema: Option<Token>, name: Token, rest: seq<Token>)
    requires NameOk(schema, name) && (rest != [] ==> rest[0] != Dot)
    ensures ReadName(PrintName(schema, name) + rest) == ObjectName(name.name, rest, InMain(schema))
  {
  }

  lemma IfIsRead(guarded: bool, negated: bool, rest: seq<Token>)
    requires rest != [] && rest[0] != Word(IF)
    ensures AfterIf((if guarded then PrintIf(negated) else []) + rest, negated) == rest
  {
  }

  lemma SemiEnds(before: seq<Token>, tail: seq<Token>)
    requires Semi !in before
    ensures AfterSemi(before + ([Semi] + tail)) == tail
  {
    AfterSkips(before, Semi, tail);
  }

  lemma ScanDropAt(ts: seq<Token>, out: Found, name: ObjectName)
    requires Is(ts, 0, DROP) && Is(ts, 1, TRIGGER) && ReadName(AfterIf(ts[2..], false)) == name
    ensures Scan(ts, out) == Scan(AfterSemi(ts), if name.ok then out[name.name := Dropped] else out)
  {
  }

  lemma Regroup(a: seq<Token>, b: seq<Token>, c: seq<Token>, d: seq<Token>)
    ensures a + b + c + d == a + (b + (c + d))
  {
    assert a + b + c + d == (a + b) + (c + d);
    assert (a + b) + (c + d) == a + (b + (c + d));
  }

  lemma ScanDrop(s: Statement, tail: seq<Token>, out: Found)
    requires s.DropTrigger? && StatementOk(s)
    ensures Scan(Print(s) + ([Semi] + tail), out) == Scan(tail, Record(s, out))
  {
    var ts := Print(s) + ([Semi] + tail);
    var rest := PrintName(s.schema, s.name) + ([Semi] + tail);
    assert AfterIf(ts[2..], false) == rest by {
      var guard := if s.guarded then PrintIf(false) else [];
      Regroup([Word(DROP), Word(TRIGGER)], guard, PrintName(s.schema, s.name), [Semi] + tail);
      assert ([Word(DROP), Word(TRIGGER)] + (guard + rest))[2..] == guard + rest;
      IfIsRead(s.guarded, false, rest);
    }
    var name := ObjectName(s.name.name, [Semi] + tail, InMain(s.schema));
    assert ReadName(rest) == name by { NameIsRead(s.schema, s.name, [Semi] + tail); }
    ScanDropAt(ts, out, name);
    assert AfterSemi(ts) == tail by { SemiEnds(Print(s), tail); }
  }

  /** What follows the opening of a CREATE TRIGGER. */
  function BodyAndTail(s: Statement, tail: seq<Token>): seq<Token>
    requires s.CreateTrigger?
  {
    s.header + ([Word(BEGIN)] + (PrintItems(s.body) + ([Word(END)] + tail)))
  }

  lemma TriggerIsRead(s: Statement, tail: seq<Token>)
    requires s.CreateTrigger? && StatementOk(s)
    ensures ReadTrigger((if s.guarded then PrintIf(true) else []) + (PrintName(s.schema, s.name) + BodyAndTail(s, tail))) ==
            Some(ObjectName(s.name.name, tail, InMain(s.schema)))
  {
    var body := PrintItems(s.body) + ([Word(END)] + tail);
    var named := PrintName(s.schema, s.name) + BodyAndTail(s, tail);
    IfIsRead(s.guarded, true, named);
    assert BodyAndTail(s, tail)[0] != Dot;
    NameIsRead(s.schema, s.name, BodyAndTail(s, tail));
    AfterSkips(s.header, Word(BEGIN), body);
    AfterEndSkipsItems(s.body, [Word(END)] + tail, 0);
    AfterEndOne(Word(END), tail, 0);
  }

  lemma PrintSplits(s: Statement, tail: seq<Token>)
    requires s.CreateTrigger?
    ensures Print(s) + tail ==
            Start(s.temp) + ((if s.guarded then PrintIf(true) else []) + (PrintName(s.schema, s.name) + BodyAndTail(s, tail)))
  {
    var start, guard, name := Start(s.temp), if s.guarded then PrintIf(true) else [], PrintName(s.schema, s.name);
    var begin, body, end := [Word(BEGIN)], PrintItems(s.body), [Word(END)];
    Regroup(start + guard + name + s.header + begin, body, end, tail);
    Regroup(start + guard + name, s.header, begin, body + (end + tail));
    Regroup(start, guard, name, BodyAndTail(s, tail));
  }

  lemma StartIsSeen(temp: Temp, after: seq<Token>)
    ensures var ts := Start(temp) + after;
            && StartsTrigger(ts) && !Is(ts, 0, DROP) && (Is(ts, 1, TRIGGER) <==> temp.NotTemp?)
            && |Start(temp)| == (if temp.NotTemp? then 2 else 3) && ts[|Start(temp)|..] == after
  {
  }

  lemma ScanCreateAt(ts: seq<Token>, plain: bool, e: ObjectName, out: Found)
    requires StartsTrigger(ts) && !Is(ts, 0, DROP) && (Is(ts, 1, TRIGGER) <==> plain)
    requires |ts| >= 3 && ReadTrigger(ts[if plain then 2 else 3..]) == Some(e)
    ensures Scan(ts, out) ==
            Scan(e.rest, if e.ok && plain then out[e.name := Created(ts[..|ts| - |e.rest|])] else out)
  {
  }

  lemma SkipSemi(tail: seq<Token>, out: Found)
    ensures Scan([Semi] + tail, out) == Scan(tail, out)
  {
    assert ([Semi] + tail)[1..] == tail;
    assert !StartsTrigger([Semi] + tail);
  }

  lemma ScanCreate(s: Statement, tail: seq<Token>, out: Found)
    requires s.CreateTrigger? && StatementOk(s)
    ensures Scan(Print(s) + ([Semi] + tail), out) == Scan(tail, Record(s, out))
  {
    var left := [Semi] + tail;
    var ts := Print(s) + left;
    var after := (if s.guarded then PrintIf(true) else []) + (PrintName(s.schema, s.name) + BodyAndTail(s, left));
    assert ts == Start(s.temp) + after by { PrintSplits(s, left); }
    StartIsSeen(s.temp, after);
    TriggerIsRead(s, left);
    ScanCreateAt(ts, s.temp.NotTemp?, ObjectName(s.name.name, left, InMain(s.schema)), out);
    assert ts[..|ts| - |left|] == Print(s);
    SkipSemi(tail, Record(s, out));
  }

  lemma PlainStaysPlain(tokens: seq<Token>, tail: seq<Token>)
    requires !StartsTrigger(tokens)
    ensures !StartsTrigger(tokens + ([Semi] + tail))
  {
    var ts := tokens + ([Semi] + tail);
    assert ts[|tokens|] == Semi;
    assert forall i :: 0 <= i < |tokens| ==> ts[i] == tokens[i];
  }

  lemma ScanPlain(s: Statement, tail: seq<Token>, out: Found)
    requires s.Plain? && StatementOk(s)
    ensures Scan(Print(s) + ([Semi] + tail), out) == Scan(tail, Record(s, out))
  {
    SemiEnds(s.tokens, tail);
    PlainStaysPlain(s.tokens, tail);
  }

  lemma ScanOne(s: Statement, tail: seq<Token>, out: Found)
    requires StatementOk(s)
    ensures Scan(Print(s) + ([Semi] + tail), out) == Scan(tail, Record(s, out))
  {
    match s
    case CreateTrigger(_, _, _, _, _, _) => ScanCreate(s, tail, out);
    case DropTrigger(_, _, _) => ScanDrop(s, tail, out);
    case Plain(_) => ScanPlain(s, tail, out);
  }

  /** For any statements printed as tokens, whatever their bodies nest, the
      scanner succeeds and records exactly what they mean. */
  lemma {:induction false} ScanReadsBack(stmts: seq<Statement>, out: Found)
    requires AllOk(stmts)
    ensures Scan(PrintAll(stmts), out) == Some(RecordAll(stmts, out))
  {
    if stmts != [] {
      ScanOne(stmts[0], PrintAll(stmts[1..]), out);
      ScanReadsBack(stmts[1..], Record(stmts[0], out));
    }
  }

  // ---- the scanner as it runs -----------------------------------------------------------

  /** A word test at an index past which there may be no token. */
  predicate Kw(toks: seq<Token>, i: nat, word: Name) { i < |toks| && toks[i] == Word(word) }

  method SkipPast(toks: seq<Token>, start: nat, t: Token) returns (i: nat)
    requires start <= |toks|
    ensures start <= i <= |toks|
    ensures After(toks[start..], t) == (if i < |toks| then Some(toks[i + 1..]) else None)
  {
    i := start;
    while i < |toks| && toks[i] != t
      invariant start <= i <= |toks|
      invariant After(toks[start..], t) == After(toks[i..], t)
    {
      assert toks[i..][1..] == toks[i + 1..];
      i := i + 1;
    }
    if i < |toks| {
      assert toks[i..][1..] == toks[i + 1..];
    }
  }

  /** The END of a body, with a CASE depth counter. */
  method FindEnd(toks: seq<Token>, start: nat) returns (end: nat)
    requires start <= |toks|
    ensures start <= end <= |toks|
    ensures AfterEnd(toks[start..], 0) == (if end < |toks| then Some(toks[end + 1..]) else None)
  {
    end := start;
    var depth := 0;
    while end < |toks|
      invariant start <= end <= |toks| && depth >= 0
      invariant AfterEnd(toks[start..], 0) == AfterEnd(toks[end..], depth)
    {
      assert toks[end..][1..] == toks[end + 1..];
      if toks[end] == Word(CASE) {
        depth := depth + 1;
      } else if toks[end] == Word(END) {
        if depth == 0 {
          return;
        }
        depth := depth - 1;
      }
      end := end + 1;
    }
  }

  /** The name at an index and the index after it. */
  method ObjectNameAt(toks: seq<Token>, i: nat) returns (name: Name, next: nat, ok: bool)
    requires i <= |toks|
    ensures i <= next <= |toks| && ReadName(toks[i..]) == ObjectName(name, toks[next..], ok)
  {
    if i == |toks| || !NameToken(toks[i]) {
      return EMPTY, i, false;
    }
    if i + 2 < |toks| && toks[i + 1] == Dot {
      name := if toks[i + 2].Word? || toks[i + 2].Quoted? then toks[i + 2].name else EMPTY;
      return name, i + 3, toks[i].name == MAIN;
    }
    return toks[i].name, i + 1, true;
  }

  method SkipIf(toks: seq<Token>, i: nat, negated: bool) returns (j: nat)
    requires i <= |toks|
    ensures i <= j <= |toks| && AfterIf(toks[i..], negated) == toks[j..]
  {
    j := i;
    if negated {
      if Kw(toks, i, IF) && Kw(toks, i + 1, NOT) && Kw(toks, i + 2, EXISTS) {
        j := i + 3;
      }
    } else if Kw(toks, i, IF) && Kw(toks, i + 1, EXISTS) {
      j := i + 2;
    }
  }

  /** One CREATE TRIGGER whose `[TEMP] TRIGGER` ends before j: its name and the
      index of its END. */
  method ParseTrigger(toks: seq<Token>, j: nat) returns (found: bool, name: Name, ok: bool, end: nat)
    requires j <= |toks|
    ensures found ==> j < end < |toks| && ReadTrigger(toks[j..]) == Some(ObjectName(name, toks[end + 1..], ok))
    ensures !found ==> ReadTrigger(toks[j..]).None?
  {
    var k := SkipIf(toks, j, true);
    var next: nat;
    name, next, ok := ObjectNameAt(toks, k);
    var begin := SkipPast(toks, next, Word(BEGIN));
    found, end := false, 0;
    if begin < |toks| {
      end := FindEnd(toks, begin + 1);
      found := end < |toks|;
    }
  }

  /** A DROP TRIGGER at i; its statement ends like any other. */
  method ScanDropStatement(toks: seq<Token>, i: nat, before: Found) returns (out: Found)
    requires Kw(toks, i, DROP) && Kw(toks, i + 1, TRIGGER)
    ensures Scan(toks[i..], before) == Scan(AfterSemi(toks[i..]), out)
  {
    ghost var ts := toks[i..];
    var j := SkipIf(toks, i + 2, false);
    assert ts[2..] == toks[i + 2..];
    var name, _, ok := ObjectNameAt(toks, j);
    ScanDropAt(ts, before, ReadName(toks[j..]));
    out := if ok then before[name := Dropped] else before;
  }

  predicate CreateAt(toks: seq<Token>, i: nat) {
    Kw(toks, i, CREATE) &&
    (Kw(toks, i + 1, TRIGGER) ||
     ((Kw(toks, i + 1, TEMP) || Kw(toks, i + 1, TEMPORARY)) && Kw(toks, i + 2, TRIGGER)))
  }

  lemma StartsAt(toks: seq<Token>, i: nat)
    requires i < |toks|
    ensures StartsTrigger(toks[i..]) <==> (Kw(toks, i, DROP) && Kw(toks, i + 1, TRIGGER)) || CreateAt(toks, i)
    ensures CreateAt(toks, i) ==> !Is(toks[i..], 0, DROP)
  {
  }

  lemma CreateText(toks: seq<Token>, i: nat, end: nat)
    requires i < end < |toks|
    ensures toks[i..][..|toks[i..]| - |toks[end + 1..]|] == toks[i..end + 1]
  {
  }

  /** A CREATE [TEMP] TRIGGER at i: its END, and the result with it if it counts. */
  method ScanCreateStatement(toks: seq<Token>, i: nat, before: Found) returns (found: bool, end: nat, out: Found)
    requires CreateAt(toks, i)
    ensures found ==> i < end < |toks| && Scan(toks[i..], before) == Scan(toks[end + 1..], out)
    ensures !found ==> Scan(toks[i..], before).None?
  {
    ghost var ts := toks[i..];
    StartsAt(toks, i);
    out := before;
    var temp := !Kw(toks, i + 1, TRIGGER);
    var j := if temp then i + 3 else i + 2;
    assert ts[j - i..] == toks[j..];
    var name, ok;
    found, name, ok, end := ParseTrigger(toks, j);
    if found {
      ScanCreateAt(ts, !temp, ObjectName(name, toks[end + 1..], ok), before);
      CreateText(toks, i, end);
      if ok && !temp {
        out := out[name := Created(toks[i..end + 1])];
      }
    }
  }

  lemma ScanOther(ts: seq<Token>, out: Found)
    requires ts != [] && !StartsTrigger(ts)
    ensures Scan(ts, out) == Scan(AfterSemi(ts), out)
  {
  }

  method SkipStatement(toks: seq<Token>, i: nat) returns (next: nat)
    requires i < |toks|
    ensures i < next <= |toks| && AfterSemi(toks[i..]) == toks[next..]
  {
    var semi := SkipPast(toks, i, Semi);
    next := if semi < |toks| then semi + 1 else |toks|;
  }

  /** A statement at i that creates no trigger; it ends at its semicolon. */
  method ScanOtherStatement(toks: seq<Token>, i: nat, before: Found) returns (next: nat, out: Found)
    requires i < |toks| && !CreateAt(toks, i)
    ensures i < next <= |toks| && Scan(toks[i..], before) == Scan(toks[next..], out)
  {
    out := before;
    if Kw(toks, i, DROP) && Kw(toks, i + 1, TRIGGER) {
      out := ScanDropStatement(toks, i, before);
    } else {
      assert !StartsTrigger(toks[i..]) by { StartsAt(toks, i); }
      ScanOther(toks[i..], before);
    }
    next := SkipStatement(toks, i);
  }

  /** The statement at i, and where the next one starts. */
  method ScanStatement(toks: seq<Token>, i: nat, before: Found) returns (found: bool, next: nat, out: Found)
    requires i < |toks|
    ensures found ==> i < next <= |toks| && Scan(toks[i..], before) == Scan(toks[next..], out)
    ensures !found ==> Scan(toks[i..], before).None?
  {
    if CreateAt(toks, i) {
      found, next, out := ScanCreateStatement(toks, i, before);
      next := next + 1;
    } else {
      found := true;
      next, out := ScanOtherStatement(toks, i, before);
    }
  }

  /** The scan of one migration into the accumulated result; a trigger without a
      BEGIN ... END body is an error. It terminates on any tokens. */
  method ScanTriggers(toks: seq<Token>, before: Found) returns (r: Option<Found>)
    ensures r == Scan(toks, before)
  {
    ghost var result := Scan(toks, before);
    var out: Found := before;
    var i := 0;
    assert toks[0..] == toks;
    while i < |toks|
      invariant i <= |toks| && result == Scan(toks[i..], out)
      decreases |toks| - i
    {
      var found, next, more := ScanStatement(toks, i, out);
      if !found {
        return None;
      }
      i, out := next, more;
    }
    assert toks[i..] == [];
    r := Some(out);
  }

  function ScanFiles(files: seq<seq<Token>>): Option<Found> {
    if files == [] then Some(map[])
    else
      var before := ScanFiles(files[..|files| - 1]);
      if before.None? then None else Scan(files[|files| - 1], before.value)
  }

  /** All migrations, in the order the runtime applies them; the first that cannot
      be read ends it. */
  method MigrationTriggers(files: seq<seq<Token>>) returns (r: Option<Found>)
    ensures r == ScanFiles(files)
  {
    var out: Found := map[];
    for k := 0 to |files|
      invariant ScanFiles(files[..k]) == Some(out)
    {
      assert files[..k + 1][..k] == files[..k];
      var next := ScanTriggers(files[k], out);
      if next.None? {
        NoneStaysNone(files, k + 1);
        return None;
      }
      out := next.value;
    }
    assert files[..|files|] == files;
    r := Some(out);
  }

  lemma {:induction false} NoneStaysNone(files: seq<seq<Token>>, k: nat)
    requires k <= |files| && ScanFiles(files[..k]).None?
    ensures ScanFiles(files).None?
    decreases |files| - k
  {
    if k == |files| {
      assert files[..k] == files;
    } else {
      assert files[..k + 1][..k] == files[..k];
      NoneStaysNone(files, k + 1);
    }
  }

  /** The names end with what the whole history of migrations says last. */
  lemma {:induction false} HistoryReadsBack(history: seq<seq<Statement>>, files: seq<seq<Token>>)
    requires |history| == |files|
    requires forall k :: 0 <= k < |files| ==> AllOk(history[k]) && files[k] == PrintAll(history[k])
    ensures AllOk(Joined(history)) && ScanFiles(files) == Some(RecordAll(Joined(history), map[]))
  {
    if history != [] {
      var n := |history| - 1;
      HistoryReadsBack(history[..n], files[..n]);
      RecordAllAppend(Joined(history[..n]), history[n], map[]);
      ScanReadsBack(history[n], RecordAll(Joined(history[..n]), map[]));
    }
  }

  function Joined(history: seq<seq<Statement>>): seq<Statement> {
    if history == [] then [] else Joined(history[..|history| - 1]) + history[|history| - 1]
  }

  lemma {:induction false} RecordAllAppend(a: seq<Statement>, b: seq<Statement>, out: Found)
    requires AllOk(a) && AllOk(b)
    ensures AllOk(a + b) && RecordAll(a + b, out) == RecordAll(b, RecordAll(a, out))
  {
    if a == [] {
      assert a + b == b;
    } else {
      assert (a + b)[1..] == a[1..] + b;
      RecordAllAppend(a[1..], b, Record(a[0], out));
    }
  }
}
