/** DCSGen's flat scan for registered functions: it tracks the enclosing scopes by counting braces per
    scope name, line by line. A header is a tree of scopes; the scan sees only its lines. */
module Scopes {
  import opened Sequences
  import opened Wire

  /** What a line registers: a call with its list of types, return type first, or an event. */
  datatype Token = Call(name: string, result: string, args: seq<string>) | Event(name: string)

  /** A cleaned source line: one that opens a namespace, class or struct, or any other with its brace
      counts and the token it registers, if it starts with one of the registration marks. */
  datatype Line = Open(name: string) | Other(opens: nat, closes: nat, token: Option<Token>)

  /** f_prefix, oc and scope; an empty scope is the state before the first scope line. */
  datatype State = State(prefix: seq<string>, oc: map<string, int>, scope: string)

  const START := State([], map[], "")

  function Step(s: State, line: Line): State {
    match line
    case Open(name) => State(s.prefix + [name], s.oc[name := 1], name)
    case Other(opens, closes, _) =>
      if s.scope == "" || s.scope !in s.oc then s
      else
        var n := s.oc[s.scope] + opens - closes;
        var oc := s.oc[s.scope := n];
        if n == 0 && s.prefix != [] then
          var prefix := s.prefix[..|s.prefix| - 1];
          State(prefix, oc, if prefix != [] then prefix[|prefix| - 1] else s.scope)
        else State(s.prefix, oc, s.scope)
  }

  function Join(parts: seq<string>): string {
    if parts == [] then "" else if |parts| == 1 then parts[0]
    else Join(parts[..|parts| - 1]) + "::" + parts[|parts| - 1]
  }

  function Qualified(prefix: seq<string>, name: string): string {
    Join(prefix) + "::" + name
  }

  function After(s: State, lines: seq<Line>): State
    decreases |lines|
  {
    if lines == [] then s else After(Step(s, lines[0]), lines[1..])
  }

  /** The prefix after each line. */
  function Trace(s: State, lines: seq<Line>): (t: seq<seq<string>>)
    ensures |t| == |lines|
    decreases |lines|
  {
    if lines == [] then [] else [Step(s, lines[0]).prefix] + Trace(Step(s, lines[0]), lines[1..])
  }

  function Qualify(prefix: seq<string>, token: Token): Token {
    match token
    case Call(name, result, args) => Call(Qualified(prefix, name), result, args)
    case Event(name) => Event(Qualified(prefix, name))
  }

  function RegisteredBy(line: Line, prefix: seq<string>): seq<Token> {
    if line.Other? && line.token.Some? then [Qualify(prefix, line.token.value)] else []
  }

  /** The tokens registered, under their qualified names, when the prefix after each line is `prefixes`. */
  function Registered(lines: seq<Line>, prefixes: seq<seq<string>>): seq<Token>
    requires |lines| == |prefixes|
  {
    if lines == [] then [] else RegisteredBy(lines[0], prefixes[0]) + Registered(lines[1..], prefixes[1..])
  }

  /** The lists getTokenSymbols returns, as they follow from the tokens. */
  datatype Symbols = Symbols(
    func: seq<string>, returnType: seq<string>, argsName: seq<seq<string>>, needsHeader: bool,
    evtFunc: seq<string>, evtName: seq<string>)

  const NO_SYMBOLS := Symbols([], [], [], false, [], [])

  /** The name as an identifier: each double colon becomes an underscore. */
  function Underscored(name: string): string {
    if |name| < 2 then name
    else if name[..2] == "::" then "_" + Underscored(name[2..])
    else [name[0]] + Underscored(name[1..])
  }

  function Collect(tokens: seq<Token>): Symbols {
    if tokens == [] then NO_SYMBOLS
    else Extend(Collect(tokens[..|tokens| - 1]), tokens[|tokens| - 1])
  }

  function Extend(y: Symbols, token: Token): Symbols {
    match token
    case Call(name, result, args) =>
      y.(func := y.func + [name], returnType := y.returnType + [if result != "void" then result else ""],
         argsName := y.argsName + [if args != [] then args else [""]], needsHeader := true)
    case Event(name) => y.(evtFunc := y.evtFunc + [name], evtName := y.evtName + [Underscored(name)])
  }

  lemma CollectPush(tokens: seq<Token>, token: Token)
    ensures Collect(tokens + [token]) == Extend(Collect(tokens), token)
  {
    assert (tokens + [token])[..|tokens|] == tokens;
  }

  function Calls(tokens: seq<Token>): seq<Token> {
    if tokens == [] then []
    else Calls(tokens[..|tokens| - 1]) + (if tokens[|tokens| - 1].Call? then [tokens[|tokens| - 1]] else [])
  }

  function Events(tokens: seq<Token>): seq<Token> {
    if tokens == [] then []
    else Events(tokens[..|tokens| - 1]) + (if tokens[|tokens| - 1].Event? then [tokens[|tokens| - 1]] else [])
  }

  /** Position i of the three lists belongs to the i-th call; a call without arguments has the single empty
      argument, one without result the empty type. */
  ghost predicate CallLists(func: seq<string>, returnType: seq<string>, argsName: seq<seq<string>>, calls: seq<Token>) {
    && |func| == |returnType| == |argsName| == |calls|
    && forall i :: 0 <= i < |calls| ==> CallEntry(func[i], returnType[i], argsName[i], calls[i])
  }

  predicate CallEntry(name: string, resultType: string, args: seq<string>, call: Token) {
    && call.Call? && name == call.name
    && resultType == (if call.result == "void" then "" else call.result)
    && args == (if call.args == [] then [""] else call.args)
  }

  ghost predicate EventLists(evtFunc: seq<string>, evtName: seq<string>, events: seq<Token>) {
    && |evtFunc| == |evtName| == |events|
    && forall i :: 0 <= i < |events| ==> EventEntry(evtFunc[i], evtName[i], events[i])
  }

  predicate EventEntry(name: string, identifier: string, event: Token) {
    event.Event? && name == event.name && identifier == Underscored(event.name)
  }

  lemma CallListsPush(func: seq<string>, returnType: seq<string>, argsName: seq<seq<string>>, calls: seq<Token>,
                      name: string, resultType: string, args: seq<string>, call: Token)
    requires CallLists(func, returnType, argsName, calls) && CallEntry(name, resultType, args, call)
    ensures CallLists(func + [name], returnType + [resultType], argsName + [args], calls + [call])
  {
  }

  lemma EventListsPush(evtFunc: seq<string>, evtName: seq<string>, events: seq<Token>, event: Token)
    requires EventLists(evtFunc, evtName, events) && event.Event?
    ensures EventLists(evtFunc + [event.name], evtName + [Underscored(event.name)], events + [event])
  {
    assert EventEntry(event.name, Underscored(event.name), event);
  }

  ghost predicate IsSymbols(y: Symbols, tokens: seq<Token>) {
    && CallLists(y.func, y.returnType, y.argsName, Calls(tokens))
    && EventLists(y.evtFunc, y.evtName, Events(tokens))
    && (y.needsHeader <==> Calls(tokens) != [])
  }

  lemma {:induction false} CollectIsSymbols(tokens: seq<Token>)
    ensures IsSymbols(Collect(tokens), tokens)
  {
    if tokens != [] {
      var k := |tokens| - 1;
      CollectIsSymbols(tokens[..k]);
      if tokens[k].Call? {
        CallExtends(Collect(tokens[..k]), tokens[..k], tokens[k]);
      } else {
        EventExtends(Collect(tokens[..k]), tokens[..k], tokens[k]);
      }
      assert tokens == tokens[..k] + [tokens[k]];
    }
  }

  lemma CallsPush(tokens: seq<Token>, token: Token)
    ensures Calls(tokens + [token]) == if token.Call? then Calls(tokens) + [token] else Calls(tokens)
    ensures Events(tokens + [token]) == if token.Event? then Events(tokens) + [token] else Events(tokens)
  {
    assert (tokens + [token])[..|tokens|] == tokens;
    assert Calls(tokens) + [] == Calls(tokens) && Events(tokens) + [] == Events(tokens);
  }

  lemma CallExtends(y: Symbols, tokens: seq<Token>, token: Token)
    requires IsSymbols(y, tokens) && token.Call?
    ensures IsSymbols(Extend(y, token), tokens + [token])
  {
    CallsPush(tokens, token);
    CallListsPush(y.func, y.returnType, y.argsName, Calls(tokens), token.name,
                  if token.result != "void" then token.result else "", if token.args != [] then token.args else [""], token);
  }

  lemma EventExtends(y: Symbols, tokens: seq<Token>, token: Token)
    requires IsSymbols(y, tokens) && token.Event?
    ensures IsSymbols(Extend(y, token), tokens + [token])
  {
    CallsPush(tokens, token);
    EventListsPush(y.evtFunc, y.evtName, Events(tokens), token);
  }

  lemma {:induction false} UnderscoredPrefix(name: string, rest: string)
    requires ':' !in name
    ensures Underscored(name + "::" + rest) == name + "_" + Underscored(rest)
  {
    var whole := name + "::" + rest;
    if name == "" {
      assert whole[..2] == "::" && whole[2..] == rest;
    } else {
      assert whole[0] == name[0] && name[0] in name;
      assert whole[1..] == name[1..] + "::" + rest;
      UnderscoredPrefix(name[1..], rest);
      assert [name[0]] + (name[1..] + "_" + Underscored(rest)) == name + "_" + Underscored(rest);
    }
  }

  lemma {:induction false} UnderscoredPlain(name: string)
    requires ':' !in name
    ensures Underscored(name) == name
  {
    if |name| >= 2 {
      assert name[0] in name;
      UnderscoredPlain(name[1..]);
    }
  }

  function WithUnderscores(path: seq<string>): string {
    if path == [] then "" else path[0] + "_" + WithUnderscores(path[1..])
  }

  /** The identifier of an event: the scope names and its own, joined by underscores. */
  lemma {:induction false} EventIdentifier(path: seq<string>, name: string)
    requires ':' !in name && forall n :: n in path ==> ':' !in n
    ensures Underscored(Spelled(path) + name) == WithUnderscores(path) + name
  {
    if path == [] {
      UnderscoredPlain(name);
      assert "" + name == name;
    } else {
      EventIdentifier(path[1..], name);
      UnderscoredPrefix(path[0], Spelled(path[1..]) + name);
      Associative(path[0] + "::", Spelled(path[1..]), name);
      Associative(path[0] + "_", WithUnderscores(path[1..]), name);
    }
  }

  /** getTokenSymbols on one file. */
  method GetTokenSymbols(lines: seq<Line>) returns (symbols: Symbols)
    ensures symbols == Collect(Registered(lines, Trace(START, lines)))
  {
    symbols := NO_SYMBOLS;
    var s := START;
    for i := 0 to |lines|
      invariant s == After(START, lines[..i])
      invariant symbols == Collect(Registered(lines[..i], Trace(START, lines[..i])))
    {
      NextLine(lines, i);
      s := Step(s, lines[i]);
      if lines[i].Other? && lines[i].token.Some? {
        var token := Qualify(s.prefix, lines[i].token.value);
        CollectPush(Registered(lines[..i], Trace(START, lines[..i])), token);
        symbols := Extend(symbols, token);
      }
    }
    assert lines[..|lines|] == lines;
  }

  lemma NextLine(lines: seq<Line>, i: nat)
    requires i < |lines|
    ensures var s := Step(After(START, lines[..i]), lines[i]);
            && After(START, lines[..i + 1]) == s
            && Registered(lines[..i + 1], Trace(START, lines[..i + 1]))
               == if lines[i].Other? && lines[i].token.Some?
                  then Registered(lines[..i], Trace(START, lines[..i])) + [Qualify(s.prefix, lines[i].token.value)]
                  else Registered(lines[..i], Trace(START, lines[..i]))
  {
    var a, b := lines[..i], [lines[i]];
    assert lines[..i + 1] == a + b;
    TraceAppend(START, a, b);
    OneLine(After(START, a), lines[i]);
    RegisteredAppend(a, b, Trace(START, a), [Step(After(START, a), lines[i]).prefix]);
    OneRegistered(lines[i], Step(After(START, a), lines[i]).prefix);
    assert Registered(a, Trace(START, a)) + [] == Registered(a, Trace(START, a));
  }

  lemma OneRegistered(line: Line, prefix: seq<string>)
    ensures Registered([line], [prefix]) == RegisteredBy(line, prefix)
  {
    assert [line][1..] == [] && [prefix][1..] == [];
  }

  lemma {:induction false} RegisteredAppend(a: seq<Line>, b: seq<Line>, p: seq<seq<string>>, q: seq<seq<string>>)
    requires |a| == |p| && |b| == |q|
    ensures Registered(a + b, p + q) == Registered(a, p) + Registered(b, q)
    decreases |a|
  {
    if a == [] {
      assert a + b == b && p + q == q;
    } else {
      assert (a + b)[1..] == a[1..] + b && (p + q)[1..] == p[1..] + q;
      RegisteredAppend(a[1..], b, p[1..], q);
      Associative(RegisteredBy(a[0], p[0]), Registered(a[1..], p[1..]), Registered(b, q));
    }
  }

  lemma OneLine(s: State, line: Line)
    ensures After(s, [line]) == Step(s, line) && Trace(s, [line]) == [Step(s, line).prefix]
  {
    assert After(s, [line]) == After(Step(s, line), []);
  }

  lemma {:induction false} TraceAppend(s: State, a: seq<Line>, b: seq<Line>)
    ensures After(s, a + b) == After(After(s, a), b)
    ensures Trace(s, a + b) == Trace(s, a) + Trace(After(s, a), b)
    decreases |a|
  {
    if a == [] {
      assert a + b == b;
    } else {
      assert (a + b)[1..] == a[1..] + b;
      TraceAppend(Step(s, a[0]), a[1..], b);
    }
  }

  // ---------------------------------------------------------------- the tree behind the lines

  /** A scope; a braced block such as the body of a function, whose opening line may register a token; a
      single line with k matched pairs of braces, which may register one too. */
  datatype Item =
    | Scope(name: string, items: seq<Item>)
    | Block(token: Option<Token>, items: seq<Item>)
    | Single(token: Option<Token>, k: nat)

  const CLOSE := Other(0, 1, None)

  function Render(item: Item): seq<Line> {
    match item
    case Scope(name, items) => [Open(name)] + RenderAll(items) + [CLOSE]
    case Block(token, items) => [Other(1, 0, token)] + RenderAll(items) + [CLOSE]
    case Single(token, k) => [Other(k, k, token)]
  }

  function RenderAll(items: seq<Item>): seq<Line> {
    if items == [] then [] else Render(items[0]) + RenderAll(items[1..])
  }

  /** The enclosing scopes after each line of an item that lies inside `path`. */
  function Paths(path: seq<string>, item: Item): (t: seq<seq<string>>)
    ensures |t| == |Render(item)|
    decreases item
  {
    match item
    case Scope(name, items) => [path + [name]] + PathsAll(path + [name], items) + [path]
    case Block(_, items) => [path] + PathsAll(path, items) + [path]
    case _ => [path]
  }

  function PathsAll(path: seq<string>, items: seq<Item>): (t: seq<seq<string>>)
    ensures |t| == |RenderAll(items)|
    decreases items
  {
    if items == [] then [] else Paths(path, items[0]) + PathsAll(path, items[1..])
  }

  // ---------------------------------------------------------------- the names a reader of the tree expects

  /** The names from the outermost scope inwards, each followed by a double colon. */
  function Spelled(path: seq<string>): string {
    if path == [] then "" else path[0] + "::" + Spelled(path[1..])
  }

  /** A token declared inside `path`. At the top level the generator writes a leading double colon. */
  function Spell(path: seq<string>, token: Token): Token {
    var name := (if path == [] then "::" else Spelled(path)) + token.name;
    match token
    case Call(_, result, args) => Call(name, result, args)
    case Event(_) => Event(name)
  }

  function SpellIf(path: seq<string>, token: Option<Token>): seq<Token> {
    if token.Some? then [Spell(path, token.value)] else []
  }

  /** The tokens declared in a tree, in order, under the names of the scopes around them. */
  function Declared(path: seq<string>, item: Item): seq<Token>
    decreases item
  {
    match item
    case Scope(name, items) => DeclaredAll(path + [name], items)
    case Block(token, items) => SpellIf(path, token) + DeclaredAll(path, items)
    case Single(token, _) => SpellIf(path, token)
  }

  function DeclaredAll(path: seq<string>, items: seq<Item>): seq<Token>
    decreases items
  {
    if items == [] then [] else Declared(path, items[0]) + DeclaredAll(path, items[1..])
  }

  lemma JoinOne(a: string)
    ensures Join([a]) == a
  {
  }

  lemma {:induction false} JoinAppend(p: seq<string>, q: seq<string>)
    requires p != [] && q != []
    ensures Join(p + q) == Join(p) + "::" + Join(q)
    decreases |q|
  {
    var k := |q| - 1;
    if k == 0 {
      assert p + q == p + [q[0]];
      assert (p + q)[..|p|] == p;
    } else {
      JoinAppend(p, q[..k]);
      assert (p + q)[..|p| + k] == p + q[..k];
      assert Join(p + q) == Join(p + q[..k]) + "::" + q[k];
    }
  }

  /** The generator's join and the spelled path agree. */
  lemma {:induction false} JoinSpells(path: seq<string>)
    requires path != []
    ensures Join(path) + "::" == Spelled(path)
  {
    if |path| == 1 {
      assert path[1..] == [];
    } else {
      JoinSpells(path[1..]);
      JoinAppend([path[0]], path[1..]);
      assert path == [path[0]] + path[1..];
      assert path[0] + "::" + Join(path[1..]) + "::" == path[0] + "::" + (Join(path[1..]) + "::");
    }
  }

  lemma QualifySpells(path: seq<string>, token: Token)
    ensures Qualify(path, token) == Spell(path, token)
  {
    if path != [] { JoinSpells(path); }
  }

  lemma RegisteredSpells(line: Line, path: seq<string>)
    requires line.Other?
    ensures RegisteredBy(line, path) == SpellIf(path, line.token)
  {
    if line.token.Some? { QualifySpells(path, line.token.value); }
  }

  /** Registering each line under the scopes around it gives the declared tokens. */
  lemma {:induction false} PathsDeclare(path: seq<string>, item: Item)
    ensures Registered(Render(item), Paths(path, item)) == Declared(path, item)
    decreases item, 0
  {
    match item {
      case Scope(name, items) =>
        PathsDeclareAll(path + [name], items);
        BracketedRegister(Open(name), RenderAll(items), path + [name], PathsAll(path + [name], items), path);
      case Block(token, items) =>
        PathsDeclareAll(path, items);
        BracketedRegister(Other(1, 0, token), RenderAll(items), path, PathsAll(path, items), path);
        RegisteredSpells(Other(1, 0, token), path);
      case Single(token, k) =>
        OneRegistered(Other(k, k, token), path);
        RegisteredSpells(Other(k, k, token), path);
    }
  }

  lemma {:induction false} PathsDeclareAll(path: seq<string>, items: seq<Item>)
    ensures Registered(RenderAll(items), PathsAll(path, items)) == DeclaredAll(path, items)
    decreases items, 0
  {
    if items != [] {
      PathsDeclare(path, items[0]);
      PathsDeclareAll(path, items[1..]);
      RegisteredAppend(Render(items[0]), RenderAll(items[1..]), Paths(path, items[0]), PathsAll(path, items[1..]));
    }
  }

  lemma BracketedRegister(first: Line, body: seq<Line>, p0: seq<string>, inner: seq<seq<string>>, p1: seq<string>)
    requires |body| == |inner|
    ensures Registered([first] + body + [CLOSE], [p0] + inner + [p1]) == RegisteredBy(first, p0) + Registered(body, inner)
  {
    RegisteredAppend([first] + body, [CLOSE], [p0] + inner, [p1]);
    RegisteredAppend([first], body, [p0], inner);
    OneRegistered(first, p0);
    OneRegistered(CLOSE, p1);
  }

  predicate Contains(item: Item, name: string)
    decreases item
  {
    match item
    case Scope(n, items) => n == name || ContainsAny(items, name)
    case Block(_, items) => ContainsAny(items, name)
    case _ => false
  }

  predicate ContainsAny(items: seq<Item>, name: string)
    decreases items
  {
    items != [] && (Contains(items[0], name) || ContainsAny(items[1..], name))
  }

  /** No scope contains a scope of its own name, and names are not empty. */
  predicate NoRepeat(item: Item)
    decreases item
  {
    match item
    case Scope(n, items) => n != "" && !ContainsAny(items, n) && NoRepeats(items)
    case Block(_, items) => NoRepeats(items)
    case _ => true
  }

  predicate NoRepeats(items: seq<Item>)
    decreases items
  {
    items == [] || (NoRepeat(items[0]) && NoRepeats(items[1..]))
  }

  predicate NamesNonempty(item: Item)
    decreases item
  {
    match item
    case Scope(n, items) => n != "" && AllNamesNonempty(items)
    case Block(_, items) => AllNamesNonempty(items)
    case _ => true
  }

  predicate AllNamesNonempty(items: seq<Item>)
    decreases items
  {
    items == [] || (NamesNonempty(items[0]) && AllNamesNonempty(items[1..]))
  }

  // ---------------------------------------------------------------- distinct names are enough

  /** The scan stands inside `path`, and every scope of the path is open. */
  predicate Good(s: State, path: seq<string>) {
    && s.prefix == path
    && (path != [] ==> s.scope == path[|path| - 1])
    && (s.scope != "" ==> s.scope in s.oc)
    && (forall n :: n in path ==> n != "" && n in s.oc && s.oc[n] >= 1)
  }

  predicate SameCounts(s: State, t: State, path: seq<string>) {
    forall n :: n in path ==> n in s.oc && n in t.oc && t.oc[n] == s.oc[n]
  }

  lemma {:induction false} ScanItem(s: State, path: seq<string>, item: Item)
    requires Good(s, path) && NoRepeat(item) && forall n :: n in path ==> !Contains(item, n)
    ensures Trace(s, Render(item)) == Paths(path, item)
    ensures Good(After(s, Render(item)), path) && SameCounts(s, After(s, Render(item)), path)
    decreases item
  {
    match item {
      case Scope(name, items) => ScanScope(s, path, name, items);
      case Block(token, items) =>
        var open := Other(1, 0, token);
        ScanItems(Step(s, open), path, items);
        Bracketed(s, open, items);
      case Single(token, k) => OneLine(s, Other(k, k, token));
    }
  }

  lemma {:induction false} ScanScope(s: State, path: seq<string>, name: string, items: seq<Item>)
    requires Good(s, path) && name !in path && name != "" && !ContainsAny(items, name) && NoRepeats(items)
    requires forall n :: n in path ==> !ContainsAny(items, n)
    ensures var lines := Render(Scope(name, items));
            && Trace(s, lines) == Paths(path, Scope(name, items))
            && Good(After(s, lines), path) && SameCounts(s, After(s, lines), path)
    decreases items, 1
  {
    var s1 := Step(s, Open(name));
    OpenScope(s, path, name);
    ScanItems(s1, path + [name], items);
    var s2 := After(s1, RenderAll(items));
    assert name in path + [name];
    CloseScope(s2, path, name);
    Bracketed(s, Open(name), items);
    assert forall n :: n in path ==> n in path + [name];
  }

  lemma OpenScope(s: State, path: seq<string>, name: string)
    requires Good(s, path) && name !in path && name != ""
    ensures var s1 := Step(s, Open(name));
            Good(s1, path + [name]) && s1.oc[name] == 1 && SameCounts(s, s1, path)
  {
    assert (path + [name])[|path|] == name;
  }

  lemma CloseScope(s: State, path: seq<string>, name: string)
    requires Good(s, path + [name]) && name !in path && name in s.oc && s.oc[name] == 1
    ensures var t := Step(s, CLOSE); Good(t, path) && SameCounts(s, t, path)
  {
    assert (path + [name])[..|path|] == path && (path + [name])[|path|] == name;
    assert name in path + [name];
    assert forall n :: n in path ==> n in path + [name];
  }

  lemma Bracketed(s: State, first: Line, items: seq<Item>)
    ensures var s1 := Step(s, first); var s2 := After(s1, RenderAll(items));
            var lines := [first] + RenderAll(items) + [CLOSE];
            && After(s, lines) == Step(s2, CLOSE)
            && Trace(s, lines) == [s1.prefix] + Trace(s1, RenderAll(items)) + [Step(s2, CLOSE).prefix]
  {
    OneLine(s, first);
    TraceAppend(s, [first], RenderAll(items));
    TraceAppend(s, [first] + RenderAll(items), [CLOSE]);
    OneLine(After(Step(s, first), RenderAll(items)), CLOSE);
  }

  lemma {:induction false} ScanItems(s: State, path: seq<string>, items: seq<Item>)
    requires Good(s, path) && NoRepeats(items) && forall n :: n in path ==> !ContainsAny(items, n)
    ensures Trace(s, RenderAll(items)) == PathsAll(path, items)
    ensures Good(After(s, RenderAll(items)), path) && SameCounts(s, After(s, RenderAll(items)), path)
    decreases items, 0
  {
    if items != [] {
      ScanItem(s, path, items[0]);
      ScanItems(After(s, Render(items[0])), path, items[1..]);
      TraceAppend(s, Render(items[0]), RenderAll(items[1..]));
    }
  }

  /** If no scope repeats a name along its path, the scan registers exactly the declared functions and events,
      in order, each under the names of its enclosing scopes from the outermost inwards. */
  lemma NamesAreEnclosingScopes(items: seq<Item>)
    requires NoRepeats(items)
    ensures Registered(RenderAll(items), Trace(START, RenderAll(items))) == DeclaredAll([], items)
  {
    ScanItems(START, [], items);
    PathsDeclareAll([], items);
  }

  /** So the lists getTokenSymbols returns are those of the declarations. */
  lemma SymbolsOfTree(items: seq<Item>)
    requires NoRepeats(items)
    ensures IsSymbols(Collect(Registered(RenderAll(items), Trace(START, RenderAll(items)))), DeclaredAll([], items))
  {
    NamesAreEnclosingScopes(items);
    CollectIsSymbols(DeclaredAll([], items));
  }

  // ---------------------------------------------------------------- and they are needed

  /** True of every state of the scan inside a scope. */
  predicate Tracks(s: State, path: seq<string>) {
    && s.prefix == path && path != []
    && s.scope == path[|path| - 1]
    && forall n :: n in path ==> n != "" && n in s.oc
  }

  /** Once a nested scope of the same name has closed, the count of `name` never recovers. */
  predicate Spent(s: State, t: State, name: string, nested: bool) {
    name in s.oc && name in t.oc && (t.oc[name] <= 0 || (!nested && t.oc[name] == s.oc[name]))
  }

  lemma StepTracks(s: State, path: seq<string>, line: Line)
    requires Tracks(s, path) && line.Other? && Step(s, line).prefix == path
    ensures Tracks(Step(s, line), path)
    ensures Step(s, line).oc == s.oc[s.scope := s.oc[s.scope] + line.opens - line.closes]
  {
  }

  /** A closing line that returns to the enclosing path found the count at zero. */
  lemma CloseTracks(s: State, path: seq<string>, name: string)
    requires Tracks(s, path + [name]) && Step(s, CLOSE).prefix == path
    ensures Step(s, CLOSE).oc == s.oc[name := 0] && s.oc[name] == 1
    ensures path != [] ==> Tracks(Step(s, CLOSE), path)
  {
    assert path + [name] != path;
    assert s.scope == name;
    assert name in path + [name];
    assert (path + [name])[..|path|] == path;
    assert forall n :: n in path ==> n in path + [name];
  }

  lemma TraceParts(s: State, first: Line, items: seq<Item>, p0: seq<string>, inner: seq<seq<string>>, p1: seq<string>)
    requires |inner| == |RenderAll(items)|
    requires Trace(s, [first] + RenderAll(items) + [CLOSE]) == [p0] + inner + [p1]
    ensures var s1 := Step(s, first); var s2 := After(s1, RenderAll(items));
            && s1.prefix == p0 && Trace(s1, RenderAll(items)) == inner && Step(s2, CLOSE).prefix == p1
            && After(s, [first] + RenderAll(items) + [CLOSE]) == Step(s2, CLOSE)
  {
    Bracketed(s, first, items);
    var s1 := Step(s, first);
    var s2 := After(s1, RenderAll(items));
    var t := [p0] + inner + [p1];
    assert t == [s1.prefix] + Trace(s1, RenderAll(items)) + [Step(s2, CLOSE).prefix];
    assert t[0] == p0 == s1.prefix;
    assert t[1..1 + |inner|] == inner == Trace(s1, RenderAll(items));
    assert t[1 + |inner|] == p1 == Step(s2, CLOSE).prefix;
  }

  lemma {:induction false} CountSpent(s: State, path: seq<string>, item: Item, name: string)
    requires Tracks(s, path) && name in path && NamesNonempty(item)
    requires Trace(s, Render(item)) == Paths(path, item)
    ensures Tracks(After(s, Render(item)), path)
    ensures Spent(s, After(s, Render(item)), name, Contains(item, name))
    decreases item
  {
    match item {
      case Scope(n, items) =>
        TraceParts(s, Open(n), items, path + [n], PathsAll(path + [n], items), path);
        var s1 := Step(s, Open(n));
        assert Tracks(s1, path + [n]) by { assert (path + [n])[|path|] == n; }
        var s2 := After(s1, RenderAll(items));
        CountsSpent(s1, path + [n], items, name);
        CloseTracks(s2, path, n);
      case Block(token, items) =>
        TraceParts(s, Other(1, 0, token), items, path, PathsAll(path, items), path);
        var s1 := Step(s, Other(1, 0, token));
        StepTracks(s, path, Other(1, 0, token));
        CountsSpent(s1, path, items, name);
        StepTracks(After(s1, RenderAll(items)), path, CLOSE);
      case Single(token, k) =>
        OneLine(s, Other(k, k, token));
        assert Trace(s, Render(item))[0] == path;
        StepTracks(s, path, Other(k, k, token));
    }
  }

  lemma TraceSplit(s: State, path: seq<string>, items: seq<Item>)
    requires items != [] && Trace(s, RenderAll(items)) == PathsAll(path, items)
    ensures Trace(s, Render(items[0])) == Paths(path, items[0])
    ensures Trace(After(s, Render(items[0])), RenderAll(items[1..])) == PathsAll(path, items[1..])
    ensures After(s, RenderAll(items)) == After(After(s, Render(items[0])), RenderAll(items[1..]))
  {
    var a, b := Render(items[0]), RenderAll(items[1..]);
    TraceAppend(s, a, b);
    var t := Trace(s, a + b);
    assert t[..|a|] == Trace(s, a) && t[|a|..] == Trace(After(s, a), b);
    assert t[..|a|] == Paths(path, items[0]) && t[|a|..] == PathsAll(path, items[1..]);
  }

  lemma {:induction false} CountsSpent(s: State, path: seq<string>, items: seq<Item>, name: string)
    requires Tracks(s, path) && name in path && AllNamesNonempty(items)
    requires Trace(s, RenderAll(items)) == PathsAll(path, items)
    ensures Tracks(After(s, RenderAll(items)), path)
    ensures Spent(s, After(s, RenderAll(items)), name, ContainsAny(items, name))
    decreases items
  {
    if items != [] {
      TraceSplit(s, path, items);
      CountSpent(s, path, items[0], name);
      CountsSpent(After(s, Render(items[0])), path, items[1..], name);
    }
  }

  /** Following the tree at every line forces distinct names: a repeated name leaves the outer scope's
      count wrong at its own closing brace. */
  lemma {:induction false} RightTraceNoRepeat(s: State, path: seq<string>, item: Item)
    requires path != [] ==> Tracks(s, path)
    requires s.prefix == path && NamesNonempty(item) && Trace(s, Render(item)) == Paths(path, item)
    ensures NoRepeat(item)
    decreases item
  {
    match item {
      case Scope(n, items) =>
        TraceParts(s, Open(n), items, path + [n], PathsAll(path + [n], items), path);
        var s1 := Step(s, Open(n));
        assert Tracks(s1, path + [n]) by { assert (path + [n])[|path|] == n; }
        assert n in path + [n];
        CountsSpent(s1, path + [n], items, n);
        CloseTracks(After(s1, RenderAll(items)), path, n);
        RightTracesNoRepeat(s1, path + [n], items);
      case Block(token, items) =>
        TraceParts(s, Other(1, 0, token), items, path, PathsAll(path, items), path);
        var s1 := Step(s, Other(1, 0, token));
        if path != [] { StepTracks(s, path, Other(1, 0, token)); }
        RightTracesNoRepeat(s1, path, items);
      case Single(_, _) =>
    }
  }

  lemma {:induction false} AfterTracks(s: State, path: seq<string>, item: Item)
    requires path != [] ==> Tracks(s, path)
    requires s.prefix == path && NamesNonempty(item) && Trace(s, Render(item)) == Paths(path, item)
    ensures After(s, Render(item)).prefix == path
    ensures path != [] ==> Tracks(After(s, Render(item)), path)
  {
    if path != [] {
      CountSpent(s, path, item, path[0]);
    } else {
      LastPrefix(s, Render(item));
      assert Paths(path, item)[|Render(item)| - 1] == path;
    }
  }

  lemma {:induction false} LastPrefix(s: State, lines: seq<Line>)
    requires lines != []
    ensures Trace(s, lines)[|lines| - 1] == After(s, lines).prefix
    decreases |lines|
  {
    if |lines| == 1 {
      OneLine(s, lines[0]);
      assert lines == [lines[0]];
    } else {
      LastPrefix(Step(s, lines[0]), lines[1..]);
    }
  }

  lemma {:induction false} RightTracesNoRepeat(s: State, path: seq<string>, items: seq<Item>)
    requires path != [] ==> Tracks(s, path)
    requires s.prefix == path && AllNamesNonempty(items) && Trace(s, RenderAll(items)) == PathsAll(path, items)
    ensures NoRepeats(items)
    decreases items
  {
    if items != [] {
      TraceSplit(s, path, items);
      RightTraceNoRepeat(s, path, items[0]);
      AfterTracks(s, path, items[0]);
      RightTracesNoRepeat(After(s, Render(items[0])), path, items[1..]);
    }
  }

  /** The flat scan knows the enclosing scopes after every line if and only if no scope contains another
      of the same name. */
  lemma ScanFollowsTreeIff(items: seq<Item>)
    requires AllNamesNonempty(items)
    ensures Trace(START, RenderAll(items)) == PathsAll([], items) <==> NoRepeats(items)
  {
    if NoRepeats(items) { ScanItems(START, [], items); }
    if Trace(START, RenderAll(items)) == PathsAll([], items) { RightTracesNoRepeat(START, [], items); }
  }

  // ---------------------------------------------------------------- the names alone

  /** Each scope is followed by a line that registers a token, as when declarations follow every scope. */
  predicate Dense(item: Item)
    decreases item
  {
    match item
    case Scope(_, items) => AllDense(items)
    case Block(_, items) => AllDense(items)
    case _ => true
  }

  predicate AllDense(items: seq<Item>)
    decreases items
  {
    items == [] ||
    (Dense(items[0]) && AllDense(items[1..])
     && (items[0].Scope? ==> |items| > 1 && items[1].Single? && items[1].token.Some?))
  }

  predicate SameNames(lines: seq<Line>, p: seq<seq<string>>, q: seq<seq<string>>)
    requires |lines| == |p| == |q|
  {
    Registered(lines, p) == Registered(lines, q)
  }

  lemma {:induction false} RegisteredLength(lines: seq<Line>, p: seq<seq<string>>, q: seq<seq<string>>)
    requires |lines| == |p| == |q|
    ensures |Registered(lines, p)| == |Registered(lines, q)|
  {
    if lines != [] {
      RegisteredLength(lines[1..], p[1..], q[1..]);
    }
  }

  lemma SameNamesSplit(a: seq<Line>, b: seq<Line>, p: seq<seq<string>>, p': seq<seq<string>>,
                       q: seq<seq<string>>, q': seq<seq<string>>)
    requires |a| == |p| == |q| && |b| == |p'| == |q'| && SameNames(a + b, p + p', q + q')
    ensures SameNames(a, p, q) && SameNames(b, p', q')
  {
    RegisteredAppend(a, b, p, p');
    RegisteredAppend(a, b, q, q');
    RegisteredLength(a, p, q);
    SplitEqual(Registered(a, p), Registered(b, p'), Registered(a, q), Registered(b, q'));
  }

  /** The inner lines of a bracketed item register the same names too. */
  lemma SameNamesInner(s: State, first: Line, items: seq<Item>, p0: seq<string>, inner: seq<seq<string>>, p1: seq<string>)
    requires |inner| == |RenderAll(items)|
    requires var lines := [first] + RenderAll(items) + [CLOSE]; SameNames(lines, Trace(s, lines), [p0] + inner + [p1])
    ensures SameNames(RenderAll(items), Trace(Step(s, first), RenderAll(items)), inner)
  {
    Bracketed(s, first, items);
    var s1 := Step(s, first);
    var s2 := After(s1, RenderAll(items));
    var body, t := RenderAll(items), Trace(s1, RenderAll(items));
    SameNamesSplit([first] + body, [CLOSE], [s1.prefix] + t, [Step(s2, CLOSE).prefix], [p0] + inner, [p1]);
    SameNamesSplit([first], body, [s1.prefix], t, [p0], inner);
  }

  /** The scan stands inside `path`; counts of scopes on the path may have dropped to zero. */
  predicate Level(s: State, path: seq<string>) {
    && s.prefix == path
    && (path != [] ==> s.scope == path[|path| - 1])
    && (forall n :: n in path ==> n != "" && n in s.oc && s.oc[n] >= 0)
  }

  /** In addition the innermost scope is counted as open. */
  predicate Firm(s: State, path: seq<string>) {
    Level(s, path) && (path != [] ==> s.oc[path[|path| - 1]] >= 1)
  }

  /** The counts on the path after an item, or after items: zero for the names that occur in them. */
  predicate Dropped(s: State, t: State, path: seq<string>, item: Item) {
    forall n :: n in path ==> n in s.oc && n in t.oc && t.oc[n] == if Contains(item, n) then 0 else s.oc[n]
  }

  predicate AllDropped(s: State, t: State, path: seq<string>, items: seq<Item>) {
    forall n :: n in path ==> n in s.oc && n in t.oc && t.oc[n] == if ContainsAny(items, n) then 0 else s.oc[n]
  }

  lemma DropBoth(s: State, s1: State, t: State, path: seq<string>, items: seq<Item>)
    requires items != [] && Dropped(s, s1, path, items[0]) && AllDropped(s1, t, path, items[1..])
    ensures AllDropped(s, t, path, items)
  {
  }

  lemma ShorterName(path: seq<string>, name: string)
    requires path != [] && path[|path| - 1] != ""
    ensures Qualified(path[..|path| - 1], name) != Qualified(path, name)
  {
    assert |Qualified(path, name)| > |Qualified(path[..|path| - 1], name)|;
  }

  /** A line that registers the right name proves its scope open. */
  lemma NameProvesFirm(s: State, path: seq<string>, token: Token, k: nat)
    requires Level(s, path)
    requires Qualify(Step(s, Other(k, k, Some(token))).prefix, token) == Qualify(path, token)
    ensures Firm(s, path)
  {
    if path != [] {
      var last := path[|path| - 1];
      assert last in path;
      if s.oc[last] == 0 {
        assert Step(s, Other(k, k, Some(token))).prefix == path[..|path| - 1];
        ShorterName(path, token.name);
      }
    }
  }

  lemma SingleKeeps(s: State, path: seq<string>, token: Option<Token>, k: nat)
    requires Firm(s, path)
    ensures var t := Step(s, Other(k, k, token)); Firm(t, path) && Dropped(s, t, path, Single(token, k))
  {
    if path != [] { assert path[|path| - 1] in path; }
  }

  lemma OpenBlockKeeps(s: State, path: seq<string>, token: Option<Token>)
    requires Firm(s, path)
    ensures var t := Step(s, Other(1, 0, token));
            && Firm(t, path)
            && (forall n :: n in path ==> n in s.oc && n in t.oc)
            && (forall n :: n in path ==> t.oc[n] == s.oc[n] + if n == path[|path| - 1] then 1 else 0)
  {
    if path != [] { assert path[|path| - 1] in path; }
  }

  lemma CloseBlockKeeps(s: State, path: seq<string>)
    requires Firm(s, path) && (path != [] ==> s.oc[path[|path| - 1]] >= 2)
    ensures var t := Step(s, CLOSE);
            && Firm(t, path)
            && (forall n :: n in path ==> n in s.oc && n in t.oc)
            && (forall n :: n in path ==> t.oc[n] == s.oc[n] - if n == path[|path| - 1] then 1 else 0)
  {
    if path != [] { assert path[|path| - 1] in path; }
  }

  lemma OpenScopeFirm(s: State, path: seq<string>, name: string)
    requires Firm(s, path) && name != ""
    ensures var t := Step(s, Open(name));
            Firm(t, path + [name]) && t.oc == s.oc[name := 1]
  {
    assert (path + [name])[|path|] == name;
  }

  lemma CloseScopeLevel(s: State, path: seq<string>, name: string)
    requires Firm(s, path + [name]) && s.oc[name] == 1
    ensures var t := Step(s, CLOSE); Level(t, path) && t.oc == s.oc[name := 0]
  {
    assert (path + [name])[..|path|] == path && (path + [name])[|path|] == name;
    assert forall n :: n in path ==> n in path + [name];
  }

  lemma {:induction false} DenseScope(s: State, path: seq<string>, name: string, items: seq<Item>)
    requires Firm(s, path) && name != "" && AllNamesNonempty(items) && AllDense(items)
    requires var item := Scope(name, items); SameNames(Render(item), Trace(s, Render(item)), Paths(path, item))
    ensures var item := Scope(name, items); var t := After(s, Render(item));
            NoRepeat(item) && Level(t, path) && Dropped(s, t, path, item)
    decreases items, 1
  {
    var item := Scope(name, items);
    SameNamesInner(s, Open(name), items, path + [name], PathsAll(path + [name], items), path);
    OpenScopeFirm(s, path, name);
    var s1 := Step(s, Open(name));
    DenseItems(s1, path + [name], items);
    var s2 := After(s1, RenderAll(items));
    assert (path + [name])[|path|] == name && name in path + [name];
    assert s2.oc[name] == 1 && !ContainsAny(items, name);
    CloseScopeLevel(s2, path, name);
    Bracketed(s, Open(name), items);
    forall n | n in path ensures Step(s2, CLOSE).oc[n] == if Contains(item, n) then 0 else s.oc[n] {
      assert n in path + [name];
    }
  }

  lemma {:induction false} DenseBlock(s: State, path: seq<string>, token: Option<Token>, items: seq<Item>)
    requires Firm(s, path) && AllNamesNonempty(items) && AllDense(items)
    requires var item := Block(token, items); SameNames(Render(item), Trace(s, Render(item)), Paths(path, item))
    ensures var item := Block(token, items); var t := After(s, Render(item));
            NoRepeat(item) && Firm(t, path) && Dropped(s, t, path, item)
    decreases items, 1
  {
    var item := Block(token, items);
    var open := Other(1, 0, token);
    SameNamesInner(s, open, items, path, PathsAll(path, items), path);
    OpenBlockKeeps(s, path, token);
    var s1 := Step(s, open);
    DenseItems(s1, path, items);
    var s2 := After(s1, RenderAll(items));
    if path != [] { assert path[|path| - 1] in path; }
    CloseBlockKeeps(s2, path);
    Bracketed(s, open, items);
  }

  lemma {:induction false} DenseItems(s: State, path: seq<string>, items: seq<Item>)
    requires Firm(s, path) && AllNamesNonempty(items) && AllDense(items)
    requires SameNames(RenderAll(items), Trace(s, RenderAll(items)), PathsAll(path, items))
    ensures var t := After(s, RenderAll(items));
            NoRepeats(items) && Firm(t, path) && AllDropped(s, t, path, items)
    decreases items, 0
  {
    if items != [] {
      var item, rest := items[0], items[1..];
      var s1 := After(s, Render(item));
      TraceAppend(s, Render(item), RenderAll(rest));
      SameNamesSplit(Render(item), RenderAll(rest), Trace(s, Render(item)), Trace(s1, RenderAll(rest)),
                     Paths(path, item), PathsAll(path, rest));
      DenseItem(s, path, item);
      if item.Scope? { NextProvesFirm(s1, path, rest); }
      DenseItems(s1, path, rest);
      DropBoth(s, s1, After(s1, RenderAll(rest)), path, items);
    }
  }

  lemma {:induction false} DenseItem(s: State, path: seq<string>, item: Item)
    requires Firm(s, path) && NamesNonempty(item) && Dense(item)
    requires SameNames(Render(item), Trace(s, Render(item)), Paths(path, item))
    ensures var t := After(s, Render(item));
            NoRepeat(item) && Level(t, path) && (!item.Scope? ==> Firm(t, path)) && Dropped(s, t, path, item)
    decreases item, 2
  {
    match item {
      case Scope(name, body) => DenseScope(s, path, name, body);
      case Block(token, body) => DenseBlock(s, path, token, body);
      case Single(token, k) =>
        OneLine(s, Other(k, k, token));
        SingleKeeps(s, path, token, k);
    }
  }

  lemma NextProvesFirm(s: State, path: seq<string>, rest: seq<Item>)
    requires Level(s, path) && rest != [] && rest[0].Single? && rest[0].token.Some?
    requires SameNames(RenderAll(rest), Trace(s, RenderAll(rest)), PathsAll(path, rest))
    ensures Firm(s, path)
  {
    var token, k := rest[0].token.value, rest[0].k;
    var line := Other(k, k, Some(token));
    var s1 := Step(s, line);
    TraceAppend(s, [line], RenderAll(rest[1..]));
    OneLine(s, line);
    assert Render(rest[0]) == [line] && Paths(path, rest[0]) == [path];
    SameNamesSplit([line], RenderAll(rest[1..]), [s1.prefix], Trace(s1, RenderAll(rest[1..])), [path], PathsAll(path, rest[1..]));
    OneRegistered(line, s1.prefix);
    OneRegistered(line, path);
    NameProvesFirm(s, path, token, k);
  }

  /** The scan registers the declared tokens under their right names. */
  predicate NamesRight(items: seq<Item>) {
    Registered(RenderAll(items), Trace(START, RenderAll(items))) == DeclaredAll([], items)
  }

  /** Where a registration follows every scope, right names rule repetitions out. */
  lemma DenseNamesRight(items: seq<Item>)
    requires AllNamesNonempty(items) && AllDense(items) && NamesRight(items)
    ensures NoRepeats(items)
  {
    PathsDeclareAll([], items);
    DenseItems(START, [], items);
  }

  predicate IsRegistration(item: Item) {
    item.Single? && item.token.Some?
  }

  /** `more` is `items` with lines that register tokens inserted anywhere. */
  predicate Inserts(items: seq<Item>, more: seq<Item>)
    decreases more, 0
  {
    if more == [] then items == []
    else
      || (IsRegistration(more[0]) && Inserts(items, more[1..]))
      || (items != [] && InsertsIn(items[0], more[0]) && Inserts(items[1..], more[1..]))
  }

  predicate InsertsIn(item: Item, more: Item)
    decreases more, 1
  {
    match more
    case Scope(name, items) => item.Scope? && item.name == name && Inserts(item.items, items)
    case Block(token, items) => item.Block? && item.token == token && Inserts(item.items, items)
    case Single(_, _) => item == more
  }

  /** Registrations contain no scope. */
  lemma {:induction false} InsertsKeepNames(items: seq<Item>, more: seq<Item>, name: string)
    requires Inserts(items, more)
    ensures ContainsAny(more, name) == ContainsAny(items, name)
    decreases more, 0
  {
    if more != [] {
      if IsRegistration(more[0]) && Inserts(items, more[1..]) {
        InsertsKeepNames(items, more[1..], name);
      } else {
        InsertsInKeepsNames(items[0], more[0], name);
        InsertsKeepNames(items[1..], more[1..], name);
      }
    }
  }

  lemma {:induction false} InsertsInKeepsNames(item: Item, more: Item, name: string)
    requires InsertsIn(item, more)
    ensures Contains(more, name) == Contains(item, name)
    decreases more, 1
  {
    if !more.Single? { InsertsKeepNames(item.items, more.items, name); }
  }

  lemma {:induction false} InsertsKeepRepeats(items: seq<Item>, more: seq<Item>)
    requires Inserts(items, more)
    ensures NoRepeats(more) == NoRepeats(items)
    decreases more, 0
  {
    if more != [] {
      if IsRegistration(more[0]) && Inserts(items, more[1..]) {
        InsertsKeepRepeats(items, more[1..]);
      } else {
        InsertsInKeepsRepeats(items[0], more[0]);
        InsertsKeepRepeats(items[1..], more[1..]);
      }
    }
  }

  lemma {:induction false} InsertsInKeepsRepeats(item: Item, more: Item)
    requires InsertsIn(item, more)
    ensures NoRepeat(more) == NoRepeat(item)
    decreases more, 1
  {
    if !more.Single? {
      InsertsKeepRepeats(item.items, more.items);
      if more.Scope? { InsertsKeepNames(item.items, more.items, item.name); }
    }
  }

  /** The tree with a registration after each scope. */
  function Probed(items: seq<Item>): seq<Item>
    decreases items, 0
  {
    if items == [] then []
    else if items[0].Scope? then [ProbedIn(items[0]), Single(Some(F), 0)] + Probed(items[1..])
    else [ProbedIn(items[0])] + Probed(items[1..])
  }

  function ProbedIn(item: Item): Item
    decreases item, 1
  {
    match item
    case Scope(name, items) => Scope(name, Probed(items))
    case Block(token, items) => Block(token, Probed(items))
    case _ => item
  }

  lemma {:induction false} ProbedInserts(items: seq<Item>)
    ensures Inserts(items, Probed(items)) && AllDense(Probed(items))
    ensures AllNamesNonempty(items) ==> AllNamesNonempty(Probed(items))
    decreases items, 0
  {
    if items != [] {
      var rest := Probed(items[1..]);
      var more := Probed(items);
      ProbedInInserts(items[0]);
      ProbedInserts(items[1..]);
      if items[0].Scope? {
        var tail := [Single(Some(F), 0)] + rest;
        assert more == [ProbedIn(items[0])] + tail;
        assert more[1..] == tail && tail[1..] == rest;
        assert Inserts(items[1..], tail);
        assert AllDense(tail);
      } else {
        assert more[1..] == rest;
      }
    }
  }

  lemma {:induction false} ProbedInInserts(item: Item)
    ensures InsertsIn(item, ProbedIn(item)) && Dense(ProbedIn(item))
    ensures NamesNonempty(item) ==> NamesNonempty(ProbedIn(item))
    decreases item, 1
  {
    if !item.Single? { ProbedInserts(item.items); }
  }

  /** Wherever registrations are inserted into a tree, each function and event gets its right name: if and
      only if no scope contains another of the same name. */
  lemma NamesRightIff(items: seq<Item>)
    requires AllNamesNonempty(items)
    ensures (forall more | Inserts(items, more) :: NamesRight(more)) <==> NoRepeats(items)
  {
    if NoRepeats(items) {
      forall more | Inserts(items, more) ensures NamesRight(more) {
        InsertsKeepRepeats(items, more);
        NamesAreEnclosingScopes(more);
      }
    } else {
      ProbedInserts(items);
      InsertsKeepRepeats(items, Probed(items));
      if NamesRight(Probed(items)) { DenseNamesRight(Probed(items)); }
    }
  }

  const F := Call("f", "void", [])

  /** The lines of namespace A { namespace A { } f } and the scopes around each. */
  lemma RepeatedNameTree() returns (items: seq<Item>)
    ensures items == [Scope("A", [Scope("A", []), Single(Some(F), 0)])]
    ensures RenderAll(items) == [Open("A"), Open("A"), CLOSE, Other(0, 0, Some(F)), CLOSE]
    ensures PathsAll([], items)[3] == ["A"]
  {
    var inner, f := Scope("A", []), Single(Some(F), 0);
    items := [Scope("A", [inner, f])];
    assert [inner, f][1..] == [f] && [f][1..] == [];
    assert Render(inner) == [Open("A")] + RenderAll([]) + [CLOSE] == [Open("A"), CLOSE];
    assert RenderAll([f]) == Render(f) + RenderAll([]);
    assert RenderAll(items) == Render(items[0]) + RenderAll([]);
    var path := [] + ["A"];
    assert PathsAll(path, [f]) == Paths(path, f) + PathsAll(path, []);
    assert Paths(path, inner) == [path + ["A"]] + PathsAll(path + ["A"], []) + [path];
    assert PathsAll(path, [inner, f]) == Paths(path, inner) + PathsAll(path, [f]);
    assert Paths([], items[0])[3] == path;
  }

  lemma RepeatedNameTrace(lines: seq<Line>)
    requires lines == [Open("A"), Open("A"), CLOSE, Other(0, 0, Some(F)), CLOSE]
    ensures Trace(START, lines)[3] == []
  {
    var s1, s2, s3, s4 := RepeatedNameStates();
    TraceStep(START, lines, s1);
    TraceStep(s1, lines[1..], s2);
    TraceStep(s2, lines[2..], s3);
    TraceStep(s3, lines[3..], s4);
  }

  lemma RepeatedNameStates() returns (s1: State, s2: State, s3: State, s4: State)
    ensures s1 == Step(START, Open("A")) && s2 == Step(s1, Open("A")) && s3 == Step(s2, CLOSE)
    ensures s4 == Step(s3, Other(0, 0, Some(F))) && s4.prefix == []
  {
    s1 := Step(START, Open("A"));
    s2 := Step(s1, Open("A"));
    s3 := Step(s2, CLOSE);
    assert s3.prefix == ["A"] && s3.oc["A"] == 0;
    s4 := Step(s3, Other(0, 0, Some(F)));
  }

  lemma TraceStep(s: State, lines: seq<Line>, next: State)
    requires lines != [] && next == Step(s, lines[0])
    ensures Trace(s, lines) == [next.prefix] + Trace(next, lines[1..])
  {
  }

  /** namespace A { namespace A { } f } registers ::f instead of A::f. */
  lemma RepeatedNameLosesScope()
    ensures exists items, k ::
      && 0 <= k < |RenderAll(items)| && RenderAll(items)[k] == Other(0, 0, Some(F))
      && Qualified(PathsAll([], items)[k], "f") == "A::f"
      && Qualified(Trace(START, RenderAll(items))[k], "f") == "::f"
  {
    var items := RepeatedNameTree();
    RepeatedNameTrace(RenderAll(items));
    assert RenderAll(items)[3] == Other(0, 0, Some(F));
  }
}
