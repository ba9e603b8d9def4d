/**
  The variable store: the VARIABLES table, the event log and the read-through
  cache in front of the table. Each statement sent to SQL may fail; the flags
  on the operations say which ones did. SELECTs are taken to succeed.
*/
module Database {
  import opened Sequences
  import opened Wire

  datatype Authority = Sys | User

  datatype Row = Row(value: string, descriptor: string)

  datatype LogOperation = VarCreate | VarUpdate | VarDelete | UsrCreate | UsrDelete | Network

  datatype Event = Event(username: string, operation: LogOperation, what: string)

  type Table = map<string, Row>

  datatype State = State(table: Table, log: seq<Event>, cache: map<string, string>)

  /**
    The calls of the Database interface. `logged` and `stored` say whether the
    INSERT into EVENTS and into VARIABLES succeeded, `removed` whether the
    DELETE did. Note stands for the events that other modules log.
  */
  datatype Op =
    | Read(name: string)
    | Write(auth: Authority, name: string, row: Row, logged: bool, stored: bool)
    | Delete(auth: Authority, name: string, user: string, removed: bool, logged: bool)
    | Invalidate
    | Note(event: Event)

  const SYSTEM := "System"

  /** ReadVariable: a missing variable and an empty one look the same. */
  function Lookup(table: Table, name: string): string {
    if name in table then table[name].value else ""
  }

  function Text(name: string, value: string): string {
    name + "=" + value
  }

  // ---------------------------------------------------------------------
  // The table and its log, without a cache
  // ---------------------------------------------------------------------

  function Recorded(log: seq<Event>, ok: bool, event: Event): seq<Event> {
    if ok then log + [event] else log
  }

  function WriteEvent(table: Table, name: string, value: string): Event {
    Event(SYSTEM, if Lookup(table, name) == "" then VarCreate else VarUpdate, Text(name, value))
  }

  function DeleteEvent(op: Op): Event
    requires op.Delete?
  {
    Event(if op.auth == User then op.user else SYSTEM, VarDelete, op.name)
  }

  function TableAfter(table: Table, op: Op): Table {
    match op
    case Write(_, name, row, _, stored) => if stored then table[name := row] else table
    case Delete(_, name, _, removed, _) =>
      if removed && Lookup(table, name) != "" then table - {name} else table
    case _ => table
  }

  function LogAfter(table: Table, log: seq<Event>, op: Op): seq<Event> {
    match op
    case Write(auth, name, row, logged, _) =>
      Recorded(log, logged && auth == User, WriteEvent(table, name, row.value))
    case Delete(_, name, _, removed, logged) =>
      Recorded(log, removed && logged && Lookup(table, name) != "", DeleteEvent(op))
    case Note(event) => log + [event]
    case _ => log
  }

  // ---------------------------------------------------------------------
  // The store with its cache
  // ---------------------------------------------------------------------

  function CacheAfter(table: Table, cache: map<string, string>, op: Op): map<string, string> {
    match op
    case Read(name) =>
      if name in cache || Lookup(table, name) == "" then cache else cache[name := Lookup(table, name)]
    case Write(_, name, _, _, _) => cache - {name}
    case Delete(_, name, _, _, _) => cache - {name}
    case Invalidate => map[]
    case Note(_) => cache
  }

  function After(s: State, op: Op): State {
    State(TableAfter(s.table, op), LogAfter(s.table, s.log, op), CacheAfter(s.table, s.cache, op))
  }

  function Answer(table: Table, cache: map<string, string>, name: string): string {
    if name in cache then cache[name] else Lookup(table, name)
  }

  function RunFrom(s: State, ops: seq<Op>): State
    decreases |ops|
  {
    if ops == [] then s else RunFrom(After(s, ops[0]), ops[1..])
  }

  /** What the reads of a run return, in order. */
  function Answers(s: State, ops: seq<Op>): seq<string>
    decreases |ops|
  {
    if ops == [] then []
    else (if ops[0].Read? then [Answer(s.table, s.cache, ops[0].name)] else []) + Answers(After(s, ops[0]), ops[1..])
  }

  /** The same run with every read going to the table. */
  function PlainAnswers(table: Table, ops: seq<Op>): seq<string>
    decreases |ops|
  {
    if ops == [] then []
    else (if ops[0].Read? then [Lookup(table, ops[0].name)] else []) + PlainAnswers(TableAfter(table, ops[0]), ops[1..])
  }

  const EMPTY := State(map[], [], map[])

  // ---------------------------------------------------------------------
  // Cache transparency
  // ---------------------------------------------------------------------

  /** No cached value is stale. */
  ghost predicate Coherent(table: Table, cache: map<string, string>) {
    forall name <- cache :: cache[name] == Lookup(table, name)
  }

  lemma CoherentAfter(s: State, op: Op)
    requires Coherent(s.table, s.cache)
    ensures Coherent(After(s, op).table, After(s, op).cache)
    ensures op.Read? ==> Answer(s.table, s.cache, op.name) == Lookup(s.table, op.name)
  {
    var t := After(s, op);
    forall name <- t.cache ensures t.cache[name] == Lookup(t.table, name) {
      if name in s.cache { assert s.cache[name] == Lookup(s.table, name); }
    }
  }

  lemma {:induction false} CoherentRun(s: State, ops: seq<Op>)
    requires Coherent(s.table, s.cache)
    ensures Answers(s, ops) == PlainAnswers(s.table, ops)
    ensures Coherent(RunFrom(s, ops).table, RunFrom(s, ops).cache)
    decreases |ops|
  {
    if ops != [] {
      CoherentAfter(s, ops[0]);
      CoherentRun(After(s, ops[0]), ops[1..]);
    }
  }

  /**
    The cache cannot be observed by any sequence of calls exactly when no
    entry is stale to begin with, as after a start or an InvalidateCache.
  */
  lemma TransparentIff(s: State)
    ensures (forall ops :: Answers(s, ops) == PlainAnswers(s.table, ops)) <==> Coherent(s.table, s.cache)
  {
    if Coherent(s.table, s.cache) {
      forall ops ensures Answers(s, ops) == PlainAnswers(s.table, ops) {
        CoherentRun(s, ops);
      }
    } else {
      var name :| name in s.cache && s.cache[name] != Lookup(s.table, name);
      OneRead(s, name);
      assert Answers(s, [Read(name)]) != PlainAnswers(s.table, [Read(name)]);
    }
  }

  lemma OneRead(s: State, name: string)
    ensures Answers(s, [Read(name)]) == [Answer(s.table, s.cache, name)]
    ensures PlainAnswers(s.table, [Read(name)]) == [Lookup(s.table, name)]
  {
    assert [Read(name)][1..] == [];
  }

  /** Whatever happened to the table behind its back, the cache is coherent after InvalidateCache. */
  lemma InvalidateRestores(s: State, ops: seq<Op>)
    ensures Answers(After(s, Invalidate), ops) == PlainAnswers(s.table, ops)
  {
    CoherentRun(After(s, Invalidate), ops);
  }

  /** A missing or empty variable is never cached, so the cache holds only values of the table. */
  lemma {:induction false} CacheHoldsOnlyValues(s: State, ops: seq<Op>)
    requires forall name <- s.cache :: s.cache[name] != ""
    ensures forall name <- RunFrom(s, ops).cache :: RunFrom(s, ops).cache[name] != ""
    decreases |ops|
  {
    if ops != [] {
      CacheHoldsOnlyValues(After(s, ops[0]), ops[1..]);
    }
  }

  // ---------------------------------------------------------------------
  // What is stored and what is read
  // ---------------------------------------------------------------------

  /**
    The row of the variable `name` after some calls, by the calls alone: that of
    the last write that was stored, unless a later delete removed it. Only a row
    with a value is ever deleted.
  */
  function LastRow(first: Option<Row>, ops: seq<Op>, name: string): Option<Row> {
    if ops == [] then first
    else
      var before := LastRow(first, ops[..|ops| - 1], name);
      match ops[|ops| - 1]
      case Write(_, n, row, _, true) => if n == name then Some(row) else before
      case Delete(_, n, _, true, _) =>
        if n == name && before.Some? && before.value.value != "" then None else before
      case _ => before
  }

  function RowOf(table: Table, name: string): Option<Row> {
    if name in table then Some(table[name]) else None
  }

  lemma {:induction false} RunPush(s: State, ops: seq<Op>, op: Op)
    ensures RunFrom(s, ops + [op]) == After(RunFrom(s, ops), op)
    ensures Answers(s, ops + [op])
            == Answers(s, ops) + if op.Read? then [Answer(RunFrom(s, ops).table, RunFrom(s, ops).cache, op.name)] else []
    decreases |ops|
  {
    if ops == [] {
      assert [op][1..] == [] && ops + [op] == [op];
      assert RunFrom(s, [op]) == RunFrom(After(s, op), []);
      assert Answers(After(s, op), []) == [];
    } else {
      assert (ops + [op])[1..] == ops[1..] + [op];
      RunPush(After(s, ops[0]), ops[1..], op);
      var head := if ops[0].Read? then [Answer(s.table, s.cache, ops[0].name)] else [];
      var last := RunFrom(s, ops);
      Associative(head, Answers(After(s, ops[0]), ops[1..]), if op.Read? then [Answer(last.table, last.cache, op.name)] else []);
    }
  }

  /** The table holds exactly the last rows. */
  lemma {:induction false} TableHoldsLastRows(s: State, ops: seq<Op>, name: string)
    ensures RowOf(RunFrom(s, ops).table, name) == LastRow(RowOf(s.table, name), ops, name)
    decreases |ops|
  {
    if ops != [] {
      var k := |ops| - 1;
      assert ops == ops[..k] + [ops[k]];
      TableHoldsLastRows(s, ops[..k], name);
      RunPush(s, ops[..k], ops[k]);
    }
  }

  /** What a read should give: the value of the last row, or the empty text. */
  function LastValue(first: Option<Row>, ops: seq<Op>, name: string): string {
    match LastRow(first, ops, name)
    case Some(row) => row.value
    case None => ""
  }

  /** Every read, through the cache or not, gives the value of the last write that was stored and not deleted. */
  lemma ReadsGiveLastValue(s: State, ops: seq<Op>, name: string)
    requires Coherent(s.table, s.cache)
    ensures Answers(s, ops + [Read(name)]) == Answers(s, ops) + [LastValue(RowOf(s.table, name), ops, name)]
  {
    CoherentRun(s, ops);
    RunPush(s, ops, Read(name));
    TableHoldsLastRows(s, ops, name);
    var t := RunFrom(s, ops);
    if name in t.cache { assert t.cache[name] == Lookup(t.table, name); }
  }

  predicate Touches(op: Op, name: string) {
    (op.Write? || op.Delete?) && op.name == name
  }

  lemma {:induction false} UntouchedKeeps(first: Option<Row>, ops: seq<Op>, more: seq<Op>, name: string)
    requires forall op <- more :: !Touches(op, name)
    ensures LastRow(first, ops + more, name) == LastRow(first, ops, name)
    decreases |more|
  {
    if more == [] {
      assert ops + more == ops;
    } else {
      var k := |more| - 1;
      assert (ops + more)[..|ops| + k] == ops + more[..k];
      UntouchedKeeps(first, ops, more[..k], name);
      assert more[k] in more;
    }
  }

  /** Read your writes: after a stored write and any calls that leave the variable alone, a read gives the
      value written; after a delete that succeeded, the empty text. */
  lemma ReadYourWrites(s: State, auth: Authority, name: string, row: Row, logged: bool, more: seq<Op>)
    requires Coherent(s.table, s.cache) && forall op <- more :: !Touches(op, name)
    ensures var ops := [Write(auth, name, row, logged, true)] + more;
            Answers(s, ops + [Read(name)]) == Answers(s, ops) + [row.value]
  {
    var ops := [Write(auth, name, row, logged, true)];
    UntouchedKeeps(RowOf(s.table, name), ops, more, name);
    ReadsGiveLastValue(s, ops + more, name);
    assert ops[..0] == [];
  }

  lemma ReadAfterDelete(s: State, auth: Authority, name: string, user: string, logged: bool, more: seq<Op>)
    requires Coherent(s.table, s.cache) && forall op <- more :: !Touches(op, name)
    ensures var ops := [Delete(auth, name, user, true, logged)] + more;
            Answers(s, ops + [Read(name)]) == Answers(s, ops) + [""]
  {
    var ops := [Delete(auth, name, user, true, logged)];
    UntouchedKeeps(RowOf(s.table, name), ops, more, name);
    ReadsGiveLastValue(s, ops + more, name);
    assert ops[..0] == [];
  }

  /** A read of a variable that has a value leaves it in the cache until it is touched or the cache emptied. */
  lemma {:induction false} ReadFillsCache(s: State, name: string, more: seq<Op>)
    requires LastValue(RowOf(s.table, name), [], name) != ""
    requires forall op <- more :: !Touches(op, name) && op != Invalidate
    ensures name in RunFrom(After(s, Read(name)), more).cache
    decreases |more|
  {
    if more != [] {
      var k := |more| - 1;
      assert more == more[..k] + [more[k]];
      assert more[k] in more;
      forall op <- more[..k] ensures !Touches(op, name) && op != Invalidate { assert op in more; }
      ReadFillsCache(s, name, more[..k]);
      RunPush(After(s, Read(name)), more[..k], more[k]);
    }
  }

  /** What a call adds to the log, given the row its variable had before it. */
  function Logs(before: Option<Row>, op: Op): seq<Event> {
    var empty := before.None? || before.value.value == "";
    match op
    case Write(User, name, row, true, _) =>
      [Event("System", if empty then VarCreate else VarUpdate, name + "=" + row.value)]
    case Delete(User, name, user, true, true) => if empty then [] else [Event(user, VarDelete, name)]
    case Delete(Sys, name, _, true, true) => if empty then [] else [Event("System", VarDelete, name)]
    case Note(event) => [event]
    case _ => []
  }

  function AllLogs(table: Table, ops: seq<Op>): seq<Event> {
    if ops == [] then []
    else
      var k := |ops| - 1;
      var name := if ops[k].Write? || ops[k].Delete? then ops[k].name else "";
      AllLogs(table, ops[..k]) + Logs(LastRow(RowOf(table, name), ops[..k], name), ops[k])
  }

  lemma LogsStep(table: Table, log: seq<Event>, op: Op)
    ensures var name := if op.Write? || op.Delete? then op.name else "";
            LogAfter(table, log, op) == log + Logs(RowOf(table, name), op)
  {
    assert log + [] == log;
  }

  /** The log of every run, failures and both authorities included, by the calls alone. */
  lemma {:induction false} LogIsExact(s: State, ops: seq<Op>)
    ensures RunFrom(s, ops).log == s.log + AllLogs(s.table, ops)
    decreases |ops|
  {
    if ops == [] {
      assert s.log + [] == s.log;
    } else {
      var k := |ops| - 1;
      var name := if ops[k].Write? || ops[k].Delete? then ops[k].name else "";
      assert ops == ops[..k] + [ops[k]];
      LogIsExact(s, ops[..k]);
      RunPush(s, ops[..k], ops[k]);
      TableHoldsLastRows(s, ops[..k], name);
      LogsStep(RunFrom(s, ops[..k]).table, RunFrom(s, ops[..k]).log, ops[k]);
      Associative(s.log, AllLogs(s.table, ops[..k]), Logs(RowOf(RunFrom(s, ops[..k]).table, name), ops[k]));
    }
  }

  // ---------------------------------------------------------------------
  // The log rebuilds the table
  // ---------------------------------------------------------------------

  type Values = map<string, string>

  function ValuesOf(table: Table): Values {
    map name <- table :: table[name].value
  }

  /** A reader of log texts: the name and the value of a written variable. */
  type Reader = string -> (string, string)

  function Replayed(read: Reader, values: Values, event: Event): Values {
    match event.operation
    case VarCreate | VarUpdate => var (name, value) := read(event.what); values[name := value]
    case VarDelete => values - {event.what}
    case _ => values
  }

  function Replay(read: Reader, log: seq<Event>): Values {
    if log == [] then map[] else Replayed(read, Replay(read, log[..|log| - 1]), log[|log| - 1])
  }

  /** Only user writes reach the log, and a write must not stop half way. */
  predicate Faithful(op: Op) {
    match op
    case Write(auth, _, _, logged, stored) => stored == (logged && auth == User)
    case Delete(_, _, _, removed, logged) => removed ==> logged
    case Note(event) => event.operation in {UsrCreate, UsrDelete, Network}
    case _ => true
  }

  ghost predicate FaithfulRun(names: set<string>, ops: seq<Op>) {
    forall op <- ops :: Faithful(op) && (op.Write? ==> op.name in names)
  }

  ghost predicate Reads(read: Reader, names: set<string>) {
    forall name, value :: name in names ==> read(Text(name, value)) == (name, value)
  }

  lemma ReplayPush(read: Reader, log: seq<Event>, event: Event)
    ensures Replay(read, log + [event]) == Replayed(read, Replay(read, log), event)
  {
    assert (log + [event])[..|log|] == log;
  }

  lemma ReplayWrite(read: Reader, table: Table, log: seq<Event>, name: string, row: Row)
    requires read(Text(name, row.value)) == (name, row.value)
    requires Replay(read, log) == ValuesOf(table)
    ensures Replay(read, log + [WriteEvent(table, name, row.value)]) == ValuesOf(table[name := row])
  {
    ReplayPush(read, log, WriteEvent(table, name, row.value));
    assert ValuesOf(table[name := row]) == ValuesOf(table)[name := row.value];
  }

  lemma ReplayDelete(read: Reader, table: Table, log: seq<Event>, op: Op)
    requires op.Delete?
    requires Replay(read, log) == ValuesOf(table)
    ensures Replay(read, log + [DeleteEvent(op)]) == ValuesOf(table - {op.name})
  {
    ReplayPush(read, log, DeleteEvent(op));
    assert ValuesOf(table - {op.name}) == ValuesOf(table) - {op.name};
  }

  lemma ReplayStep(read: Reader, names: set<string>, s: State, op: Op)
    requires Reads(read, names)
    requires Faithful(op) && (op.Write? ==> op.name in names)
    requires Replay(read, s.log) == ValuesOf(s.table)
    ensures Replay(read, After(s, op).log) == ValuesOf(After(s, op).table)
  {
    match op
    case Write(_, name, row, _, stored) =>
      if stored { ReplayWrite(read, s.table, s.log, name, row); }
    case Delete(_, name, _, removed, _) =>
      if removed && Lookup(s.table, name) != "" { ReplayDelete(read, s.table, s.log, op); }
    case Note(event) => ReplayPush(read, s.log, event);
    case _ =>
  }

  /** A reader that knows the written names rebuilds the table from the log. */
  lemma {:induction false} ReplayRun(read: Reader, names: set<string>, s: State, ops: seq<Op>)
    requires Reads(read, names) && FaithfulRun(names, ops)
    requires Replay(read, s.log) == ValuesOf(s.table)
    ensures Replay(read, RunFrom(s, ops).log) == ValuesOf(RunFrom(s, ops).table)
    decreases |ops|
  {
    if ops != [] {
      assert ops[0] in ops;
      ReplayStep(read, names, s, ops[0]);
      ReplayRun(read, names, After(s, ops[0]), ops[1..]);
    }
  }

  /** The split of a log text at its first equals sign. */
  function FirstSplit(text: string): (string, string) {
    if text == "" then ("", "")
    else if text[0] == '=' then ("", text[1..])
    else var (name, value) := FirstSplit(text[1..]); ([text[0]] + name, value)
  }

  lemma {:induction false} FirstSplitReads(name: string, value: string)
    requires '=' !in name
    ensures FirstSplit(Text(name, value)) == (name, value)
  {
    if name == "" {
      assert Text(name, value)[1..] == value;
    } else {
      var text := Text(name, value);
      assert text[0] == name[0] && name[0] in name;
      assert text[1..] == Text(name[1..], value);
      assert name == [name[0]] + name[1..];
      FirstSplitReads(name[1..], value);
    }
  }

  lemma {:induction false} FirstSplitStops(text: string)
    ensures '=' !in FirstSplit(text).0
  {
    if text != "" && text[0] != '=' {
      FirstSplitStops(text[1..]);
    }
  }

  function SingleWrite(name: string, value: string): Op {
    Write(User, name, Row(value, ""), true, true)
  }

  lemma AfterSingleWrite(name: string, value: string)
    ensures var s := RunFrom(EMPTY, [SingleWrite(name, value)]);
            s.log == [Event(SYSTEM, VarCreate, Text(name, value))] && ValuesOf(s.table) == map[name := value]
  {
    var op := SingleWrite(name, value);
    assert [op][1..] == [];
    assert RunFrom(EMPTY, [op]) == After(EMPTY, op);
  }

  /**
    Splitting at the first equals sign rebuilds the table of every run over
    the variables `names` exactly when none of the names contains one.
  */
  lemma ReplayRebuildsIff(names: set<string>)
    ensures (forall ops | FaithfulRun(names, ops) ::
               Replay(FirstSplit, RunFrom(EMPTY, ops).log) == ValuesOf(RunFrom(EMPTY, ops).table))
            <==> forall name <- names :: '=' !in name
  {
    if forall name <- names :: '=' !in name {
      forall name, value | name in names ensures FirstSplit(Text(name, value)) == (name, value) {
        FirstSplitReads(name, value);
      }
      forall ops | FaithfulRun(names, ops)
        ensures Replay(FirstSplit, RunFrom(EMPTY, ops).log) == ValuesOf(RunFrom(EMPTY, ops).table)
      {
        ReplayRun(FirstSplit, names, EMPTY, ops);
      }
    } else {
      var name :| name in names && '=' in name;
      var ops := [SingleWrite(name, "")];
      var s := RunFrom(EMPTY, ops);
      AfterSingleWrite(name, "");
      FirstSplitStops(Text(name, ""));
      ReplayPush(FirstSplit, [], s.log[0]);
      assert [] + [s.log[0]] == s.log;
      assert name !in Replay(FirstSplit, s.log);
      assert name in ValuesOf(s.table);
    }
  }

  // ---------------------------------------------------------------------
  // What any reader of the log could know
  // ---------------------------------------------------------------------

  /** The text of a write to `longer` can also be that of a write to `name`. */
  predicate Confusable(name: string, longer: string) {
    Text(name, "") <= longer
  }

  ghost predicate LogDeterminesTable(names: set<string>) {
    forall ops, ops' | FaithfulRun(names, ops) && FaithfulRun(names, ops')
                       && RunFrom(EMPTY, ops).log == RunFrom(EMPTY, ops').log ::
      ValuesOf(RunFrom(EMPTY, ops).table) == ValuesOf(RunFrom(EMPTY, ops').table)
  }

  lemma TextsAgree(name: string, name': string, value: string, value': string)
    requires Text(name, value) == Text(name', value')
    ensures name == name' || Confusable(name, name') || Confusable(name', name)
  {
    var text := Text(name, value);
    if |name| < |name'| {
      assert text[..|name| + 1] == Text(name, "");
      assert text[..|name'|] == name';
      assert name'[..|name| + 1] == text[..|name| + 1];
    } else if |name'| < |name| {
      assert text[..|name'| + 1] == Text(name', "");
      assert text[..|name|] == name;
      assert name[..|name'| + 1] == text[..|name'| + 1];
    } else {
      assert text[..|name|] == name && text[..|name|] == name';
    }
  }

  /** The best reader for a given set of names. */
  ghost function Knowing(names: set<string>): Reader {
    (text: string) =>
      if exists name, value :: name in names && Text(name, value) == text
      then var name, value :| name in names && Text(name, value) == text; (name, value)
      else ("", "")
  }

  lemma KnowingReads(names: set<string>)
    requires forall name, longer | name in names && longer in names :: !Confusable(name, longer)
    ensures Reads(Knowing(names), names)
  {
    forall name, value | name in names ensures Knowing(names)(Text(name, value)) == (name, value) {
      var (name', value') := Knowing(names)(Text(name, value));
      assert name' in names && Text(name', value') == Text(name, value);
      TextsAgree(name, name', value, value');
      assert value == Text(name, value)[|name| + 1..];
      assert value' == Text(name', value')[|name'| + 1..];
    }
  }

  /**
    The log of a run over `names` leaves no doubt about the table exactly when
    no name extends another one by an equals sign. Otherwise two runs with the
    same log end in different tables, so no reader of the log can tell them
    apart.
  */
  lemma LogDeterminesTableIff(names: set<string>)
    ensures LogDeterminesTable(names)
            <==> forall name, longer | name in names && longer in names :: !Confusable(name, longer)
  {
    if forall name, longer | name in names && longer in names :: !Confusable(name, longer) {
      KnowingReads(names);
      forall ops, ops' | FaithfulRun(names, ops) && FaithfulRun(names, ops')
                         && RunFrom(EMPTY, ops).log == RunFrom(EMPTY, ops').log
        ensures ValuesOf(RunFrom(EMPTY, ops).table) == ValuesOf(RunFrom(EMPTY, ops').table)
      {
        ReplayRun(Knowing(names), names, EMPTY, ops);
        ReplayRun(Knowing(names), names, EMPTY, ops');
      }
    } else {
      var name, longer :| name in names && longer in names && Confusable(name, longer);
      var rest := longer[|name| + 1..];
      var value := rest + "=";
      assert Text(name, value) == Text(longer, "") by {
        assert longer == Text(name, "") + rest;
      }
      var ops, ops' := [SingleWrite(name, value)], [SingleWrite(longer, "")];
      AfterSingleWrite(name, value);
      AfterSingleWrite(longer, "");
      assert FaithfulRun(names, ops) && FaithfulRun(names, ops');
      assert name != longer;
      assert name in map[name := value] && name !in map[longer := ""];
    }
  }

  // ---------------------------------------------------------------------
  // The log explains itself
  // ---------------------------------------------------------------------

  function ValueIn(values: Values, name: string): string {
    if name in values then values[name] else ""
  }

  /** Creation, update and deletion are logged as the preceding part of the log calls for. */
  predicate Explained(read: Reader, log: seq<Event>, k: nat)
    requires k < |log|
  {
    var before := Replay(read, log[..k]);
    match log[k].operation
    case VarCreate => ValueIn(before, read(log[k].what).0) == ""
    case VarUpdate => ValueIn(before, read(log[k].what).0) != ""
    case VarDelete => ValueIn(before, log[k].what) != ""
    case _ => true
  }

  ghost predicate AllExplained(read: Reader, log: seq<Event>) {
    forall k: nat | k < |log| :: Explained(read, log, k)
  }

  lemma ExplainedPush(read: Reader, log: seq<Event>, event: Event)
    requires AllExplained(read, log) && Explained(read, log + [event], |log|)
    ensures AllExplained(read, log + [event])
  {
    forall k: nat | k < |log| ensures Explained(read, log + [event], k) {
      assert Explained(read, log, k);
      assert (log + [event])[..k] == log[..k];
    }
  }

  lemma ExplainedStep(read: Reader, names: set<string>, s: State, op: Op)
    requires Reads(read, names)
    requires Faithful(op) && (op.Write? ==> op.name in names)
    requires Replay(read, s.log) == ValuesOf(s.table) && AllExplained(read, s.log)
    ensures AllExplained(read, After(s, op).log)
  {
    var log := After(s, op).log;
    if log != s.log {
      var event := log[|s.log|];
      assert log == s.log + [event];
      assert log[..|s.log|] == s.log;
      if op.Write? { assert read(Text(op.name, op.row.value)) == (op.name, op.row.value); }
      ExplainedPush(read, s.log, event);
    }
  }

  /**
    In the log of every faithful run an entry is VAR_CREATE exactly when
    replaying the entries before it leaves its variable absent or empty, and a
    deletion is only logged for a variable that has a value.
  */
  lemma {:induction false} LogExplainsItself(read: Reader, names: set<string>, s: State, ops: seq<Op>)
    requires Reads(read, names) && FaithfulRun(names, ops)
    requires Replay(read, s.log) == ValuesOf(s.table) && AllExplained(read, s.log)
    ensures AllExplained(read, RunFrom(s, ops).log)
    decreases |ops|
  {
    if ops != [] {
      assert ops[0] in ops;
      ReplayStep(read, names, s, ops[0]);
      ExplainedStep(read, names, s, ops[0]);
      LogExplainsItself(read, names, After(s, ops[0]), ops[1..]);
    }
  }

  // ---------------------------------------------------------------------
  // The store as the program keeps it
  // ---------------------------------------------------------------------

  class Store {
    var table: Table
    var log: seq<Event>
    var cache: map<string, string>

    ghost function Contents(): State
      reads this
    {
      State(table, log, cache)
    }

    /** Opening a database: its rows are there, the cache is empty. */
    constructor (rows: Table, events: seq<Event>)
      ensures Contents() == State(rows, events, map[])
      ensures Coherent(table, cache)
    {
      table, log, cache := rows, events, map[];
    }

    method ReadVariable(name: string) returns (value: string)
      ensures value == Lookup(table, name)
    {
      if name !in table {
        return "";
      }
      return table[name].value;
    }

    method LogEvent(event: Event, ok: bool)
      modifies this`log
      ensures log == Recorded(old(log), ok, event)
    {
      if ok {
        log := log + [event];
      }
    }

    method ReadValueString(name: string) returns (value: string)
      modifies this`cache
      ensures Contents() == After(old(Contents()), Read(name))
      ensures value == Answer(old(table), old(cache), name)
    {
      if name !in cache {
        var found := ReadVariable(name);
        if found == "" {
          return "";
        }
        cache := cache[name := found];
      }
      return cache[name];
    }

    method ReadValuef64(name: string, atof: string -> real) returns (value: real)
      modifies this`cache
      ensures Contents() == After(old(Contents()), Read(name))
      ensures var text := Answer(old(table), old(cache), name);
              value == if text == "" && name !in old(cache) then 0.0 else atof(text)
    {
      if name !in cache {
        var found := ReadVariable(name);
        if found == "" {
          return 0.0;
        }
        cache := cache[name := found];
      }
      return atof(cache[name]);
    }

    method WriteVariable(name: string, row: Row, logged: bool, stored: bool)
      modifies this`table, this`log
      ensures table == TableAfter(old(table), Write(User, name, row, logged, stored))
      ensures log == LogAfter(old(table), old(log), Write(User, name, row, logged, stored))
    {
      var what := name + "=" + row.value;
      var current := ReadVariable(name);
      if current == "" {
        LogEvent(Event(SYSTEM, VarCreate, what), logged);
      } else {
        LogEvent(Event(SYSTEM, VarUpdate, what), logged);
      }
      if stored {
        table := table[name := row];
      }
    }

    method WriteVariableSys(name: string, row: Row, stored: bool)
      modifies this`table
      ensures table == if stored then old(table)[name := row] else old(table)
    {
      if stored {
        table := table[name := row];
      }
    }

    method WriteValue(auth: Authority, name: string, row: Row, logged: bool, stored: bool)
      modifies this
      ensures Contents() == After(old(Contents()), Write(auth, name, row, logged, stored))
    {
      match auth {
        case Sys => WriteVariableSys(name, row, stored);
        case User => WriteVariable(name, row, logged, stored);
      }
      cache := cache - {name};
    }

    method DeleteVariableInternal(name: string, ok: bool) returns (done: bool)
      modifies this`table
      ensures done == (ok && Lookup(old(table), name) != "")
      ensures table == if done then old(table) - {name} else old(table)
    {
      var current := ReadVariable(name);
      if current == "" || !ok {
        return false;
      }
      table := table - {name};
      return true;
    }

    method DeleteValue(auth: Authority, name: string, user: string, removed: bool, logged: bool)
      modifies this
      ensures Contents() == After(old(Contents()), Delete(auth, name, user, removed, logged))
    {
      var done := DeleteVariableInternal(name, removed);
      if done {
        match auth {
          case Sys => LogEvent(Event(SYSTEM, VarDelete, name), logged);
          case User => LogEvent(Event(user, VarDelete, name), logged);
        }
      }
      cache := cache - {name};
    }

    method InvalidateCache()
      modifies this`cache
      ensures Contents() == After(old(Contents()), Invalidate)
    {
      cache := map[];
    }
  }
}
