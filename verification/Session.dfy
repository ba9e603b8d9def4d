/** One connected session: callers, the two pipes, the server's decode loop, the mailbox and the
    promise map. Steps of the concurrent threads interleave freely. */
module Session {
  import opened Wire
  import P = Pipe

  // InternalOperation and Operation values.
  const REQUEST: byte := 1
  const SYNC_REQUEST: byte := 2
  const ASYNC_REQUEST: byte := 3
  const SYNC_RESPONSE: byte := 5
  const ASYNC_RESPONSE: byte := 6
  const EVT_SUB: byte := 7
  const EVT_RESPONSE: byte := 8
  const EVT_UNSUB: byte := 9
  const CON_VALID: byte := 11
  const OPERATIONS: set<byte> := {0, REQUEST, 4, EVT_SUB, EVT_UNSUB, 10, CON_VALID, 12}

  /** sizeof(SVReturn): a type byte and 1024 bytes of value. */
  const RETURN_SIZE := 1025
  /** The largest payload whose size plus XTRA_SPACE survives the cast to u16. */
  const MAX_PAYLOAD := 65526

  /** The payload size Alloc gives a request: the total goes through a u16. */
  function AllocatedPayload(size: nat): int {
    (size + XTRA_SPACE) % 0x1_0000 - XTRA_SPACE
  }

  /** A request keeps its payload, and gets an id, exactly for sizes 1 to 65526. */
  lemma PayloadSizeIff(size: nat)
    ensures AllocatedPayload(size) == size && AllocatedPayload(size) > 0 <==> 1 <= size <= MAX_PAYLOAD
  {
  }

  /** Any other size loses a multiple of 65536 bytes, down to a remainder between -9 and 65526. */
  lemma AllocatedPayloadIs(size: nat)
    ensures -9 <= AllocatedPayload(size) <= MAX_PAYLOAD && (size - AllocatedPayload(size)) % 65536 == 0
  {
  }

  /** `callers` bounds how many threads sit in SendSync at once. */
  datatype Config = Config(pipe: P.Config, callers: nat)

  datatype Call = Call(message: Message, sync: bool)

  /** A request the server executed and the value its execution produced; the value is arbitrary, so
      executions may depend on hardware and on earlier executions. */
  datatype Execution = Execution(request: Message, result: seq<byte>)

  /** `drafts` are numbered but not queued calls, `waiting` the ids of SendSync calls in WaitForId,
      `unregistered` the ids of SendAsync calls between ScheduleTransmission and emplace, `promises` the
      keys of async_mess_prom and `mailbox` is lmessage. `executed`, `returned`, `fulfilled` and `lost`
      (mailbox contents overwritten before a waiter took them) record history. */
  datatype Session = Session(
    nid: nat, drafts: set<Call>, up: P.Pipe, valid: bool,
    subs: set<byte>, eventNid: nat, executed: seq<Execution>, down: P.Pipe,
    mailbox: Option<Message>, waiting: set<nat>, unregistered: set<nat>, promises: set<nat>,
    returned: map<nat, seq<byte>>, fulfilled: map<nat, seq<byte>>,
    lost: seq<Message>, crashed: bool)

  datatype Step =
    | SetNew(sync: bool, operation: byte, payload: seq<byte>)
    | Schedule(call: Call)
    | Register(id: nat)
    | Up(move: P.Step)
    | ServerDecode(result: seq<byte>)
    | Emit(event: byte, data: seq<byte>)
    | Down(move: P.Step)
    | ClientDecode
    | Return(id: nat)

  const VALIDITY := Message(CON_VALID, 0, [1])

  /** The server issued the validity message before any other thread could write. */
  function Init(): Session {
    Session(0, {}, P.EMPTY, false, {}, 0, [], P.Pipe([], Frame(VALIDITY), [], [], [VALIDITY], 1, []),
            None, {}, {}, {}, map[], map[], [], false)
  }

  function OpCode(sync: bool, operation: byte): byte {
    if operation != REQUEST then operation else if sync then SYNC_REQUEST else ASYNC_REQUEST
  }

  predicate IsRequest(m: Message) { m.op == SYNC_REQUEST || m.op == ASYNC_REQUEST }

  predicate IsReply(m: Message) { m.op == SYNC_RESPONSE || m.op == ASYNC_RESPONSE }

  function ReplyTo(e: Execution): Message {
    Message(if e.request.op == SYNC_REQUEST then SYNC_RESPONSE else ASYNC_RESPONSE, e.request.id, e.result)
  }

  function EventMessage(s: Session, event: byte, data: seq<byte>): Message {
    Message(EVT_RESPONSE, s.eventNid, [event] + data)
  }

  predicate ThreadMove(move: P.Step) { move.Send? || move.Receive? || move.Add? }

  predicate Enabled(c: Config, s: Session, step: Step) {
    && !s.crashed
    && match step
       case SetNew(_, operation, payload) =>
         operation in OPERATIONS && 0 < |payload| <= MAX_PAYLOAD && s.nid < TWO_TO_THE_64
       case Schedule(call) => call in s.drafts && (call.sync ==> |s.waiting| < c.callers)
       case Register(id) => id in s.unregistered
       case Up(move) => ThreadMove(move) && P.Enabled(c.pipe, s.up, move) && (move.Send? ==> s.valid)
       case ServerDecode(result) => P.Enabled(c.pipe, s.up, P.FetchOne) && |result| == RETURN_SIZE
       case Emit(event, data) =>
         event in s.subs ==> s.eventNid < TWO_TO_THE_64 && Sendable(EventMessage(s, event, data))
       case Down(move) => ThreadMove(move) && P.Enabled(c.pipe, s.down, move)
       case ClientDecode => P.Enabled(c.pipe, s.down, P.FetchOne)
       case Return(id) => id in s.waiting && s.mailbox.Some? && s.mailbox.value.id == id
  }

  /** The server's switch on the opcode. */
  function Handle(s: Session, m: Message, result: seq<byte>): Session {
    if IsRequest(m) then
      var e := Execution(m, result);
      s.(executed := s.executed + [e], down := P.Apply(s.down, P.Push(ReplyTo(e))))
    else if m.op == EVT_SUB && m.payload != [] then s.(subs := s.subs + {m.payload[0]})
    else if m.op == EVT_UNSUB && m.payload != [] then s.(subs := s.subs - {m.payload[0]})
    else s
  }

  /** The client's switch on the opcode: NotifyPromise, SetMsgIdCondition, conn_valid. */
  function Dispatch(s: Session, m: Message): Session {
    if m.op == ASYNC_RESPONSE then
      if m.id in s.promises then
        s.(promises := s.promises - {m.id}, fulfilled := s.fulfilled[m.id := m.payload])
      else s.(crashed := true)
    else if m.op == SYNC_RESPONSE then
      s.(mailbox := Some(m), lost := if s.mailbox.Some? then s.lost + [s.mailbox.value] else s.lost)
    else if m.op == CON_VALID && m.payload != [] then s.(valid := m.payload[0] == 1)
    else s
  }

  function Apply(s: Session, step: Step): Session {
    match step
    case SetNew(sync, operation, payload) =>
      s.(nid := s.nid + 1, drafts := s.drafts + {Call(Message(OpCode(sync, operation), s.nid, payload), sync)})
    case Schedule(call) =>
      var id := call.message.id;
      s.(drafts := s.drafts - {call}, up := P.Apply(s.up, P.Push(call.message)),
         waiting := if call.sync then s.waiting + {id} else s.waiting,
         unregistered := if call.sync then s.unregistered else s.unregistered + {id})
    case Register(id) => s.(unregistered := s.unregistered - {id}, promises := s.promises + {id})
    case Up(move) => s.(up := P.Apply(s.up, move))
    case ServerDecode(result) =>
      var up := P.Apply(s.up, P.FetchOne);
      if |up.got| == 0 then s else Handle(s.(up := up), up.got[|up.got| - 1], result)
    case Emit(event, data) =>
      if event !in s.subs then s
      else s.(eventNid := s.eventNid + 1, down := P.Apply(s.down, P.Push(EventMessage(s, event, data))))
    case Down(move) => s.(down := P.Apply(s.down, move))
    case ClientDecode =>
      var down := P.Apply(s.down, P.FetchOne);
      if |down.got| == 0 then s else Dispatch(s.(down := down), down.got[|down.got| - 1])
    case Return(id) =>
      if s.mailbox.None? then s
      else s.(mailbox := None, waiting := s.waiting - {id}, returned := s.returned[id := s.mailbox.value.payload])
  }

  predicate Legal(c: Config, s: Session, steps: seq<Step>)
    decreases |steps|
  {
    steps == [] || (Enabled(c, s, steps[0]) && Legal(c, Apply(s, steps[0]), steps[1..]))
  }

  function Run(s: Session, steps: seq<Step>): Session
    decreases |steps|
  {
    if steps == [] then s else Run(Apply(s, steps[0]), steps[1..])
  }

  ghost predicate Reachable(c: Config, s: Session) {
    exists steps :: Legal(c, Init(), steps) && Run(Init(), steps) == s
  }

  lemma {:induction false} RunExtend(c: Config, s: Session, steps: seq<Step>, step: Step)
    ensures Run(s, steps + [step]) == Apply(Run(s, steps), step)
    ensures Legal(c, s, steps + [step]) <==> Legal(c, s, steps) && Enabled(c, Run(s, steps), step)
    decreases |steps|
  {
    if steps == [] {
      assert steps + [step] == [step];
      assert Run(s, [step]) == Run(Apply(s, step), []);
      assert Legal(c, s, [step]) <==> Enabled(c, s, step);
    } else {
      assert (steps + [step])[1..] == steps[1..] + [step];
      RunExtend(c, Apply(s, steps[0]), steps[1..], step);
    }
  }

  lemma ReachStep(c: Config, s: Session, step: Step)
    requires Reachable(c, s) && Enabled(c, s, step)
    ensures Reachable(c, Apply(s, step))
  {
    var steps :| Legal(c, Init(), steps) && Run(Init(), steps) == s;
    RunExtend(c, Init(), steps, step);
  }

  // ---------------------------------------------------------------- selecting messages

  function Requests(ms: seq<Message>): seq<Message> {
    if ms == [] then []
    else Requests(ms[..|ms| - 1]) + (if IsRequest(ms[|ms| - 1]) then [ms[|ms| - 1]] else [])
  }

  function Replies(ms: seq<Message>): seq<Message> {
    if ms == [] then []
    else Replies(ms[..|ms| - 1]) + (if IsReply(ms[|ms| - 1]) then [ms[|ms| - 1]] else [])
  }

  function ExecutedRequests(es: seq<Execution>): (ms: seq<Message>)
    ensures |ms| == |es| && forall i :: 0 <= i < |es| ==> ms[i] == es[i].request
  {
    seq(|es|, i requires 0 <= i < |es| => es[i].request)
  }

  function RepliesTo(es: seq<Execution>): (ms: seq<Message>)
    ensures |ms| == |es| && forall i :: 0 <= i < |es| ==> ms[i] == ReplyTo(es[i])
  {
    seq(|es|, i requires 0 <= i < |es| => ReplyTo(es[i]))
  }

  lemma RequestsPush(ms: seq<Message>, m: Message)
    ensures Requests(ms + [m]) == Requests(ms) + (if IsRequest(m) then [m] else [])
  {
    assert (ms + [m])[..|ms|] == ms;
  }

  lemma RepliesPush(ms: seq<Message>, m: Message)
    ensures Replies(ms + [m]) == Replies(ms) + (if IsReply(m) then [m] else [])
  {
    assert (ms + [m])[..|ms|] == ms;
  }

  lemma {:induction false} RequestsMember(ms: seq<Message>, m: Message)
    ensures m in Requests(ms) <==> m in ms && IsRequest(m)
  {
    if ms != [] {
      RequestsMember(ms[..|ms| - 1], m);
      assert ms == ms[..|ms| - 1] + [ms[|ms| - 1]];
    }
  }

  lemma {:induction false} RepliesMember(ms: seq<Message>, m: Message)
    ensures m in Replies(ms) <==> m in ms && IsReply(m)
  {
    if ms != [] {
      RepliesMember(ms[..|ms| - 1], m);
      assert ms == ms[..|ms| - 1] + [ms[|ms| - 1]];
    }
  }

  lemma {:induction false} RequestsPrefix(ms: seq<Message>, k: nat)
    requires k <= |ms|
    ensures Requests(ms[..k]) <= Requests(ms)
    decreases |ms|
  {
    if k < |ms| {
      RequestsPrefix(ms[..|ms| - 1], k);
      assert ms[..|ms| - 1][..k] == ms[..k];
    } else {
      assert ms[..k] == ms;
    }
  }
}
