/** What every reachable state of a session satisfies. */
module SessionProofs {
  import opened Wire
  import opened Session
  import P = Pipe

  // ---------------------------------------------------------------- the invariant, part by part

  ghost predicate PipesOk(c: Config, up: P.Pipe, down: P.Pipe) {
    && P.Inv(c.pipe, up)
    && P.Inv(c.pipe, down)
  }

  ghost predicate HasId(ms: seq<Message>, id: nat) {
    exists i :: 0 <= i < |ms| && ms[i].id == id
  }

  ghost predicate DistinctIds(ms: seq<Message>) {
    forall i, j :: 0 <= i < j < |ms| ==> ms[i].id != ms[j].id
  }

  ghost predicate DistinctReplies(ms: seq<Message>) {
    forall i, j :: 0 <= i < j < |ms| && IsReply(ms[i]) && IsReply(ms[j]) ==> ms[i].id != ms[j].id
  }

  ghost predicate DraftOk(d: Call, nid: nat, pushed: seq<Message>) {
    && d.message.id < nid && Sendable(d.message) && |d.message.payload| <= MAX_PAYLOAD && !IsReply(d.message)
    && (d.message.op == SYNC_REQUEST ==> d.sync)
    && (d.message.op == ASYNC_REQUEST ==> !d.sync)
    && !HasId(pushed, d.message.id)
  }

  /** Ids are handed out once. */
  ghost predicate IdsOk(nid: nat, drafts: set<Call>, pushed: seq<Message>) {
    && (forall d :: d in drafts ==> DraftOk(d, nid, pushed))
    && (forall d, e :: d in drafts && e in drafts && d.message.id == e.message.id ==> d == e)
    && (forall i :: 0 <= i < |pushed| ==> pushed[i].id < nid && |pushed[i].payload| <= MAX_PAYLOAD)
    && DistinctIds(pushed)
  }

  /** Executions and replies follow the decoded requests one for one and in order. */
  ghost predicate ExecOk(executed: seq<Execution>, decoded: seq<Message>, queued: seq<Message>) {
    && ExecutedRequests(executed) == Requests(decoded)
    && RepliesTo(executed) == Replies(queued)
    && DistinctReplies(queued)
    && (forall i, j :: 0 <= i < j < |executed| ==> executed[i].request.id != executed[j].request.id)
  }

  ghost predicate ValidityOk(valid: bool, queued: seq<Message>, got: seq<Message>) {
    && queued != [] && queued[0] == VALIDITY
    && (forall i :: 0 < i < |queued| ==> queued[i].op != CON_VALID)
    && (got != [] ==> valid)
  }

  /** Where each SendSync stands, given the messages pushed up and those dispatched. */
  ghost predicate SyncOk(waiting: set<nat>, returned: map<nat, seq<byte>>, pushed: seq<Message>) {
    && (forall id :: id in waiting ==> HasId(pushed, id))
    && (forall id :: id in returned ==> HasId(pushed, id))
    && waiting !! returned.Keys
    && (forall i :: 0 <= i < |pushed| && pushed[i].op == SYNC_REQUEST ==>
          pushed[i].id in waiting || pushed[i].id in returned)
  }

  ghost predicate IsWaitedReply(m: Message, waiting: set<nat>, got: seq<Message>) {
    m in got && m.op == SYNC_RESPONSE && m.id in waiting
  }

  ghost predicate MailboxOk(mailbox: Option<Message>, lost: seq<Message>, waiting: set<nat>,
                            returned: map<nat, seq<byte>>, got: seq<Message>) {
    && (forall id :: id in returned ==> Message(SYNC_RESPONSE, id, returned[id]) in got)
    && (mailbox.Some? ==> IsWaitedReply(mailbox.value, waiting, got))
    && (forall m :: m in lost ==> IsWaitedReply(m, waiting, got) && (mailbox.Some? ==> m.id != mailbox.value.id))
    && (forall m :: m in got && m.op == SYNC_RESPONSE ==> m.id in returned || mailbox == Some(m) || m in lost)
  }

  /** Where each SendAsync stands. */
  ghost predicate AsyncOk(unregistered: set<nat>, promises: set<nat>, fulfilled: map<nat, seq<byte>>,
                          pushed: seq<Message>) {
    && (forall id :: id in unregistered ==> HasId(pushed, id))
    && (forall id :: id in promises ==> HasId(pushed, id))
    && (forall id :: id in fulfilled ==> HasId(pushed, id))
    && unregistered !! promises && unregistered !! fulfilled.Keys && promises !! fulfilled.Keys
    && (forall i :: 0 <= i < |pushed| && pushed[i].op == ASYNC_REQUEST ==>
          pushed[i].id in unregistered || pushed[i].id in promises || pushed[i].id in fulfilled)
  }

  ghost predicate PromisesOk(fulfilled: map<nat, seq<byte>>, crashed: bool, got: seq<Message>) {
    && (forall id :: id in fulfilled ==> Message(ASYNC_RESPONSE, id, fulfilled[id]) in got)
    && (!crashed ==> forall m :: m in got && m.op == ASYNC_RESPONSE ==> m.id in fulfilled)
  }

  ghost predicate Inv(c: Config, s: Session) {
    && PipesOk(c, s.up, s.down)
    && IdsOk(s.nid, s.drafts, s.up.pushed)
    && ExecOk(s.executed, s.up.got, s.down.pushed)
    && ValidityOk(s.valid, s.down.pushed, s.down.got)
    && |s.waiting| <= c.callers
    && (c.callers <= 1 ==> s.lost == [])
    && SyncOk(s.waiting, s.returned, s.up.pushed)
    && MailboxOk(s.mailbox, s.lost, s.waiting, s.returned, s.down.got)
    && AsyncOk(s.unregistered, s.promises, s.fulfilled, s.up.pushed)
    && PromisesOk(s.fulfilled, s.crashed, s.down.got)
  }

  // ---------------------------------------------------------------- consequences of the parts

  /** Every reply the server ever queued answers an execution, of a request it decoded. */
  lemma ReplyHasExecution(executed: seq<Execution>, decoded: seq<Message>, queued: seq<Message>, m: Message)
    returns (e: Execution)
    requires ExecOk(executed, decoded, queued) && m in queued && IsReply(m)
    ensures e in executed && m == ReplyTo(e) && IsRequest(e.request) && e.request in decoded
  {
    RepliesMember(queued, m);
    var i :| 0 <= i < |executed| && RepliesTo(executed)[i] == m;
    e := executed[i];
    assert ExecutedRequests(executed)[i] == e.request;
    assert e.request in Requests(decoded);
    RequestsMember(decoded, e.request);
  }

  /** The request the server decodes next was not executed before. */
  lemma NextRequestIsNew(executed: seq<Execution>, decoded: seq<Message>, queued: seq<Message>,
                         pushed: seq<Message>, e: Execution)
    requires ExecOk(executed, decoded, queued) && DistinctIds(pushed)
    requires decoded < pushed && e in executed
    ensures e.request.id != pushed[|decoded|].id
  {
    var i :| 0 <= i < |executed| && executed[i] == e;
    assert ExecutedRequests(executed)[i] == e.request;
    assert e.request in Requests(decoded);
    RequestsMember(decoded, e.request);
    var j :| 0 <= j < |decoded| && decoded[j] == e.request;
    assert pushed[j] == e.request;
  }

  /** No earlier reply has the id of the next one to be dispatched. */
  lemma NextReplyIsNew(queued: seq<Message>, got: seq<Message>, m: Message)
    requires DistinctReplies(queued) && got < queued
    requires IsReply(queued[|got|]) && m in got && IsReply(m)
    ensures m.id != queued[|got|].id
  {
    var i :| 0 <= i < |got| && got[i] == m;
    assert queued[i] == m;
  }

  lemma HasIdPush(ms: seq<Message>, m: Message, id: nat)
    ensures HasId(ms + [m], id) <==> HasId(ms, id) || m.id == id
  {
    if HasId(ms, id) {
      var i :| 0 <= i < |ms| && ms[i].id == id;
      assert (ms + [m])[i].id == id;
    }
    assert (ms + [m])[|ms|] == m;
  }

  // ---------------------------------------------------------------- numbering and queueing a call

  lemma IdsOkSetNew(nid: nat, drafts: set<Call>, pushed: seq<Message>, d: Call)
    requires IdsOk(nid, drafts, pushed) && d.message.id == nid && Sendable(d.message) && !IsReply(d.message)
    requires |d.message.payload| <= MAX_PAYLOAD
    requires d.message.op == SYNC_REQUEST ==> d.sync
    requires d.message.op == ASYNC_REQUEST ==> !d.sync
    ensures IdsOk(nid + 1, drafts + {d}, pushed)
  {
    forall e | e in drafts ensures DraftOk(e, nid + 1, pushed) { assert DraftOk(e, nid, pushed); }
    assert DraftOk(d, nid + 1, pushed);
  }

  lemma IdsOkSchedule(nid: nat, drafts: set<Call>, pushed: seq<Message>, d: Call)
    requires IdsOk(nid, drafts, pushed) && d in drafts
    ensures IdsOk(nid, drafts - {d}, pushed + [d.message])
    ensures !HasId(pushed, d.message.id)
  {
    assert DraftOk(d, nid, pushed);
    forall e | e in drafts - {d} ensures DraftOk(e, nid, pushed + [d.message]) {
      assert DraftOk(e, nid, pushed);
      HasIdPush(pushed, d.message, e.message.id);
    }
    assert forall i :: 0 <= i < |pushed| ==> pushed[i].id != d.message.id;
  }

  lemma SyncOkSchedule(waiting: set<nat>, returned: map<nat, seq<byte>>, pushed: seq<Message>, m: Message, waits: bool)
    requires SyncOk(waiting, returned, pushed) && !HasId(pushed, m.id)
    requires m.op == SYNC_REQUEST ==> waits
    ensures SyncOk(if waits then waiting + {m.id} else waiting, returned, pushed + [m])
    ensures m.id !in waiting
  {
    forall id ensures HasId(pushed + [m], id) <==> HasId(pushed, id) || m.id == id { HasIdPush(pushed, m, id); }
  }

  lemma AsyncOkSchedule(unregistered: set<nat>, promises: set<nat>, fulfilled: map<nat, seq<byte>>,
                        pushed: seq<Message>, m: Message, promised: bool)
    requires AsyncOk(unregistered, promises, fulfilled, pushed) && !HasId(pushed, m.id)
    requires m.op == ASYNC_REQUEST ==> promised
    ensures AsyncOk(if promised then unregistered + {m.id} else unregistered, promises, fulfilled, pushed + [m])
  {
    forall id ensures HasId(pushed + [m], id) <==> HasId(pushed, id) || m.id == id { HasIdPush(pushed, m, id); }
  }

  /** A reply still wanted is still wanted when another call starts to wait. */
  lemma MailboxOkSchedule(mailbox: Option<Message>, lost: seq<Message>, waiting: set<nat>, more: set<nat>,
                          returned: map<nat, seq<byte>>, got: seq<Message>)
    requires MailboxOk(mailbox, lost, waiting, returned, got) && waiting <= more
    ensures MailboxOk(mailbox, lost, more, returned, got)
  {
  }

  lemma InvSchedule(c: Config, s: Session, call: Call)
    requires Inv(c, s) && Enabled(c, s, Schedule(call))
    ensures Inv(c, Apply(s, Schedule(call)))
  {
    var m := call.message;
    assert DraftOk(call, s.nid, s.up.pushed);
    P.InvStep(c.pipe, s.up, P.Push(m));
    IdsOkSchedule(s.nid, s.drafts, s.up.pushed, call);
    SyncOkSchedule(s.waiting, s.returned, s.up.pushed, m, call.sync);
    AsyncOkSchedule(s.unregistered, s.promises, s.fulfilled, s.up.pushed, m, !call.sync);
    MailboxOkSchedule(s.mailbox, s.lost, s.waiting, Apply(s, Schedule(call)).waiting, s.returned, s.down.got);
  }

  // ---------------------------------------------------------------- the server's side

  lemma ExecOkPush(executed: seq<Execution>, decoded: seq<Message>, queued: seq<Message>, pushed: seq<Message>,
                   e: Execution)
    requires ExecOk(executed, decoded, queued) && DistinctIds(pushed)
    requires decoded < pushed && e.request == pushed[|decoded|] && IsRequest(e.request)
    ensures ExecOk(executed + [e], decoded + [e.request], queued + [ReplyTo(e)])
  {
    RequestsPush(decoded, e.request);
    RepliesPush(queued, ReplyTo(e));
    assert ExecutedRequests(executed + [e]) == ExecutedRequests(executed) + [e.request];
    assert RepliesTo(executed + [e]) == RepliesTo(executed) + [ReplyTo(e)];
    forall i | 0 <= i < |executed| ensures executed[i].request.id != e.request.id {
      NextRequestIsNew(executed, decoded, queued, pushed, executed[i]);
    }
    forall i | 0 <= i < |queued| && IsReply(queued[i]) ensures queued[i].id != e.request.id {
      var f := ReplyHasExecution(executed, decoded, queued, queued[i]);
      NextRequestIsNew(executed, decoded, queued, pushed, f);
    }
  }

  lemma NotARequest(decoded: seq<Message>, m: Message)
    requires !IsRequest(m)
    ensures Requests(decoded + [m]) == Requests(decoded)
  {
    RequestsPush(decoded, m);
  }

  lemma NotAReply(queued: seq<Message>, m: Message)
    requires !IsReply(m) && DistinctReplies(queued)
    ensures Replies(queued + [m]) == Replies(queued) && DistinctReplies(queued + [m])
  {
    RepliesPush(queued, m);
  }

  lemma ExecOkOther(executed: seq<Execution>, decoded: seq<Message>, queued: seq<Message>, m: Message)
    requires ExecOk(executed, decoded, queued)
    ensures !IsRequest(m) ==> ExecOk(executed, decoded + [m], queued)
    ensures !IsReply(m) ==> ExecOk(executed, decoded, queued + [m])
  {
    if !IsRequest(m) { NotARequest(decoded, m); }
    if !IsReply(m) { NotAReply(queued, m); }
  }

  lemma ValidityOkPush(valid: bool, queued: seq<Message>, got: seq<Message>, m: Message)
    requires ValidityOk(valid, queued, got) && m.op != CON_VALID
    ensures ValidityOk(valid, queued + [m], got)
  {
  }

  lemma ServerDecodesNext(c: Config, s: Session, result: seq<byte>) returns (m: Message)
    requires P.Inv(c.pipe, s.up) && Enabled(c, s, ServerDecode(result))
    ensures |s.up.got| < |s.up.pushed| && m == s.up.pushed[|s.up.got|]
    ensures var up := P.Apply(s.up, P.FetchOne);
            && P.Inv(c.pipe, up) && up.got == s.up.got + [m] && up.pushed == s.up.pushed
            && Apply(s, ServerDecode(result)) == Handle(s.(up := up), m, result)
  {
    P.InvStep(c.pipe, s.up, P.FetchOne);
    P.FetchIsNextPushed(c.pipe, s.up);
    m := s.up.pushed[|s.up.got|];
  }

  lemma InvExecute(c: Config, s: Session, up: P.Pipe, m: Message, result: seq<byte>)
    requires Inv(c, s) && P.Inv(c.pipe, up) && |result| == RETURN_SIZE
    requires |s.up.got| < |s.up.pushed| && m == s.up.pushed[|s.up.got|] && IsRequest(m)
    requires up.got == s.up.got + [m] && up.pushed == s.up.pushed
    ensures Inv(c, Handle(s.(up := up), m, result))
  {
    var e := Execution(m, result);
    P.InvStep(c.pipe, s.down, P.Push(ReplyTo(e)));
    ExecOkPush(s.executed, s.up.got, s.down.pushed, s.up.pushed, e);
    ValidityOkPush(s.valid, s.down.pushed, s.down.got, ReplyTo(e));
  }

  lemma InvNoExecute(c: Config, s: Session, up: P.Pipe, m: Message, result: seq<byte>)
    requires Inv(c, s) && P.Inv(c.pipe, up) && !IsRequest(m)
    requires up.got == s.up.got + [m] && up.pushed == s.up.pushed
    ensures Inv(c, Handle(s.(up := up), m, result))
  {
    ExecOkOther(s.executed, s.up.got, s.down.pushed, m);
  }

  lemma InvServerDecode(c: Config, s: Session, result: seq<byte>)
    requires Inv(c, s) && Enabled(c, s, ServerDecode(result))
    ensures Inv(c, Apply(s, ServerDecode(result)))
  {
    var m := ServerDecodesNext(c, s, result);
    if IsRequest(m) {
      InvExecute(c, s, P.Apply(s.up, P.FetchOne), m, result);
    } else {
      InvNoExecute(c, s, P.Apply(s.up, P.FetchOne), m, result);
    }
  }

  lemma InvEmit(c: Config, s: Session, event: byte, data: seq<byte>)
    requires Inv(c, s) && Enabled(c, s, Emit(event, data))
    ensures Inv(c, Apply(s, Emit(event, data)))
  {
    if event in s.subs {
      var m := EventMessage(s, event, data);
      P.InvStep(c.pipe, s.down, P.Push(m));
      ExecOkOther(s.executed, s.up.got, s.down.pushed, m);
      ValidityOkPush(s.valid, s.down.pushed, s.down.got, m);
    }
  }

  // ---------------------------------------------------------------- the client's side

  lemma SyncReplyIsWaited(s: Session, m: Message)
    requires ExecOk(s.executed, s.up.got, s.down.pushed)
    requires SyncOk(s.waiting, s.returned, s.up.pushed)
    requires MailboxOk(s.mailbox, s.lost, s.waiting, s.returned, s.down.got)
    requires s.up.got <= s.up.pushed && s.down.got < s.down.pushed
    requires m == s.down.pushed[|s.down.got|] && m.op == SYNC_RESPONSE
    ensures m.id in s.waiting
  {
    var e := ReplyHasExecution(s.executed, s.up.got, s.down.pushed, m);
    var i :| 0 <= i < |s.up.got| && s.up.got[i] == e.request;
    assert s.up.pushed[i] == e.request;
    if m.id in s.returned {
      NextReplyIsNew(s.down.pushed, s.down.got, Message(SYNC_RESPONSE, m.id, s.returned[m.id]));
    }
  }

  lemma AsyncReplyIsPending(s: Session, m: Message)
    requires ExecOk(s.executed, s.up.got, s.down.pushed)
    requires AsyncOk(s.unregistered, s.promises, s.fulfilled, s.up.pushed)
    requires PromisesOk(s.fulfilled, s.crashed, s.down.got)
    requires s.up.got <= s.up.pushed && s.down.got < s.down.pushed
    requires m == s.down.pushed[|s.down.got|] && m.op == ASYNC_RESPONSE
    ensures m.id in s.unregistered || m.id in s.promises
  {
    var e := ReplyHasExecution(s.executed, s.up.got, s.down.pushed, m);
    var i :| 0 <= i < |s.up.got| && s.up.got[i] == e.request;
    assert s.up.pushed[i] == e.request;
    if m.id in s.fulfilled {
      NextReplyIsNew(s.down.pushed, s.down.got, Message(ASYNC_RESPONSE, m.id, s.fulfilled[m.id]));
    }
  }

  lemma GotMembers(got: seq<Message>, m: Message)
    ensures forall x :: x in got + [m] <==> x in got || x == m
  {
  }

  lemma MailboxOkDispatch(mailbox: Option<Message>, lost: seq<Message>, waiting: set<nat>,
                          returned: map<nat, seq<byte>>, queued: seq<Message>, got: seq<Message>, m: Message)
    requires MailboxOk(mailbox, lost, waiting, returned, got) && DistinctReplies(queued)
    requires got < queued && m == queued[|got|] && m.op == SYNC_RESPONSE && m.id in waiting
    ensures MailboxOk(Some(m), if mailbox.Some? then lost + [mailbox.value] else lost, waiting, returned, got + [m])
  {
    GotMembers(got, m);
    forall x | x in got && IsReply(x) ensures x.id != m.id { NextReplyIsNew(queued, got, x); }
    if mailbox.Some? { GotMembers(lost, mailbox.value); }
  }

  lemma MailboxOkOther(mailbox: Option<Message>, lost: seq<Message>, waiting: set<nat>,
                       returned: map<nat, seq<byte>>, got: seq<Message>, m: Message)
    requires MailboxOk(mailbox, lost, waiting, returned, got) && m.op != SYNC_RESPONSE
    ensures MailboxOk(mailbox, lost, waiting, returned, got + [m])
  {
    GotMembers(got, m);
  }

  lemma AsyncOkDispatch(unregistered: set<nat>, promises: set<nat>, fulfilled: map<nat, seq<byte>>,
                        pushed: seq<Message>, id: nat, value: seq<byte>)
    requires AsyncOk(unregistered, promises, fulfilled, pushed) && id in promises
    ensures AsyncOk(unregistered, promises - {id}, fulfilled[id := value], pushed)
  {
  }

  lemma PromisesOkDispatch(fulfilled: map<nat, seq<byte>>, crashed: bool, got: seq<Message>, m: Message)
    requires PromisesOk(fulfilled, crashed, got)
    ensures m.op != ASYNC_RESPONSE ==> PromisesOk(fulfilled, crashed, got + [m])
    ensures m.op == ASYNC_RESPONSE && m.id !in fulfilled ==> PromisesOk(fulfilled[m.id := m.payload], crashed, got + [m])
    ensures PromisesOk(fulfilled, true, got + [m])
  {
    GotMembers(got, m);
  }

  lemma ClientDecodesNext(c: Config, s: Session) returns (m: Message)
    requires P.Inv(c.pipe, s.down) && Enabled(c, s, ClientDecode)
    ensures |s.down.got| < |s.down.pushed| && m == s.down.pushed[|s.down.got|]
    ensures var down := P.Apply(s.down, P.FetchOne);
            && P.Inv(c.pipe, down) && down.got == s.down.got + [m] && down.pushed == s.down.pushed
            && Apply(s, ClientDecode) == Dispatch(s.(down := down), m)
  {
    P.InvStep(c.pipe, s.down, P.FetchOne);
    P.FetchIsNextPushed(c.pipe, s.down);
    m := s.down.pushed[|s.down.got|];
  }

  lemma TwoWaiters(waiting: set<nat>, a: nat, b: nat)
    requires a in waiting && b in waiting && a != b
    ensures |waiting| >= 2
  {
    assert {a, b} <= waiting;
    var rest := waiting - {a};
    assert b in rest && |rest| == |waiting| - 1;
  }

  /** With one caller at a time the mailbox is free whenever a reply for it arrives. */
  lemma MailboxFreeForReply(c: Config, s: Session, m: Message)
    requires Inv(c, s) && c.callers <= 1 && |s.down.got| < |s.down.pushed|
    requires m == s.down.pushed[|s.down.got|] && m.op == SYNC_RESPONSE
    ensures s.mailbox == None
  {
    if s.mailbox.Some? {
      SyncReplyIsWaited(s, m);
      NextReplyIsNew(s.down.pushed, s.down.got, s.mailbox.value);
      TwoWaiters(s.waiting, m.id, s.mailbox.value.id);
    }
  }

  lemma InvDispatchSync(c: Config, s: Session, down: P.Pipe, m: Message)
    requires Inv(c, s) && P.Inv(c.pipe, down) && m.op == SYNC_RESPONSE
    requires |s.down.got| < |s.down.pushed| && m == s.down.pushed[|s.down.got|]
    requires down.got == s.down.got + [m] && down.pushed == s.down.pushed
    ensures Inv(c, Dispatch(s.(down := down), m))
  {
    if c.callers <= 1 { MailboxFreeForReply(c, s, m); }
    SyncReplyIsWaited(s, m);
    MailboxOkDispatch(s.mailbox, s.lost, s.waiting, s.returned, s.down.pushed, s.down.got, m);
    PromisesOkDispatch(s.fulfilled, s.crashed, s.down.got, m);
  }

  lemma InvDispatchOther(c: Config, s: Session, down: P.Pipe, m: Message)
    requires Inv(c, s) && P.Inv(c.pipe, down) && m.op != SYNC_RESPONSE
    requires |s.down.got| < |s.down.pushed| && m == s.down.pushed[|s.down.got|]
    requires down.got == s.down.got + [m] && down.pushed == s.down.pushed
    ensures Inv(c, Dispatch(s.(down := down), m))
  {
    PromisesOkDispatch(s.fulfilled, s.crashed, s.down.got, m);
    MailboxOkOther(s.mailbox, s.lost, s.waiting, s.returned, s.down.got, m);
    if m.op == ASYNC_RESPONSE && m.id in s.promises {
      AsyncOkDispatch(s.unregistered, s.promises, s.fulfilled, s.up.pushed, m.id, m.payload);
    }
  }

  lemma InvClientDecode(c: Config, s: Session)
    requires Inv(c, s) && Enabled(c, s, ClientDecode)
    ensures Inv(c, Apply(s, ClientDecode))
  {
    var m := ClientDecodesNext(c, s);
    if m.op == SYNC_RESPONSE {
      InvDispatchSync(c, s, P.Apply(s.down, P.FetchOne), m);
    } else {
      InvDispatchOther(c, s, P.Apply(s.down, P.FetchOne), m);
    }
  }

  lemma MailboxOkReturn(lost: seq<Message>, waiting: set<nat>, returned: map<nat, seq<byte>>,
                        got: seq<Message>, m: Message)
    requires MailboxOk(Some(m), lost, waiting, returned, got)
    ensures MailboxOk(None, lost, waiting - {m.id}, returned[m.id := m.payload], got)
  {
    assert m == Message(SYNC_RESPONSE, m.id, m.payload);
  }

  lemma InvReturn(c: Config, s: Session, id: nat)
    requires Inv(c, s) && Enabled(c, s, Return(id))
    ensures Inv(c, Apply(s, Return(id)))
  {
    MailboxOkReturn(s.lost, s.waiting, s.returned, s.down.got, s.mailbox.value);
  }

  lemma InvSetNew(c: Config, s: Session, sync: bool, operation: byte, payload: seq<byte>)
    requires Inv(c, s) && Enabled(c, s, SetNew(sync, operation, payload))
    ensures Inv(c, Apply(s, SetNew(sync, operation, payload)))
  {
    IdsOkSetNew(s.nid, s.drafts, s.up.pushed, Call(Message(OpCode(sync, operation), s.nid, payload), sync));
  }

  lemma InvRegister(c: Config, s: Session, id: nat)
    requires Inv(c, s) && Enabled(c, s, Register(id))
    ensures Inv(c, Apply(s, Register(id)))
  {
    assert AsyncOk(s.unregistered - {id}, s.promises + {id}, s.fulfilled, s.up.pushed);
  }

  lemma InvMove(c: Config, s: Session, step: Step)
    requires Inv(c, s) && (step.Up? || step.Down?) && Enabled(c, s, step)
    ensures Inv(c, Apply(s, step))
  {
    P.InvStep(c.pipe, if step.Up? then s.up else s.down, step.move);
  }

  lemma InvStep(c: Config, s: Session, step: Step)
    requires Inv(c, s) && Enabled(c, s, step)
    ensures Inv(c, Apply(s, step))
  {
    match step {
      case SetNew(sync, operation, payload) => InvSetNew(c, s, sync, operation, payload);
      case Schedule(call) => InvSchedule(c, s, call);
      case Register(id) => InvRegister(c, s, id);
      case Up(_) => InvMove(c, s, step);
      case ServerDecode(result) => InvServerDecode(c, s, result);
      case Emit(event, data) => InvEmit(c, s, event, data);
      case Down(_) => InvMove(c, s, step);
      case ClientDecode => InvClientDecode(c, s);
      case Return(id) => InvReturn(c, s, id);
    }
  }

  lemma InvInit(c: Config)
    ensures Inv(c, Init())
  {
    assert Stream([VALIDITY]) == Frame(VALIDITY) + Stream([]);
    assert [VALIDITY][0..1] == [VALIDITY];
    RepliesPush([], VALIDITY);
    assert [] + [VALIDITY] == [VALIDITY];
  }
}
