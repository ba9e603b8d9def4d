/** The promises of the RPC layer, for every reachable state. */
module SessionTheorems {
  import opened Wire
  import opened Session
  import opened SessionProofs
  import P = Pipe

  lemma {:induction false} InvRun(c: Config, s: Session, steps: seq<Step>)
    requires Inv(c, s) && Legal(c, s, steps)
    ensures Inv(c, Run(s, steps))
    decreases |steps|
  {
    if steps != [] {
      InvStep(c, s, steps[0]);
      InvRun(c, Apply(s, steps[0]), steps[1..]);
    }
  }

  lemma ReachableInv(c: Config, s: Session)
    requires Reachable(c, s)
    ensures Inv(c, s)
  {
    var steps :| Legal(c, Init(), steps) && Run(Init(), steps) == s;
    InvInit(c);
    InvRun(c, Init(), steps);
  }

  // ---------------------------------------------------------------- answers belong to their requests

  /** `value` came from the one execution of the request with this id and opcode, a request the
      client queued. */
  ghost predicate IsAnswer(s: Session, id: nat, op: byte, value: seq<byte>) {
    exists e ::
      && e in s.executed && e.request in s.up.pushed
      && e.request.id == id && e.request.op == op && e.result == value
      && forall f :: f in s.executed && f.request.id == id ==> f == e
  }

  lemma ReplyIsAnswer(c: Config, s: Session, m: Message)
    requires Inv(c, s) && m in s.down.got && IsReply(m)
    ensures IsAnswer(s, m.id, if m.op == SYNC_RESPONSE then SYNC_REQUEST else ASYNC_REQUEST, m.payload)
  {
    var e := ReplyHasExecution(s.executed, s.up.got, s.down.pushed, m);
    var i :| 0 <= i < |s.executed| && s.executed[i] == e;
    forall f | f in s.executed && f.request.id == m.id ensures f == e {
      var j :| 0 <= j < |s.executed| && s.executed[j] == f;
      assert i == j;
    }
    assert e.request in s.up.pushed;
  }

  /** Whatever the interleaving, the chunking and the traffic, a value SendSync returned or a promise
      received is the result of executing exactly the request with that id. */
  lemma AnswersMatchRequests(c: Config, s: Session)
    requires Reachable(c, s)
    ensures forall id :: id in s.returned ==> IsAnswer(s, id, SYNC_REQUEST, s.returned[id])
    ensures forall id :: id in s.fulfilled ==> IsAnswer(s, id, ASYNC_REQUEST, s.fulfilled[id])
  {
    ReachableInv(c, s);
    forall id | id in s.returned ensures IsAnswer(s, id, SYNC_REQUEST, s.returned[id]) {
      ReplyIsAnswer(c, s, Message(SYNC_RESPONSE, id, s.returned[id]));
    }
    forall id | id in s.fulfilled ensures IsAnswer(s, id, ASYNC_REQUEST, s.fulfilled[id]) {
      ReplyIsAnswer(c, s, Message(ASYNC_RESPONSE, id, s.fulfilled[id]));
    }
  }

  /** The server executes the queued requests in order, each once, and queues the replies in that order. */
  lemma ExecutionOrder(c: Config, s: Session)
    requires Reachable(c, s)
    ensures ExecutedRequests(s.executed) <= Requests(s.up.pushed)
    ensures Replies(s.down.pushed) == RepliesTo(s.executed)
    ensures DistinctIds(ExecutedRequests(s.executed))
  {
    ReachableInv(c, s);
    RequestsPrefix(s.up.pushed, |s.up.got|);
  }

  lemma StepFrame(s: Session, step: Step)
    ensures !step.ClientDecode? ==> Apply(s, step).crashed == s.crashed && Apply(s, step).fulfilled == s.fulfilled
    ensures !step.Return? ==> Apply(s, step).returned == s.returned
  {
  }

  /** What dispatching the next message does to promises. */
  lemma DecodeEffect(c: Config, s: Session)
    requires Inv(c, s) && Enabled(c, s, ClientDecode)
    ensures |s.down.got| < |s.down.pushed|
    ensures var m := s.down.pushed[|s.down.got|]; var t := Apply(s, ClientDecode);
            && (t.crashed <==> m.op == ASYNC_RESPONSE && m.id in s.unregistered)
            && t.fulfilled == (if m.op == ASYNC_RESPONSE && !t.crashed then s.fulfilled[m.id := m.payload] else s.fulfilled)
            && (m.op == ASYNC_RESPONSE ==> m.id !in s.fulfilled)
  {
    var m := ClientDecodesNext(c, s);
    if m.op == ASYNC_RESPONSE { AsyncReplyIsPending(s, m); }
  }

  ghost predicate Keeps(before: map<nat, seq<byte>>, after: map<nat, seq<byte>>) {
    forall id :: id in before ==> id in after && after[id] == before[id]
  }

  lemma FulfilledKept(c: Config, s: Session, step: Step)
    requires Inv(c, s) && Enabled(c, s, step)
    ensures Keeps(s.fulfilled, Apply(s, step).fulfilled)
  {
    if step.ClientDecode? { DecodeEffect(c, s); } else { StepFrame(s, step); }
  }

  lemma ReturnedKept(c: Config, s: Session, step: Step)
    requires SyncOk(s.waiting, s.returned, s.up.pushed) && Enabled(c, s, step)
    ensures Keeps(s.returned, Apply(s, step).returned)
  {
    if !step.Return? { StepFrame(s, step); }
  }

  /** An answer is given at most once: no later step changes it. */
  lemma AnswersAreFinal(c: Config, s: Session, step: Step)
    requires Reachable(c, s) && Enabled(c, s, step)
    ensures Keeps(s.returned, Apply(s, step).returned) && Keeps(s.fulfilled, Apply(s, step).fulfilled)
  {
    ReachableInv(c, s);
    FulfilledKept(c, s, step);
    ReturnedKept(c, s, step);
  }

  // ---------------------------------------------------------------- promises

  ghost predicate ReplyDispatched(s: Session, id: nat) {
    exists m :: m in s.down.got && IsReply(m) && m.id == id
  }

  /** Only ASYNC_RESPONSE messages reply to an asynchronous request. */
  lemma AsyncReplyOpcode(c: Config, s: Session, m: Message, r: Message)
    requires Inv(c, s) && m in s.up.pushed && m.op == ASYNC_REQUEST
    requires r in s.down.got && IsReply(r) && r.id == m.id
    ensures r.op == ASYNC_RESPONSE
  {
    assert r in s.down.pushed;
    var e := ReplyHasExecution(s.executed, s.up.got, s.down.pushed, r);
    SameIdSameMessage(s.up.pushed, e.request, m);
  }

  lemma SameIdSameMessage(ms: seq<Message>, a: Message, b: Message)
    requires DistinctIds(ms) && a in ms && b in ms && a.id == b.id
    ensures a == b
  {
    var i :| 0 <= i < |ms| && ms[i] == a;
    var j :| 0 <= j < |ms| && ms[j] == b;
    assert i == j;
  }

  /** A fulfilled promise is one whose reply was dispatched. */
  lemma FulfilledIffDispatched(c: Config, s: Session, m: Message)
    requires Inv(c, s) && !s.crashed && m in s.up.pushed && m.op == ASYNC_REQUEST
    ensures m.id in s.fulfilled <==> ReplyDispatched(s, m.id)
  {
    if m.id in s.fulfilled {
      assert Message(ASYNC_RESPONSE, m.id, s.fulfilled[m.id]) in s.down.got;
    }
    if ReplyDispatched(s, m.id) {
      var r :| r in s.down.got && IsReply(r) && r.id == m.id;
      AsyncReplyOpcode(c, s, m, r);
    }
  }

  /** A promise for a REQUEST is open exactly until its reply is dispatched. */
  lemma PromisesOpenUntilReply(c: Config, s: Session, m: Message)
    requires Reachable(c, s) && !s.crashed && m in s.up.pushed && m.op == ASYNC_REQUEST
    ensures m.id in s.unregistered + s.promises <==> !ReplyDispatched(s, m.id)
    ensures m.id in s.fulfilled <==> ReplyDispatched(s, m.id)
  {
    ReachableInv(c, s);
    FulfilledIffDispatched(c, s, m);
    assert AsyncOk(s.unregistered, s.promises, s.fulfilled, s.up.pushed);
  }

  /** The reply about to be dispatched belongs to a caller that has not stored its promise yet. */
  predicate Overtakes(s: Session, step: Step) {
    && step.ClientDecode? && |s.down.got| < |s.down.pushed|
    && s.down.pushed[|s.down.got|].op == ASYNC_RESPONSE
    && s.down.pushed[|s.down.got|].id in s.unregistered
  }

  /** NotifyPromise faults exactly when the reply overtakes the caller that still has to register its
      promise: SendAsync queues the request before it stores the promise. */
  lemma CrashIffUnregistered(c: Config, s: Session, step: Step)
    requires Reachable(c, s) && Enabled(c, s, step)
    ensures Apply(s, step).crashed <==> Overtakes(s, step)
  {
    ReachableInv(c, s);
    StepFrame(s, step);
    if step.ClientDecode? { DecodeEffect(c, s); }
  }

  // ---------------------------------------------------------------- which runs fault

  ghost predicate OvertakesAt(steps: seq<Step>, k: nat)
    requires k < |steps|
  {
    Overtakes(Run(Init(), steps[..k]), steps[k])
  }

  lemma LegalPrefix(c: Config, steps: seq<Step>)
    requires steps != [] && Legal(c, Init(), steps)
    ensures var n := |steps| - 1; var s := Run(Init(), steps[..n]);
            && Legal(c, Init(), steps[..n]) && Reachable(c, s) && Enabled(c, s, steps[n])
            && Run(Init(), steps) == Apply(s, steps[n])
  {
    var n := |steps| - 1;
    assert steps == steps[..n] + [steps[n]];
    RunExtend(c, Init(), steps[..n], steps[n]);
  }

  /** A run faults if and only if one of its steps dispatches a reply that overtook its promise. */
  lemma {:induction false} RunFaultsIff(c: Config, steps: seq<Step>)
    requires Legal(c, Init(), steps)
    ensures Run(Init(), steps).crashed <==> exists k: nat :: k < |steps| && OvertakesAt(steps, k)
    decreases |steps|
  {
    if steps != [] {
      var n := |steps| - 1;
      LegalPrefix(c, steps);
      CrashIffUnregistered(c, Run(Init(), steps[..n]), steps[n]);
      RunFaultsIff(c, steps[..n]);
      OvertakesLast(steps);
    }
  }

  lemma OvertakesLast(steps: seq<Step>)
    requires steps != []
    ensures var n := |steps| - 1;
            && (OvertakesAt(steps, n) <==> Overtakes(Run(Init(), steps[..n]), steps[n]))
            && ((exists k: nat :: k < |steps| && OvertakesAt(steps, k))
                <==> OvertakesAt(steps, n) || exists k: nat :: k < n && OvertakesAt(steps[..n], k))
  {
    var n := |steps| - 1;
    forall k: nat | k < n ensures OvertakesAt(steps, k) == OvertakesAt(steps[..n], k) {
      assert steps[..n][..k] == steps[..k];
    }
  }

  /** Every SendAsync stores its promise before anything else happens. */
  ghost predicate RegistersAtOnce(steps: seq<Step>) {
    forall k :: 0 <= k < |steps| && steps[k].Schedule? && !steps[k].call.sync && k + 1 < |steps| ==>
                  steps[k + 1] == Register(steps[k].call.message.id)
  }

  lemma UnregisteredStep(s: Session, step: Step)
    ensures var t := Apply(s, step);
            t.unregistered == match step
                              case Schedule(call) => if call.sync then s.unregistered else s.unregistered + {call.message.id}
                              case Register(id) => s.unregistered - {id}
                              case _ => s.unregistered
  {
  }

  /** Then at most the call scheduled last is still without its promise. */
  lemma {:induction false} OnlyLastUnregistered(c: Config, steps: seq<Step>)
    requires Legal(c, Init(), steps) && RegistersAtOnce(steps)
    ensures var n := |steps| - 1;
            Run(Init(), steps).unregistered
            == if n >= 0 && steps[n].Schedule? && !steps[n].call.sync then {steps[n].call.message.id} else {}
    decreases |steps|
  {
    if steps != [] {
      var n := |steps| - 1;
      LegalPrefix(c, steps);
      OnlyLastUnregistered(c, steps[..n]);
      UnregisteredStep(Run(Init(), steps[..n]), steps[n]);
      if n > 0 { assert steps[n - 1] == steps[..n][n - 1]; }
    }
  }

  /** A run in which promises are stored at once never faults. */
  lemma PromptRegistrationNeverFaults(c: Config, steps: seq<Step>)
    requires Legal(c, Init(), steps) && RegistersAtOnce(steps)
    ensures !Run(Init(), steps).crashed
  {
    RunFaultsIff(c, steps);
    forall k: nat | k < |steps| ensures !OvertakesAt(steps, k) {
      PrefixLegal(c, steps, k);
      OnlyLastUnregistered(c, steps[..k]);
      if k > 0 { assert steps[..k][k - 1] == steps[k - 1]; }
    }
  }

  lemma {:induction false} PrefixLegal(c: Config, steps: seq<Step>, k: nat)
    requires Legal(c, Init(), steps) && k <= |steps|
    ensures Legal(c, Init(), steps[..k])
    decreases |steps|
  {
    if k == |steps| {
      assert steps[..k] == steps;
    } else {
      LegalPrefix(c, steps);
      PrefixLegal(c, steps[..|steps| - 1], k);
      assert steps[..|steps| - 1][..k] == steps[..k];
    }
  }

  // ---------------------------------------------------------------- which SendSync calls return

  /** The caller's side of it: a SendSync is answered only for the operation REQUEST. */
  lemma SyncRequestIff(sync: bool, operation: byte)
    requires operation in OPERATIONS
    ensures OpCode(sync, operation) == SYNC_REQUEST <==> sync && operation == REQUEST
  {
  }

  /** In no reachable state has a call with another opcode returned. */
  lemma OnlySyncRequestsReturn(c: Config, s: Session, m: Message)
    requires Reachable(c, s) && m in s.up.pushed && m.id in s.returned
    ensures m.op == SYNC_REQUEST
  {
    ReachableInv(c, s);
    AnswersMatchRequests(c, s);
    var e :| e in s.executed && e.request in s.up.pushed && e.request.id == m.id && e.request.op == SYNC_REQUEST;
    SameIdSameMessage(s.up.pushed, e.request, m);
  }

  /** A SendSync of anything but a REQUEST waits for ever: no step lets it return. */
  lemma NonRequestKeepsWaiting(c: Config, s: Session, m: Message, step: Step)
    requires Reachable(c, s) && Enabled(c, s, step)
    requires m in s.up.pushed && m.op != SYNC_REQUEST && m.id in s.waiting
    ensures m in Apply(s, step).up.pushed && m.id in Apply(s, step).waiting
  {
    ReachStep(c, s, step);
    PushedGrows(c, s, step);
    WaitingStep(c, s, step, m.id);
    if m.id in Apply(s, step).returned { OnlySyncRequestsReturn(c, Apply(s, step), m); }
  }

  lemma WaitingStep(c: Config, s: Session, step: Step, id: nat)
    requires Enabled(c, s, step) && id in s.waiting
    ensures id in Apply(s, step).waiting || id in Apply(s, step).returned
  {
  }

  lemma PushedGrows(c: Config, s: Session, step: Step)
    requires Enabled(c, s, step)
    ensures s.up.pushed <= Apply(s, step).up.pushed
  {
  }

  lemma {:induction false} NonRequestNeverReturns(c: Config, s: Session, m: Message, steps: seq<Step>)
    requires Reachable(c, s) && Legal(c, s, steps)
    requires m in s.up.pushed && m.op != SYNC_REQUEST && m.id in s.waiting
    ensures m.id in Run(s, steps).waiting && m.id !in Run(s, steps).returned
    decreases |steps|
  {
    if steps == [] {
      ReachableInv(c, s);
    } else {
      NonRequestKeepsWaiting(c, s, m, steps[0]);
      ReachStep(c, s, steps[0]);
      NonRequestNeverReturns(c, Apply(s, steps[0]), m, steps[1..]);
    }
  }
}
