/** The two ends of a session as the program keeps them: objects whose methods refine the steps of the
    session. `Shows(s)` says that the object's fields are those of the session state `s`; a method run
    in a state that shows `s` ends in one that shows `s` after the corresponding steps. */
module Endpoints {
  import opened Wire
  import opened Queues
  import P = Pipe
  import S = Session
  import T = SessionTheorems

  /** The part of the payload that fits the size after its cast to u16: all of it up to 65526 bytes. */
  function Kept(payload: seq<byte>): (kept: seq<byte>)
    requires S.AllocatedPayload(|payload|) > 0
    ensures 0 < |kept| <= S.MAX_PAYLOAD && kept <= payload && (|payload| <= S.MAX_PAYLOAD ==> kept == payload)
  {
    payload[..S.AllocatedPayload(|payload|)]
  }

  class Client {
    const inbound: ByteQueue
    const outbound: SMessageQueue<Message>
    var nid: nat
    var mailbox: Option<Message>
    var promises: set<nat>
    var fulfilled: map<nat, seq<byte>>
    var valid: bool
    var crashed: bool

    ghost predicate Valid()
      reads this, inbound
    {
      inbound.Valid()
    }

    ghost predicate Shows(s: S.Session)
      requires Valid()
      reads this, inbound, inbound.buffer, outbound
    {
      && nid == s.nid && mailbox == s.mailbox && promises == s.promises && fulfilled == s.fulfilled
      && valid == s.valid && crashed == s.crashed
      && inbound.Contents() == s.down.buf && outbound.q == s.up.out
    }

    constructor (bufferSize: nat)
      ensures Valid() && Shows(S.Init()) && fresh(inbound) && fresh(inbound.buffer) && fresh(outbound)
      ensures inbound.buffer.Length == bufferSize
    {
      inbound := new ByteQueue(bufferSize);
      outbound := new SMessageQueue();
      nid, mailbox, promises, fulfilled := 0, None, {}, map[];
      valid, crashed := false, false;
    }

    /** SetNew: takes the next id. A message without payload gets neither opcode nor id. */
    method SetNew(op: byte, payload: seq<byte>) returns (m: Option<Message>)
      modifies this`nid
      ensures payload != [] ==> m == Some(Message(op, old(nid), payload)) && nid == old(nid) + 1
      ensures payload == [] ==> m == None && nid == old(nid)
    {
      if payload == [] {
        return None;
      }
      m := Some(Message(op, nid, payload));
      nid := nid + 1;
    }

    /** SendAsync: numbered, queued, and only then registered. */
    method SendAsync(operation: byte, payload: seq<byte>, ghost c: S.Config, ghost s: S.Session)
      returns (id: nat)
      requires S.AllocatedPayload(|payload|) > 0
      requires Valid() && Shows(s) && S.Enabled(c, s, S.SetNew(false, operation, Kept(payload)))
      modifies this`nid, this`promises, outbound
      ensures id == s.nid
      ensures var call := S.Call(Message(S.OpCode(false, operation), id, Kept(payload)), false);
              var steps := [S.SetNew(false, operation, Kept(payload)), S.Schedule(call), S.Register(id)];
              S.Legal(c, s, steps) && Valid() && Shows(S.Run(s, steps))
    {
      var op := if operation == S.REQUEST then operation + 2 else operation;
      var draft := SetNew(op, payload[..S.AllocatedPayload(|payload|)]);
      var m := draft.value;
      outbound.Push(m);
      id := m.id;
      promises := promises + {id};
      ghost var call := S.Call(m, false);
      ThreeSteps(c, s, S.SetNew(false, operation, Kept(payload)), S.Schedule(call), S.Register(id));
    }

    /** SendSync up to its wait. */
    method BeginSync(operation: byte, payload: seq<byte>, ghost c: S.Config, ghost s: S.Session)
      returns (id: nat)
      requires S.AllocatedPayload(|payload|) > 0 && |s.waiting| < c.callers
      requires Valid() && Shows(s) && S.Enabled(c, s, S.SetNew(true, operation, Kept(payload)))
      modifies this`nid, outbound
      ensures id == s.nid
      ensures var call := S.Call(Message(S.OpCode(true, operation), id, Kept(payload)), true);
              var steps := [S.SetNew(true, operation, Kept(payload)), S.Schedule(call)];
              S.Legal(c, s, steps) && Valid() && Shows(S.Run(s, steps))
    {
      var op := if operation == S.REQUEST then operation + 1 else operation;
      var draft := SetNew(op, payload[..S.AllocatedPayload(|payload|)]);
      var m := draft.value;
      outbound.Push(m);
      id := m.id;
      TwoSteps(c, s, S.SetNew(true, operation, Kept(payload)), S.Schedule(S.Call(m, true)));
    }

    /** WaitForId: None while the caller has to go on waiting. */
    method WaitForId(id: nat, ghost c: S.Config, ghost s: S.Session) returns (r: Option<seq<byte>>)
      requires Valid() && Shows(s) && id in s.waiting && !crashed
      modifies this`mailbox
      ensures r.Some? <==> S.Enabled(c, s, S.Return(id))
      ensures Valid() && Shows(if r.Some? then S.Apply(s, S.Return(id)) else s)
      ensures r.Some? ==> S.Apply(s, S.Return(id)).returned[id] == r.value
    {
      if mailbox.None? || mailbox.value.id != id {
        return None;
      }
      r := Some(mailbox.value.payload);
      mailbox := None;
    }

    method NotifyPromise(m: Message)
      requires !crashed
      modifies this`promises, this`fulfilled, this`crashed
      ensures crashed <==> m.id !in old(promises)
      ensures promises == old(promises) - {m.id}
      ensures fulfilled == if crashed then old(fulfilled) else old(fulfilled)[m.id := m.payload]
    {
      if m.id !in promises {
        crashed := true;
        return;
      }
      fulfilled := fulfilled[m.id := m.payload];
      promises := promises - {m.id};
    }

    /** The switch of the decode loop. */
    method Dispatch(m: Message, ghost s: S.Session)
      requires Valid() && Shows(s) && !crashed && m.payload != []
      modifies this`promises, this`fulfilled, this`crashed, this`mailbox, this`valid
      ensures Valid() && Shows(S.Dispatch(s, m))
    {
      if m.op == S.ASYNC_RESPONSE {
        NotifyPromise(m);
      } else if m.op == S.SYNC_RESPONSE {
        mailbox := Some(m);
      } else if m.op == S.CON_VALID {
        valid := m.payload[0] == 1;
      }
    }

    /** One round of the decode loop: fetch, decode, dispatch. */
    method DecodeRound(ghost c: S.Config, ghost s: S.Session) returns (done: bool)
      requires Valid() && Shows(s) && !crashed && P.Inv(c.pipe, s.down)
      modifies this`promises, this`fulfilled, this`crashed, this`mailbox, this`valid
      modifies inbound, inbound.buffer
      ensures done <==> S.Enabled(c, s, S.ClientDecode)
      ensures Valid() && Shows(if done then S.Apply(s, S.ClientDecode) else s)
      ensures if done then |inbound.Contents()| < old(|inbound.Contents()|)
              else !crashed && FetchNext(inbound.Contents()).Blocked?
    {
      FetchedIsMessage(c.pipe, s.down);
      var r := inbound.FetchNextMsg();
      if !r.Fetched? {
        return false;
      }
      var m := DecodeBody(r.body);
      Dispatch(m.value, s.(down := P.Apply(s.down, P.FetchOne)));
      done := true;
    }

    /** The decode loop runs until the next frame is incomplete, and is one of the session's runs. */
    method DecodeLoop(ghost c: S.Config, ghost s: S.Session) returns (rounds: nat)
      requires Valid() && Shows(s) && S.Reachable(c, s)
      modifies this`promises, this`fulfilled, this`crashed, this`mailbox, this`valid
      modifies inbound, inbound.buffer
      ensures Valid() && Shows(Decoded(s, rounds))
      ensures S.Reachable(c, Decoded(s, rounds)) && Stopped(c, Decoded(s, rounds))
    {
      rounds := 0;
      ghost var now := s;
      var more := !crashed;
      while more
        invariant now == Decoded(s, rounds) && S.Reachable(c, now)
        invariant Valid() && Shows(now)
        invariant !more ==> Stopped(c, now)
        invariant more ==> !crashed
        decreases more, |inbound.Contents()|
      {
        PipeOfReachable(c, now);
        more := DecodeRound(c, now);
        if more {
          S.ReachStep(c, now, S.ClientDecode);
          now := S.Apply(now, S.ClientDecode);
          rounds := rounds + 1;
          more := !crashed;
        }
      }
    }
  }

  /** Nothing is left to decode: the program is gone or the next frame is incomplete. */
  ghost predicate Stopped(c: S.Config, s: S.Session) {
    !S.Enabled(c, s, S.ClientDecode) && (s.crashed || FetchNext(s.down.buf).Blocked?)
  }

  lemma PipeOfReachable(c: S.Config, s: S.Session)
    requires S.Reachable(c, s)
    ensures P.Inv(c.pipe, s.down) && P.Inv(c.pipe, s.up)
  {
    T.ReachableInv(c, s);
  }

  /** The session after `rounds` messages were decoded by the client. */
  ghost function Decoded(s: S.Session, rounds: nat): S.Session {
    if rounds == 0 then s else S.Apply(Decoded(s, rounds - 1), S.ClientDecode)
  }

  lemma TwoSteps(c: S.Config, s: S.Session, one: S.Step, two: S.Step)
    ensures S.Run(s, [one, two]) == S.Apply(S.Apply(s, one), two)
    ensures S.Legal(c, s, [one, two]) <==> S.Enabled(c, s, one) && S.Enabled(c, S.Apply(s, one), two)
  {
    S.RunExtend(c, s, [], one);
    S.RunExtend(c, s, [one], two);
    assert [] + [one] == [one] && [one] + [two] == [one, two];
  }

  lemma ThreeSteps(c: S.Config, s: S.Session, one: S.Step, two: S.Step, three: S.Step)
    ensures S.Run(s, [one, two, three]) == S.Apply(S.Apply(S.Apply(s, one), two), three)
    ensures S.Legal(c, s, [one, two, three]) <==>
            S.Enabled(c, s, one) && S.Enabled(c, S.Apply(s, one), two) && S.Enabled(c, S.Apply(S.Apply(s, one), two), three)
  {
    TwoSteps(c, s, one, two);
    S.RunExtend(c, s, [one, two], three);
    assert [one, two] + [three] == [one, two, three];
  }

  /** Whatever is fetched from a reachable pipe decodes to the message that was pushed. */
  lemma FetchedIsMessage(c: P.Config, p: P.Pipe)
    requires P.Inv(c, p)
    ensures !FetchNext(p.buf).Corrupt?
    ensures FetchNext(p.buf).Fetched? ==>
              var q := P.Apply(p, P.FetchOne); var m := DecodeBody(FetchNext(p.buf).body);
              && m.Some? && m.value.payload != [] && q.got == p.got + [m.value]
              && q.buf == FetchNext(p.buf).rest && |q.buf| < |p.buf| && q.out == p.out
  {
    P.FetchIsNextPushed(c, p);
    if FetchNext(p.buf).Fetched? {
      var q := P.Apply(p, P.FetchOne);
      assert |q.got| == |p.got| + 1;
    }
  }

  class Server {
    const inbound: ByteQueue
    const outbound: SMessageQueue<Message>
    var subs: set<byte>
    var eventNid: nat
    ghost var executed: seq<S.Execution>

    ghost predicate Valid()
      reads this, inbound
    {
      inbound.Valid()
    }

    ghost predicate Shows(s: S.Session)
      requires Valid()
      reads this, inbound, inbound.buffer, outbound
    {
      && subs == s.subs && eventNid == s.eventNid && executed == s.executed
      && inbound.Contents() == s.up.buf && outbound.q == s.down.out
    }

    constructor (bufferSize: nat)
      ensures Valid() && Shows(S.Init()) && fresh(inbound) && fresh(inbound.buffer) && fresh(outbound)
      ensures inbound.buffer.Length == bufferSize
    {
      inbound := new ByteQueue(bufferSize);
      outbound := new SMessageQueue();
      subs, eventNid, executed := {}, 0, [];
    }

    /** The switch of the decode loop; `execute` stands for the generated dispatcher. */
    method Handle(m: Message, execute: Message -> seq<byte>, ghost s: S.Session)
      requires Valid() && Shows(s) && m.payload != []
      modifies this`subs, this`executed, outbound
      ensures Valid() && Shows(S.Handle(s, m, execute(m)))
    {
      if m.op == S.ASYNC_REQUEST {
        var result := execute(m);
        outbound.Push(Message(S.ASYNC_RESPONSE, m.id, result));
        executed := executed + [S.Execution(m, result)];
      } else if m.op == S.SYNC_REQUEST {
        var result := execute(m);
        outbound.Push(Message(S.SYNC_RESPONSE, m.id, result));
        executed := executed + [S.Execution(m, result)];
      } else if m.op == S.EVT_SUB {
        subs := subs + {m.payload[0]};
      } else if m.op == S.EVT_UNSUB {
        subs := subs - {m.payload[0]};
      }
    }

    /** One round of the decode loop. */
    method DecodeRound(execute: Message -> seq<byte>, ghost c: S.Config, ghost s: S.Session)
      returns (handled: Option<Message>)
      requires Valid() && Shows(s) && !s.crashed && P.Inv(c.pipe, s.up)
      requires forall m :: |execute(m)| == S.RETURN_SIZE
      modifies this`subs, this`executed, outbound, inbound, inbound.buffer
      ensures handled.Some? <==> FetchNext(s.up.buf).Fetched?
      ensures Valid()
      ensures match handled
              case None => Shows(s)
              case Some(m) => var step := S.ServerDecode(execute(m)); S.Enabled(c, s, step) && Shows(S.Apply(s, step))
    {
      FetchedIsMessage(c.pipe, s.up);
      var r := inbound.FetchNextMsg();
      if !r.Fetched? {
        return None;
      }
      handled := DecodeBody(r.body);
      Handle(handled.value, execute, s.(up := P.Apply(s.up, P.FetchOne)));
    }

    /** EmitEvent: nothing is sent to a client that did not subscribe. */
    method EmitEvent(event: byte, data: seq<byte>, ghost c: S.Config, ghost s: S.Session)
      requires Valid() && Shows(s) && !s.crashed
      requires event in subs ==> eventNid < TWO_TO_THE_64 && Sendable(Message(S.EVT_RESPONSE, eventNid, [event] + data))
      modifies this`eventNid, outbound
      ensures Valid()
      ensures S.Enabled(c, s, S.Emit(event, data)) && Shows(S.Apply(s, S.Emit(event, data)))
    {
      if event in subs {
        outbound.Push(Message(S.EVT_RESPONSE, eventNid, [event] + data));
        eventNid := eventNid + 1;
      }
    }
  }
}
