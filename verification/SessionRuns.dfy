/** Runs that show where the RPC layer loses a reply or faults, and the exact condition for neither. */
module SessionRuns {
  import opened Sequences
  import opened Wire
  import opened Session
  import opened SessionProofs
  import opened SessionTheorems
  import P = Pipe

  /** Room for the largest frame these runs carry, a reply. */
  predicate Roomy(c: Config) {
    c.pipe.chunk > 0 && c.pipe.capacity >= RETURN_SIZE + FRAME_OVERHEAD
  }

  function PumpedPipe(p: P.Pipe, n: nat): P.Pipe
    requires n <= |p.wire|
  {
    p.(wire := p.wire[n..], buf := p.buf + p.wire[..n])
  }

  lemma PumpOne(c: P.Config, p: P.Pipe, n: nat)
    requires c.chunk > 0 && p.hand == [] && n < |p.wire| && |p.buf| + n < c.capacity
    ensures var q := PumpedPipe(p, n); var r := P.Apply(q, P.Receive(1));
            && P.Enabled(c, q, P.Receive(1)) && P.Enabled(c, r, P.Add)
            && P.Apply(r, P.Add) == PumpedPipe(p, n + 1)
  {
    assert p.wire[n..][1..] == p.wire[n + 1..];
    assert (p.buf + p.wire[..n]) + p.wire[n..][..1] == p.buf + p.wire[..n + 1];
  }

  lemma {:induction false} PumpUp(c: Config, s: Session, n: nat)
    requires Reachable(c, s) && !s.crashed && c.pipe.chunk > 0
    requires s.up.hand == [] && n <= |s.up.wire| && |s.up.buf| + n <= c.pipe.capacity
    ensures Reachable(c, s.(up := PumpedPipe(s.up, n)))
  {
    if n == 0 {
      assert PumpedPipe(s.up, 0) == s.up;
    } else {
      PumpUp(c, s, n - 1);
      PumpOne(c.pipe, s.up, n - 1);
      var t := s.(up := PumpedPipe(s.up, n - 1));
      ReachStep(c, t, Up(P.Receive(1)));
      ReachStep(c, Apply(t, Up(P.Receive(1))), Up(P.Add));
    }
  }

  lemma {:induction false} PumpDown(c: Config, s: Session, n: nat)
    requires Reachable(c, s) && !s.crashed && c.pipe.chunk > 0
    requires s.down.hand == [] && n <= |s.down.wire| && |s.down.buf| + n <= c.pipe.capacity
    ensures Reachable(c, s.(down := PumpedPipe(s.down, n)))
  {
    if n == 0 {
      assert PumpedPipe(s.down, 0) == s.down;
    } else {
      PumpDown(c, s, n - 1);
      PumpOne(c.pipe, s.down, n - 1);
      var t := s.(down := PumpedPipe(s.down, n - 1));
      ReachStep(c, t, Down(P.Receive(1)));
      ReachStep(c, Apply(t, Down(P.Receive(1))), Down(P.Add));
    }
  }

  /** A pipe whose only bytes are one frame on the wire, and that pipe once the frame is decoded. */
  predicate Carries(p: P.Pipe, m: Message) {
    Sendable(m) && p.wire == Frame(m) && p.hand == [] && p.buf == []
  }

  function Arrived(p: P.Pipe, m: Message): P.Pipe {
    p.(wire := [], got := p.got + [m])
  }

  lemma FrameArrives(c: P.Config, p: P.Pipe, m: Message)
    requires Carries(p, m)
    ensures var q := PumpedPipe(p, |p.wire|);
            P.Enabled(c, q, P.FetchOne) && P.Apply(q, P.FetchOne) == Arrived(p, m)
  {
    var q := PumpedPipe(p, |p.wire|);
    assert q.buf == Frame(m) && q.wire == [];
    assert Stream([m]) == Frame(m) + Stream([]);
    FetchTakesFirstMessage(q.buf, [], [m]);
    var rest := FetchNext(q.buf).rest;
    assert rest + [] == rest;
    assert [m][1..] == [];
  }

  lemma ArriveUp(c: Config, s: Session, m: Message, result: seq<byte>)
    requires Reachable(c, s) && !s.crashed && Roomy(c) && |result| == RETURN_SIZE
    requires Carries(s.up, m) && FrameSize(m) <= c.pipe.capacity
    ensures Reachable(c, Handle(s.(up := Arrived(s.up, m)), m, result))
  {
    assert |s.up.wire| == FrameSize(m);
    PumpUp(c, s, |s.up.wire|);
    FrameArrives(c.pipe, s.up, m);
    ReachStep(c, s.(up := PumpedPipe(s.up, |s.up.wire|)), ServerDecode(result));
  }

  lemma ArriveDown(c: Config, s: Session, m: Message)
    requires Reachable(c, s) && !s.crashed && Roomy(c)
    requires Carries(s.down, m) && FrameSize(m) <= c.pipe.capacity
    ensures Reachable(c, Dispatch(s.(down := Arrived(s.down, m)), m))
  {
    assert |s.down.wire| == FrameSize(m);
    PumpDown(c, s, |s.down.wire|);
    FrameArrives(c.pipe, s.down, m);
    ReachStep(c, s.(down := PumpedPipe(s.down, |s.down.wire|)), ClientDecode);
  }

  predicate Idle(p: P.Pipe) { p.wire == [] && p.hand == [] && p.buf == [] }

  /** A session between calls: nothing under way upwards, nothing on the wire downwards. */
  predicate Ready(s: Session) {
    !s.crashed && s.valid && s.drafts == {} && s.up.out == [] && Idle(s.up) && Idle(s.down) && s.nid < 10
  }

  lemma ReachReady(c: Config) returns (s: Session)
    requires Roomy(c)
    ensures Reachable(c, s) && Ready(s)
    ensures s.nid == 0 && s.waiting == {} && s.mailbox == None && s.down.out == []
  {
    var s0 := Init();
    assert Legal(c, s0, []) && Run(s0, []) == s0;
    ArriveDown(c, s0, VALIDITY);
    s := Dispatch(s0.(down := Arrived(s0.down, VALIDITY)), VALIDITY);
  }

  /** One call, from SetNew to the reply in the server's outbound queue. */
  lemma Issue(c: Config, s: Session, sync: bool) returns (t: Session, reply: Message)
    requires Reachable(c, s) && Ready(s) && Roomy(c) && (sync ==> |s.waiting| < c.callers)
    ensures Reachable(c, t) && !t.crashed && t.valid && t.drafts == {} && t.up.out == [] && Idle(t.up) && Idle(t.down)
    ensures t.nid == s.nid + 1 && t.mailbox == s.mailbox && t.lost == s.lost
    ensures t.down.out == s.down.out + [reply] && Sendable(reply) && |reply.payload| == RETURN_SIZE
    ensures reply.op == (if sync then SYNC_RESPONSE else ASYNC_RESPONSE) && reply.id == s.nid
    ensures t.waiting == if sync then s.waiting + {s.nid} else s.waiting
    ensures !sync ==> t.unregistered == s.unregistered + {s.nid} && t.promises == s.promises
  {
    var m := Message(OpCode(sync, REQUEST), s.nid, [0]);
    var call := Call(m, sync);
    ReachStep(c, s, SetNew(sync, REQUEST, [0]));
    var s1 := Apply(s, SetNew(sync, REQUEST, [0]));
    assert call in s1.drafts;
    ReachStep(c, s1, Schedule(call));
    var s2 := Apply(s1, Schedule(call));
    assert s2.up.out == [m];
    ReachStep(c, s2, Up(P.Send));
    var s3 := Apply(s2, Up(P.Send));
    assert Carries(s3.up, m);
    var result := Copies<byte>(0, RETURN_SIZE);
    ArriveUp(c, s3, m, result);
    reply := ReplyTo(Execution(m, result));
    t := Handle(s3.(up := Arrived(s3.up, m)), m, result);
  }

  /** The server's send thread writes the next reply and the client dispatches it. */
  lemma Deliver(c: Config, s: Session) returns (t: Session)
    requires Reachable(c, s) && !s.crashed && Roomy(c) && Idle(s.down) && s.down.out != []
    requires Sendable(s.down.out[0]) && |s.down.out[0].payload| == RETURN_SIZE
    ensures Reachable(c, t)
    ensures var p := s.down.(out := s.down.out[1..], sent := s.down.sent + 1, got := s.down.got + [s.down.out[0]]);
            t == Dispatch(s.(down := p), s.down.out[0])
  {
    var m := s.down.out[0];
    ReachStep(c, s, Down(P.Send));
    var s1 := Apply(s, Down(P.Send));
    assert s1.down.wire == Frame(m);
    ArriveDown(c, s1, m);
    t := Dispatch(s1.(down := Arrived(s1.down, m)), m);
    assert s1.down.(wire := []) == s.down.(out := s.down.out[1..], sent := s.down.sent + 1);
  }

  predicate SyncReply(m: Message) {
    Sendable(m) && |m.payload| == RETURN_SIZE && m.op == SYNC_RESPONSE
  }

  /** Two replies to waiting callers in the server's outbound queue. */
  lemma IssueTwo(c: Config) returns (s: Session)
    requires Roomy(c) && c.callers >= 2
    ensures Reachable(c, s) && !s.crashed && Idle(s.down)
    ensures |s.down.out| == 2 && SyncReply(s.down.out[0]) && SyncReply(s.down.out[1])
  {
    var s0 := ReachReady(c);
    var s1, r1 := Issue(c, s0, true);
    assert s1.down.out == [r1];
    var r2;
    s, r2 := Issue(c, s1, true);
    assert s.down.out == [r1, r2];
  }

  /** Two SendSync calls at once: the second reply overwrites the first in the mailbox. */
  lemma TwoCallersLoseAReply(c: Config) returns (s: Session)
    requires Roomy(c) && c.callers >= 2
    ensures Reachable(c, s) && s.lost != []
  {
    var s1 := IssueTwo(c);
    var s2 := DeliverSync(c, s1);
    s := DeliverSync(c, s2);
  }

  lemma DeliverSync(c: Config, s: Session) returns (t: Session)
    requires Reachable(c, s) && !s.crashed && Roomy(c) && Idle(s.down) && s.down.out != []
    requires SyncReply(s.down.out[0])
    ensures Reachable(c, t) && !t.crashed && Idle(t.down) && t.down.out == s.down.out[1..] && t.mailbox.Some?
    ensures s.mailbox.Some? ==> t.lost != []
  {
    t := Deliver(c, s);
  }

  /** No reply is ever overwritten in the mailbox if and only if at most one SendSync is outstanding. */
  lemma NoReplyLostIff(c: Config)
    requires Roomy(c)
    ensures (forall s :: Reachable(c, s) ==> s.lost == []) <==> c.callers <= 1
  {
    if c.callers <= 1 {
      forall s | Reachable(c, s) ensures s.lost == [] { ReachableInv(c, s); }
    } else {
      var s := TwoCallersLoseAReply(c);
    }
  }

  /** A reply can overtake its promise: a single SendAsync reaches the fault. */
  lemma AsyncFaultReachable(c: Config) returns (s: Session)
    requires Roomy(c)
    ensures Reachable(c, s) && s.crashed
  {
    var s0 := ReachReady(c);
    ReachableInv(c, s0);
    var s1, r := Issue(c, s0, false);
    ReachableInv(c, s1);
    assert s1.down.out == [r];
    s := Deliver(c, s1);
  }

  /** A SendSync that subscribes to an event: it is queued like any call, and waits for ever. */
  lemma SubscriptionWaitsForEver(c: Config) returns (s: Session, m: Message)
    requires Roomy(c) && c.callers >= 1
    ensures Reachable(c, s) && m in s.up.pushed && m.op == EVT_SUB
    ensures forall steps | Legal(c, s, steps) :: m.id in Run(s, steps).waiting
  {
    var s0 := ReachReady(c);
    ReachStep(c, s0, SetNew(true, EVT_SUB, [0]));
    var s1 := Apply(s0, SetNew(true, EVT_SUB, [0]));
    m := Message(EVT_SUB, s0.nid, [0]);
    var call := Call(m, true);
    assert call in s1.drafts && |s1.waiting| == 0;
    ReachStep(c, s1, Schedule(call));
    s := Apply(s1, Schedule(call));
    assert m in s.up.pushed && m.id in s.waiting;
    forall steps | Legal(c, s, steps) ensures m.id in Run(s, steps).waiting {
      NonRequestNeverReturns(c, s, m, steps);
    }
  }
}
