/** Which requests are answered: the threads cannot run for ever, nor stop while a request is unanswered,
    unless a queued SendAsync has not stored its promise yet. A SendSync of any other operation has no
    answer to wait for, and never returns. */
module SessionProgress {
  import opened Sequences
  import opened Wire
  import opened Session
  import opened SessionProofs
  import opened SessionTheorems
  import P = Pipe

  /** A step of a service thread or of a returning waiter, as opposed to a new call or event. */
  predicate Internal(step: Step) {
    step.Up? || step.Down? || step.ServerDecode? || step.ClientDecode? || step.Return?
  }

  ghost predicate Quiet(c: Config, s: Session) {
    forall step | Internal(step) :: !Enabled(c, s, step)
  }

  function FrameBound(c: Config): int { c.pipe.capacity - c.pipe.chunk + 1 }

  /** Every frame, replies included, is within the deadlock-free bound of the byte queues. */
  predicate FramesFit(c: Config, s: Session) {
    && c.pipe.chunk > 0
    && RETURN_SIZE + FRAME_OVERHEAD <= FrameBound(c)
    && P.FramesAtMost(s.up.pushed, FrameBound(c))
    && P.FramesAtMost(s.down.pushed, FrameBound(c))
  }

  lemma QuietDown(c: Config, s: Session)
    requires Quiet(c, s) && !s.crashed
    ensures P.Stuck(c.pipe, s.down)
  {
    forall move | P.Internal(move) ensures !P.Enabled(c.pipe, s.down, move) {
      var step := if move.FetchOne? then ClientDecode else Down(move);
      assert Internal(step) && !Enabled(c, s, step);
    }
  }

  lemma QuietUp(c: Config, s: Session)
    requires Quiet(c, s) && !s.crashed && s.valid
    ensures P.Stuck(c.pipe, s.up)
  {
    var result: seq<byte> := Copies(0, RETURN_SIZE);
    forall move | P.Internal(move) ensures !P.Enabled(c.pipe, s.up, move) {
      var step := if move.FetchOne? then ServerDecode(result) else Up(move);
      assert Internal(step) && !Enabled(c, s, step);
    }
  }

  /** Everything pushed on either side has been decoded on the other. */
  lemma QuietMeansDelivered(c: Config, s: Session)
    requires Inv(c, s) && FramesFit(c, s) && !s.crashed && Quiet(c, s)
    ensures s.up.got == s.up.pushed && s.down.got == s.down.pushed
  {
    QuietDown(c, s);
    P.StuckMeansDelivered(c.pipe, s.down);
    QuietUp(c, s);
    P.StuckMeansDelivered(c.pipe, s.up);
  }

  lemma RequestHasReply(s: Session, m: Message) returns (r: Message)
    requires ExecOk(s.executed, s.up.got, s.down.pushed) && m in s.up.got && IsRequest(m)
    ensures r in s.down.pushed && r.id == m.id
    ensures r.op == if m.op == SYNC_REQUEST then SYNC_RESPONSE else ASYNC_RESPONSE
  {
    RequestsMember(s.up.got, m);
    var i :| 0 <= i < |s.executed| && ExecutedRequests(s.executed)[i] == m;
    r := ReplyTo(s.executed[i]);
    assert RepliesTo(s.executed)[i] == r;
    assert r in Replies(s.down.pushed);
    RepliesMember(s.down.pushed, r);
  }

  ghost predicate Answered(s: Session, m: Message) {
    if m.op == SYNC_REQUEST then m.id in s.returned else m.id in s.fulfilled
  }

  lemma QuietMeansAnsweredOne(c: Config, s: Session, m: Message)
    requires Inv(c, s) && !s.crashed && s.lost == [] && Quiet(c, s)
    requires s.up.got == s.up.pushed && s.down.got == s.down.pushed
    requires m in s.up.pushed && IsRequest(m)
    ensures Answered(s, m)
  {
    var r := RequestHasReply(s, m);
    if m.op == SYNC_REQUEST && m.id !in s.returned {
      assert s.mailbox == Some(r);
      assert Enabled(c, s, Return(m.id));
      assert false;
    }
  }

  /** If no reply was lost, threads with nothing left to do have answered every queued request. */
  lemma QuietMeansAnswered(c: Config, s: Session)
    requires Inv(c, s) && FramesFit(c, s) && !s.crashed && s.lost == [] && Quiet(c, s)
    ensures forall m :: m in s.up.pushed && IsRequest(m) ==> Answered(s, m)
  {
    QuietMeansDelivered(c, s);
    forall m | m in s.up.pushed && IsRequest(m) ensures Answered(s, m) {
      QuietMeansAnsweredOne(c, s, m);
    }
  }

  // ---------------------------------------------------------------- termination

  /** A byte under way upwards may become a reply, whose work downwards is 4 * (1025 + 13) = 4152. */
  function Work(s: Session): nat {
    4153 * P.Work(s.up) + P.Work(s.down) + |s.waiting|
  }

  lemma PushWork(p: P.Pipe, m: Message)
    ensures P.Work(P.Apply(p, P.Push(m))) == P.Work(p) + 4 * FrameSize(m)
  {
    StreamPush(p.out, m);
    assert |Frame(m)| == FrameSize(m);
  }

  lemma WorkServerDecode(c: Config, s: Session, result: seq<byte>)
    requires PipesOk(c, s.up, s.down) && Enabled(c, s, ServerDecode(result))
    ensures Work(Apply(s, ServerDecode(result))) < Work(s)
  {
    P.WorkDecreases(c.pipe, s.up, P.FetchOne);
    var m := ServerDecodesNext(c, s, result);
    HandleWork(s.(up := P.Apply(s.up, P.FetchOne)), m, result);
  }

  /** Handling a message upwards costs at most one reply downwards. */
  lemma HandleWork(s: Session, m: Message, result: seq<byte>)
    requires |result| == RETURN_SIZE
    ensures var t := Handle(s, m, result);
            t.up == s.up && t.waiting == s.waiting && P.Work(t.down) <= P.Work(s.down) + 4152
  {
    if IsRequest(m) { PushWork(s.down, ReplyTo(Execution(m, result))); }
  }

  lemma ClientDecodePipe(s: Session)
    requires P.Apply(s.down, P.FetchOne).got != []
    ensures Apply(s, ClientDecode).down == P.Apply(s.down, P.FetchOne)
  {
  }

  lemma ClientDecodeFrame(s: Session)
    ensures Apply(s, ClientDecode).up == s.up && Apply(s, ClientDecode).waiting == s.waiting
  {
  }

  lemma WorkClientDecode(c: Config, s: Session)
    requires PipesOk(c, s.up, s.down) && Enabled(c, s, ClientDecode)
    ensures Work(Apply(s, ClientDecode)) < Work(s)
  {
    P.WorkDecreases(c.pipe, s.down, P.FetchOne);
    P.FetchIsNextPushed(c.pipe, s.down);
    ClientDecodePipe(s);
    ClientDecodeFrame(s);
  }

  lemma WorkDecreases(c: Config, s: Session, step: Step)
    requires PipesOk(c, s.up, s.down) && Internal(step) && Enabled(c, s, step)
    ensures Work(Apply(s, step)) < Work(s)
  {
    match step {
      case Up(move) => P.WorkDecreases(c.pipe, s.up, move);
      case Down(move) => P.WorkDecreases(c.pipe, s.down, move);
      case ServerDecode(result) => WorkServerDecode(c, s, result);
      case ClientDecode => WorkClientDecode(c, s);
      case Return(id) =>
    }
  }

  /** What the service threads push: nothing upwards, and downwards only replies. */
  lemma InternalPushes(c: Config, s: Session, step: Step)
    requires Internal(step) && Enabled(c, s, step)
    ensures Apply(s, step).up.pushed == s.up.pushed
    ensures var q := Apply(s, step).down.pushed;
            || q == s.down.pushed
            || (|q| == |s.down.pushed| + 1 && q[..|s.down.pushed|] == s.down.pushed
                && |q[|s.down.pushed|].payload| == RETURN_SIZE)
  {
    if step.ServerDecode? {
      var up := P.Apply(s.up, P.FetchOne);
      if |up.got| > 0 && IsRequest(up.got[|up.got| - 1]) {
        var r := ReplyTo(Execution(up.got[|up.got| - 1], step.result));
        assert (s.down.pushed + [r])[..|s.down.pushed|] == s.down.pushed;
      }
    }
  }

  lemma FramesFitStep(c: Config, s: Session, step: Step)
    requires FramesFit(c, s) && Internal(step) && Enabled(c, s, step)
    ensures FramesFit(c, Apply(s, step)) && Apply(s, step).up.pushed == s.up.pushed
  {
    InternalPushes(c, s, step);
    var q := Apply(s, step).down.pushed;
    forall i | 0 <= i < |q| ensures FrameSize(q[i]) <= FrameBound(c) {
      if i < |s.down.pushed| { assert q[i] == s.down.pushed[i]; }
    }
  }

  lemma {:induction false} FramesFitRun(c: Config, s: Session, steps: seq<Step>)
    requires FramesFit(c, s) && Legal(c, s, steps) && forall i :: 0 <= i < |steps| ==> Internal(steps[i])
    ensures FramesFit(c, Run(s, steps)) && Run(s, steps).up.pushed == s.up.pushed
    decreases |steps|
  {
    if steps != [] {
      assert Internal(steps[0]);
      FramesFitStep(c, s, steps[0]);
      FramesFitRun(c, Apply(s, steps[0]), steps[1..]);
    }
  }

  lemma ReachableWorkDecreases(c: Config, s: Session, step: Step)
    requires Reachable(c, s) && Internal(step) && Enabled(c, s, step)
    ensures Reachable(c, Apply(s, step)) && Work(Apply(s, step)) < Work(s)
  {
    ReachableInv(c, s);
    WorkDecreases(c, s, step);
    ReachStep(c, s, step);
  }

  lemma {:induction false} WorkRun(c: Config, s: Session, steps: seq<Step>)
    requires Reachable(c, s) && Legal(c, s, steps) && forall i :: 0 <= i < |steps| ==> Internal(steps[i])
    ensures |steps| + Work(Run(s, steps)) <= Work(s)
    decreases |steps|
  {
    if steps != [] {
      assert Internal(steps[0]);
      ReachableWorkDecreases(c, s, steps[0]);
      WorkRun(c, Apply(s, steps[0]), steps[1..]);
    }
  }

  // ---------------------------------------------------------------- from which states every request is answered

  predicate AllInternal(steps: seq<Step>) {
    forall i :: 0 <= i < |steps| ==> Internal(steps[i])
  }

  /** A run of the service threads from `s` to where they can do no more. */
  ghost predicate RunsToRest(c: Config, s: Session, steps: seq<Step>) {
    Legal(c, s, steps) && AllInternal(steps) && Quiet(c, Run(s, steps))
  }

  ghost predicate AllAnswered(s: Session, t: Session) {
    forall m :: m in s.up.pushed && IsRequest(m) ==> Answered(t, m)
  }

  /** No asynchronous request was queued whose caller still has to store its promise. */
  ghost predicate AllRegistered(s: Session) {
    forall m :: m in s.up.pushed && m.op == ASYNC_REQUEST ==> m.id !in s.unregistered
  }

  /** The threads always come to rest, after at most Work(s) steps. */
  lemma {:induction false} ComesToRest(c: Config, s: Session) returns (steps: seq<Step>)
    requires Reachable(c, s)
    ensures RunsToRest(c, s, steps) && |steps| <= Work(s)
    decreases Work(s)
  {
    steps := [];
    if !Quiet(c, s) {
      var step :| Internal(step) && Enabled(c, s, step);
      ReachableWorkDecreases(c, s, step);
      var more := ComesToRest(c, Apply(s, step));
      steps := [step] + more;
      RestCons(c, s, step, more);
    }
  }

  lemma RestCons(c: Config, s: Session, step: Step, more: seq<Step>)
    requires Internal(step) && Enabled(c, s, step) && RunsToRest(c, Apply(s, step), more)
    ensures RunsToRest(c, s, [step] + more)
  {
    var steps := [step] + more;
    assert steps[1..] == more;
    assert AllInternal(steps);
    assert Run(s, steps) == Run(Apply(s, step), more);
  }

  lemma InternalKeeps(c: Config, s: Session, step: Step)
    requires Internal(step) && Enabled(c, s, step)
    ensures Apply(s, step).unregistered == s.unregistered && Apply(s, step).up.pushed == s.up.pushed
  {
    UnregisteredStep(s, step);
    InternalPushes(c, s, step);
  }

  /** Where all promises are stored, no step of the threads faults. */
  lemma InternalNeverFaults(c: Config, s: Session, step: Step)
    requires Reachable(c, s) && AllRegistered(s) && Internal(step) && Enabled(c, s, step)
    ensures !Apply(s, step).crashed && AllRegistered(Apply(s, step))
  {
    CrashIffUnregistered(c, s, step);
    InternalKeeps(c, s, step);
    if Overtakes(s, step) { var m := OvertakenRequest(c, s, step); }
  }

  /** A reply that overtakes answers a queued request without a stored promise. */
  lemma OvertakenRequest(c: Config, s: Session, step: Step) returns (m: Message)
    requires Reachable(c, s) && Overtakes(s, step)
    ensures m in s.up.pushed && m.op == ASYNC_REQUEST && m.id in s.unregistered
  {
    ReachableInv(c, s);
    var e := ReplyHasExecution(s.executed, s.up.got, s.down.pushed, s.down.pushed[|s.down.got|]);
    m := e.request;
  }

  /** What a run of the threads keeps. */
  lemma {:induction false} InternalRun(c: Config, s: Session, steps: seq<Step>)
    requires Reachable(c, s) && !s.crashed && Legal(c, s, steps) && AllInternal(steps)
    ensures var t := Run(s, steps);
            && Reachable(c, t) && t.unregistered == s.unregistered && t.up.pushed == s.up.pushed
            && (AllRegistered(s) ==> !t.crashed)
    decreases |steps|
  {
    if steps != [] {
      var step := steps[0];
      assert Internal(step);
      ReachStep(c, s, step);
      InternalKeeps(c, s, step);
      if AllRegistered(s) { InternalNeverFaults(c, s, step); }
      if Apply(s, step).crashed {
        CrashStops(c, Apply(s, step), steps[1..]);
      } else {
        assert AllInternal(steps[1..]);
        InternalRun(c, Apply(s, step), steps[1..]);
      }
    }
  }

  lemma CrashStops(c: Config, s: Session, steps: seq<Step>)
    requires s.crashed && Legal(c, s, steps)
    ensures steps == []
  {
  }

  /** Where all promises are stored, every run of the threads is bounded and, once it comes to rest, every
      queued request has its answer. */
  lemma EveryRequestAnswered(c: Config, s: Session, steps: seq<Step>)
    requires Reachable(c, s) && FramesFit(c, s) && c.callers <= 1 && !s.crashed && AllRegistered(s)
    requires Legal(c, s, steps) && AllInternal(steps)
    ensures |steps| <= Work(s)
    ensures Quiet(c, Run(s, steps)) ==> AllAnswered(s, Run(s, steps))
  {
    var t := Run(s, steps);
    WorkRun(c, s, steps);
    InternalRun(c, s, steps);
    ReachableInv(c, t);
    FramesFitRun(c, s, steps);
    if Quiet(c, t) { QuietMeansAnswered(c, t); }
  }

  /** The queued requests are all answered whenever the threads come to rest if and only if no queued
      SendAsync still has to store its promise. */
  lemma AllAnsweredIff(c: Config, s: Session)
    requires Reachable(c, s) && FramesFit(c, s) && c.callers <= 1 && !s.crashed
    ensures (forall steps | RunsToRest(c, s, steps) :: AllAnswered(s, Run(s, steps))) <==> AllRegistered(s)
  {
    if AllRegistered(s) {
      forall steps | RunsToRest(c, s, steps) ensures AllAnswered(s, Run(s, steps)) {
        EveryRequestAnswered(c, s, steps);
      }
    } else {
      var m :| m in s.up.pushed && m.op == ASYNC_REQUEST && m.id in s.unregistered;
      var steps := ComesToRest(c, s);
      UnregisteredUnanswered(c, s, steps, m);
      assert !AllAnswered(s, Run(s, steps));
    }
  }

  lemma UnregisteredUnanswered(c: Config, s: Session, steps: seq<Step>, m: Message)
    requires Reachable(c, s) && !s.crashed && Legal(c, s, steps) && AllInternal(steps)
    requires m in s.up.pushed && m.op == ASYNC_REQUEST && m.id in s.unregistered
    ensures !Answered(Run(s, steps), m)
  {
    var t := Run(s, steps);
    InternalRun(c, s, steps);
    ReachableInv(c, t);
    assert AsyncOk(t.unregistered, t.promises, t.fulfilled, t.up.pushed);
  }

  /** Which SendSync calls return: when the threads have come to rest, exactly those whose operation was
      REQUEST. */
  lemma SyncReturnsIff(c: Config, s: Session, steps: seq<Step>, m: Message)
    requires Reachable(c, s) && FramesFit(c, s) && c.callers <= 1 && !s.crashed && AllRegistered(s)
    requires RunsToRest(c, s, steps) && m in s.up.pushed
    ensures m.id in Run(s, steps).returned <==> m.op == SYNC_REQUEST
  {
    var t := Run(s, steps);
    EveryRequestAnswered(c, s, steps);
    InternalRun(c, s, steps);
    if m.id in t.returned { OnlySyncRequestsReturn(c, t, m); }
    if m.op == SYNC_REQUEST { assert Answered(t, m); }
  }

  // ---------------------------------------------------------------- at the program's constants

  /** With the buffer and chunk sizes of the program every request frame is within the bound; only the
      events of the server need a look. */
  lemma SourceFramesFit(c: Config, s: Session)
    requires Reachable(c, s) && c.pipe == P.SOURCE_CONFIG
    requires P.FramesAtMost(s.down.pushed, FrameBound(c))
    ensures FramesFit(c, s)
  {
    ReachableInv(c, s);
    assert IdsOk(s.nid, s.drafts, s.up.pushed);
  }

  lemma SourceAllAnsweredIff(c: Config, s: Session)
    requires Reachable(c, s) && c.pipe == P.SOURCE_CONFIG && c.callers <= 1 && !s.crashed
    requires P.FramesAtMost(s.down.pushed, 4096 * 1024 - 511)
    ensures (forall steps | RunsToRest(c, s, steps) :: AllAnswered(s, Run(s, steps))) <==> AllRegistered(s)
  {
    SourceFramesFit(c, s);
    AllAnsweredIff(c, s);
  }
}
