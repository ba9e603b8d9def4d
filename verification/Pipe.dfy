/** One direction of a connection as a step system: the outbound queue, the bytes in the socket, the
    chunk a receive thread holds, the byte queue, and the frames the decode thread has fetched. */
module Pipe {
  import opened Sequences
  import opened Wire

  /** The byte queue's capacity and the most bytes one ReceiveData call returns. */
  datatype Config = Config(capacity: nat, chunk: nat)

  /** The constants of both endpoints. */
  const SOURCE_CONFIG := Config(4096 * 1024, 512)

  /** `out`, `wire`, `hand` and `buf` are the state; `pushed`, `sent` and `got` record history:
      every message pushed, how many of them were written, and every message decoded. */
  datatype Pipe = Pipe(
    out: seq<Message>, wire: seq<byte>, hand: seq<byte>, buf: seq<byte>,
    pushed: seq<Message>, sent: nat, got: seq<Message>)

  datatype Step =
    | Push(m: Message)
    | Send
    | Receive(n: nat)
    | Add
    | FetchOne

  const EMPTY := Pipe([], [], [], [], [], 0, [])

  predicate Enabled(c: Config, p: Pipe, step: Step) {
    match step
    case Push(m) => Sendable(m)
    case Send => p.out != []
    case Receive(n) => p.hand == [] && 0 < n <= c.chunk && n <= |p.wire|
    case Add => p.hand != [] && |p.buf| + |p.hand| <= c.capacity
    case FetchOne => FetchNext(p.buf).Fetched?
  }

  function Apply(p: Pipe, step: Step): Pipe {
    match step
    case Push(m) => p.(out := p.out + [m], pushed := p.pushed + [m])
    case Send =>
      if p.out == [] then p
      else p.(out := p.out[1..], wire := p.wire + Frame(p.out[0]), sent := p.sent + 1)
    case Receive(n) =>
      if n > |p.wire| then p else p.(wire := p.wire[n..], hand := p.wire[..n])
    case Add => p.(hand := [], buf := p.buf + p.hand)
    case FetchOne =>
      match FetchNext(p.buf)
      case Fetched(body, rest) =>
        (match DecodeBody(body)
         case Some(m) => p.(buf := rest, got := p.got + [m])
         case None => p.(buf := rest))
      case _ => p
  }

  predicate Legal(c: Config, p: Pipe, steps: seq<Step>)
    decreases |steps|
  {
    steps == [] || (Enabled(c, p, steps[0]) && Legal(c, Apply(p, steps[0]), steps[1..]))
  }

  function Run(p: Pipe, steps: seq<Step>): Pipe
    decreases |steps|
  {
    if steps == [] then p else Run(Apply(p, steps[0]), steps[1..])
  }

  lemma {:induction false} RunAppend(c: Config, p: Pipe, first: seq<Step>, second: seq<Step>)
    ensures Run(p, first + second) == Run(Run(p, first), second)
    ensures Legal(c, p, first + second) <==> Legal(c, p, first) && Legal(c, Run(p, first), second)
    decreases |first|
  {
    if first == [] {
      assert first + second == second;
    } else {
      assert (first + second)[1..] == first[1..] + second;
      RunAppend(c, Apply(p, first[0]), first[1..], second);
    }
  }

  lemma RunExtend(c: Config, p: Pipe, steps: seq<Step>, step: Step)
    ensures Run(p, steps + [step]) == Apply(Run(p, steps), step)
    ensures Legal(c, p, steps + [step]) <==> Legal(c, p, steps) && Enabled(c, Run(p, steps), step)
  {
    RunAppend(c, p, steps, [step]);
    var q := Run(p, steps);
    assert Run(q, [step]) == Run(Apply(q, step), []);
    assert Legal(c, q, [step]) <==> Enabled(c, q, step);
  }

  // ---------------------------------------------------------------- the framing invariant

  /** Messages decoded, re-encoded, followed by every byte still under way, are the bytes sent. */
  predicate Inv(c: Config, p: Pipe) {
    && AllSendable(p.pushed)
    && |p.got| <= p.sent <= |p.pushed|
    && p.got == p.pushed[..|p.got|]
    && p.out == p.pushed[p.sent..]
    && p.buf + p.hand + p.wire == Stream(p.pushed[|p.got|..p.sent])
    && |p.buf| <= c.capacity
    && |p.hand| <= c.chunk
  }

  lemma InvSend(c: Config, p: Pipe)
    requires Inv(c, p) && p.out != []
    ensures Inv(c, Apply(p, Send))
  {
    var m := p.out[0];
    assert m == p.pushed[p.sent];
    var flight := p.pushed[|p.got|..p.sent];
    assert p.pushed[|p.got|..p.sent + 1] == flight + [m];
    StreamPush(flight, m);
    assert p.buf + p.hand + (p.wire + Frame(m)) == p.buf + p.hand + p.wire + Frame(m);
  }

  /** The next message fetched is always the next one pushed. */
  lemma FetchIsNextPushed(c: Config, p: Pipe)
    requires Inv(c, p)
    ensures !FetchNext(p.buf).Corrupt?
    ensures Enabled(c, p, FetchOne) ==>
              && |p.got| < p.sent
              && Apply(p, FetchOne) == p.(buf := FetchNext(p.buf).rest, got := p.got + [p.pushed[|p.got|]])
              && |FetchNext(p.buf).rest| == |p.buf| - FrameSize(p.pushed[|p.got|])
              && FetchNext(p.buf).rest + p.hand + p.wire == Stream(p.pushed[|p.got| + 1..p.sent])
  {
    var flight := p.pushed[|p.got|..p.sent];
    assert p.buf + (p.hand + p.wire) == p.buf + p.hand + p.wire;
    FetchTakesFirstMessage(p.buf, p.hand + p.wire, flight);
    if Enabled(c, p, FetchOne) {
      assert flight[1..] == p.pushed[|p.got| + 1..p.sent];
      var rest := FetchNext(p.buf).rest;
      assert rest + (p.hand + p.wire) == rest + p.hand + p.wire;
    }
  }

  lemma InvStep(c: Config, p: Pipe, step: Step)
    requires Inv(c, p) && Enabled(c, p, step)
    ensures Inv(c, Apply(p, step))
  {
    var p' := Apply(p, step);
    match step {
      case Push(m) =>
        assert p'.pushed[|p.got|..p.sent] == p.pushed[|p.got|..p.sent];
        assert p'.pushed[p.sent..] == p.pushed[p.sent..] + [m];
        assert p'.pushed[..|p.got|] == p.pushed[..|p.got|];
      case Send => InvSend(c, p);
      case Receive(n) => assert p'.buf + p'.hand + p'.wire == p.buf + p.hand + p.wire;
      case Add => assert p'.buf + p'.hand + p'.wire == p.buf + p.hand + p.wire;
      case FetchOne =>
        FetchIsNextPushed(c, p);
        assert p'.got == p.pushed[..|p.got| + 1];
    }
  }

  lemma {:induction false} InvRun(c: Config, p: Pipe, steps: seq<Step>)
    requires Inv(c, p) && Legal(c, p, steps)
    ensures Inv(c, Run(p, steps))
    decreases |steps|
  {
    if steps != [] {
      InvStep(c, p, steps[0]);
      InvRun(c, Apply(p, steps[0]), steps[1..]);
    }
  }

  lemma StreamHoldsFirstFrame(ms: seq<Message>)
    ensures ms != [] ==> |Stream(ms)| >= FrameSize(ms[0])
    ensures ms == [] ==> Stream(ms) == []
  {
    if ms != [] {
      assert |Frame(ms[0])| == FrameSize(ms[0]);
    }
  }

  /** Framing does not depend on chunking: however sends, receives, additions and fetches interleave
      and however the bytes are cut, the decoded messages are a prefix of the pushed ones, in order,
      and all of them once nothing is queued or under way. */
  lemma FramingIsChunkIndependent(c: Config, steps: seq<Step>)
    requires Legal(c, EMPTY, steps)
    ensures var p := Run(EMPTY, steps);
            && p.got <= p.pushed
            && Stream(p.got) + p.buf + p.hand + p.wire + Stream(p.out) == Stream(p.pushed)
            && (p.out == [] && p.buf == [] && p.hand == [] && p.wire == [] ==> p.got == p.pushed)
  {
    InvRun(c, EMPTY, steps);
    var p := Run(EMPTY, steps);
    var flight := p.pushed[|p.got|..p.sent];
    assert p.pushed == (p.got + flight) + p.out;
    StreamAppend(p.got + flight, p.out);
    StreamAppend(p.got, flight);
    assert Stream(p.got) + (p.buf + p.hand + p.wire) == Stream(p.got) + p.buf + p.hand + p.wire;
    StreamHoldsFirstFrame(flight);
  }

  // ---------------------------------------------------------------- deadlock freedom and its bound

  /** A step of one of the three threads, as opposed to a new Push by a caller. */
  predicate Internal(step: Step) { !step.Push? }

  ghost predicate Stuck(c: Config, p: Pipe) {
    forall step | Internal(step) :: !Enabled(c, p, step)
  }

  predicate FramesAtMost(ms: seq<Message>, bound: int) {
    forall i :: 0 <= i < |ms| ==> FrameSize(ms[i]) <= bound
  }

  /** What is left to do; every thread step does some of it. */
  function Work(p: Pipe): nat {
    4 * |Stream(p.out)| + 3 * |p.wire| + 2 * |p.hand| + |p.buf|
  }

  lemma WorkDecreases(c: Config, p: Pipe, step: Step)
    requires Inv(c, p) && Internal(step) && Enabled(c, p, step)
    ensures Work(Apply(p, step)) < Work(p)
  {
    if step.Send? {
      assert |Frame(p.out[0])| == FrameSize(p.out[0]);
    } else if step.FetchOne? {
      FetchIsNextPushed(c, p);
    }
  }

  /** If every frame leaves room for one byte less than a chunk, threads that cannot move have
      delivered everything. */
  lemma StuckMeansDelivered(c: Config, p: Pipe)
    requires Inv(c, p) && c.chunk > 0 && Stuck(c, p)
    requires FramesAtMost(p.pushed, c.capacity - c.chunk + 1)
    ensures p.got == p.pushed
  {
    var flight := p.pushed[|p.got|..p.sent];
    assert flight != [] ==> flight[0] == p.pushed[|p.got|];
    assert !Enabled(c, p, Send) && !Enabled(c, p, Add) && !Enabled(c, p, FetchOne);
    assert p.buf + (p.hand + p.wire) == p.buf + p.hand + p.wire;
    FetchTakesFirstMessage(p.buf, p.hand + p.wire, flight);
    StreamHoldsFirstFrame(flight);
    assert !Enabled(c, p, Receive(1));
  }

  /** Delivery finishes: under the bound, a run of thread steps is no longer than the work it starts
      with, and one that cannot be continued has decoded every pushed message. */
  lemma {:induction false} DeliveryFinishes(c: Config, p: Pipe, steps: seq<Step>)
    requires Inv(c, p) && c.chunk > 0 && FramesAtMost(p.pushed, c.capacity - c.chunk + 1)
    requires Legal(c, p, steps) && forall i :: 0 <= i < |steps| ==> Internal(steps[i])
    ensures |steps| <= Work(p)
    ensures Run(p, steps).pushed == p.pushed
    ensures Stuck(c, Run(p, steps)) ==> Run(p, steps).got == p.pushed
    decreases |steps|
  {
    if steps == [] {
      if Stuck(c, p) { StuckMeansDelivered(c, p); }
    } else {
      assert Internal(steps[0]);
      InvStep(c, p, steps[0]);
      WorkDecreases(c, p, steps[0]);
      DeliveryFinishes(c, Apply(p, steps[0]), steps[1..]);
    }
  }

  /** No run whose frames are at most `bound` bytes strands a message. */
  ghost predicate NeverDeadlocks(c: Config, bound: int) {
    forall steps | Legal(c, EMPTY, steps) ::
      var p := Run(EMPTY, steps);
      FramesAtMost(p.pushed, bound) && Stuck(c, p) ==> p.got == p.pushed
  }

  lemma {:induction false} StreamOfCopies(m: Message, n: nat)
    ensures |Stream(Copies(m, n))| >= n
  {
    if n > 0 {
      StreamOfCopies(m, n - 1);
      StreamPush(Copies(m, n - 1), m);
    }
  }

  /** Pushing and writing `n` copies of `m`. */
  lemma {:induction false} LoadWire(c: Config, m: Message, n: nat) returns (steps: seq<Step>)
    requires Sendable(m)
    ensures Legal(c, EMPTY, steps)
    ensures Run(EMPTY, steps) == Pipe([], Stream(Copies(m, n)), [], [], Copies(m, n), n, [])
  {
    if n == 0 {
      steps := [];
    } else {
      var before := LoadWire(c, m, n - 1);
      RunExtend(c, EMPTY, before, Push(m));
      RunExtend(c, EMPTY, before + [Push(m)], Send);
      steps := before + [Push(m)] + [Send];
      StreamPush(Copies(m, n - 1), m);
    }
  }

  /** Moving `n` bytes into the byte queue one at a time. */
  lemma {:induction false} Pump(c: Config, p: Pipe, n: nat) returns (steps: seq<Step>)
    requires c.chunk > 0 && p.hand == [] && n <= |p.wire| && |p.buf| + n <= c.capacity
    ensures Legal(c, p, steps)
    ensures Run(p, steps) == p.(wire := p.wire[n..], buf := p.buf + p.wire[..n])
  {
    if n == 0 {
      steps := [];
      assert p.buf + p.wire[..0] == p.buf;
    } else {
      var before := Pump(c, p, n - 1);
      RunExtend(c, p, before, Receive(1));
      RunExtend(c, p, before + [Receive(1)], Add);
      steps := before + [Receive(1)] + [Add];
      assert p.wire[n - 1..][1..] == p.wire[n..];
      assert (p.buf + p.wire[..n - 1]) + p.wire[n - 1..][..1] == p.buf + p.wire[..n];
    }
  }

  /** A buffer that can take neither the chunk in hand nor complete its first frame. */
  lemma Wedged(c: Config, p: Pipe)
    requires Inv(c, p) && p.out == [] && p.hand != []
    requires |p.buf| + |p.hand| > c.capacity
    requires p.sent > |p.got| && |p.buf| < FrameSize(p.pushed[|p.got|])
    ensures Stuck(c, p)
  {
    var flight := p.pushed[|p.got|..p.sent];
    assert p.buf + (p.hand + p.wire) == p.buf + p.hand + p.wire;
    FetchTakesFirstMessage(p.buf, p.hand + p.wire, flight);
  }

  /** From a wire of whole frames, `held` bytes in the buffer and then a chunk in hand. */
  lemma FillAndHold(c: Config, m: Message, n: nat, held: nat) returns (steps: seq<Step>)
    requires Sendable(m) && c.chunk > 0 && held <= c.capacity && held + c.chunk <= n
    ensures Legal(c, EMPTY, steps)
    ensures var p := Run(EMPTY, steps);
            && p.out == [] && |p.buf| == held && |p.hand| == c.chunk && p.got == []
            && p.pushed == Copies(m, n) && p.sent == n
  {
    StreamOfCopies(m, n);
    var load := LoadWire(c, m, n);
    var pump := Pump(c, Run(EMPTY, load), held);
    RunAppend(c, EMPTY, load, pump);
    RunExtend(c, EMPTY, load + pump, Receive(c.chunk));
    steps := load + pump + [Receive(c.chunk)];
  }

  /** Beyond the bound the three threads can block each other for ever. */
  lemma DeadlockBeyondBound(c: Config, bound: nat)
    requires c.chunk > 0 && FRAME_OVERHEAD < bound < TWO_TO_THE_31 && bound > c.capacity - c.chunk + 1
    ensures !NeverDeadlocks(c, bound)
  {
    var held := if c.chunk <= c.capacity then c.capacity - c.chunk + 1 else 0;
    var m := Message(0, 0, Copies(0, bound - FRAME_OVERHEAD));
    var steps := FillAndHold(c, m, c.capacity + c.chunk + 1, held);
    InvRun(c, EMPTY, steps);
    Wedged(c, Run(EMPTY, steps));
  }

  /** The exact capacity rule: with chunks of at most `c.chunk` bytes, frames of up to `bound` bytes are
      always delivered if and only if `bound` is at most capacity - chunk + 1. */
  lemma DeadlockFreeIff(c: Config, bound: nat)
    requires c.chunk > 0 && FRAME_OVERHEAD < bound < TWO_TO_THE_31
    ensures NeverDeadlocks(c, bound) <==> bound <= c.capacity - c.chunk + 1
  {
    if bound <= c.capacity - c.chunk + 1 {
      forall steps | Legal(c, EMPTY, steps)
        ensures var p := Run(EMPTY, steps);
                FramesAtMost(p.pushed, bound) && Stuck(c, p) ==> p.got == p.pushed
      {
        InvRun(c, EMPTY, steps);
        var p := Run(EMPTY, steps);
        if FramesAtMost(p.pushed, bound) && Stuck(c, p) { StuckMeansDelivered(c, p); }
      }
    } else {
      DeadlockBeyondBound(c, bound);
    }
  }
}
