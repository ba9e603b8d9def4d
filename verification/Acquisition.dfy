/**
  The acquisition service: its channel registry, the analog (AI) and counter
  (CI) acquisitions, the event-loop threads and the queue of count
  differences. Each call of the interface, each hardware callback and each
  round of the DCS event loop is one step.
*/
module Acquisition {
  import opened Sequences
  import opened Wire
  import Peaks

  const SENTINEL: nat := TWO_TO_THE_64 - 1

  datatype Kind = Voltage | Counter | PulseTrain

  datatype Channel = Channel(hardware: string, kind: Kind)

  type Channels = map<string, Channel>

  // ---------------------------------------------------------------------
  // Event-loop threads
  // ---------------------------------------------------------------------

  /**
    The thread pointers as they are kept, next to what became of the threads:
    a pointer is never cleared, so it may name a thread that was joined.
    `bad` records a join through a pointer that names no running thread.
  */
  datatype Threads = Threads(
    dcs: Option<nat>, mca: Option<nat>, cli: Option<nat>, mcaMode: bool,
    created: nat, live: set<nat>, joined: seq<nat>, bad: bool)

  const NO_THREADS := Threads(None, None, None, false, 0, {}, [], false)

  function Spawn(t: Threads): Threads {
    t.(created := t.created + 1, live := t.live + {t.created})
  }

  function Join(t: Threads, thread: Option<nat>): Threads {
    if thread.Some? && thread.value in t.live
    then t.(live := t.live - {thread.value}, joined := t.joined + [thread.value])
    else t.(bad := true)
  }

  function StartLoop(t: Threads, mcaChannels: nat): Threads {
    var t0 := t.(mcaMode := mcaChannels > 0);
    var t1 := Spawn(t0).(dcs := Some(t0.created));
    var t2 := if t1.mcaMode then Spawn(t1).(mca := Some(t1.created)) else t1;
    Spawn(t2).(cli := Some(t2.created))
  }

  function StopLoop(t: Threads): Threads {
    var t1 := Join(t, t.dcs);
    var t2 := if t.mcaMode then Join(t1, t.mca) else t1;
    Join(t2, t.cli)
  }

  // ---------------------------------------------------------------------
  // State and steps
  // ---------------------------------------------------------------------

  /** `queue` feeds the DCS event loop with counts, `mcaQueue` the MCA event loop with the peaks of a packet,
      each only while the client listens to its event. */
  datatype Feed = Feed(subscribed: bool, queue: seq<nat>, mcaSubscribed: bool, mcaQueue: seq<seq<Peaks.Peak>>)

  /** `fault` is the integer division by zero of an AI start without a voltage channel. */
  datatype State = State(
    channels: Channels, threads: Threads, mcaChannels: nat,
    ai: bool, aiTask: set<string>, perChannel: nat,
    ci: bool, usingPtg: bool, ptgTask: bool, lastCount: nat,
    feed: Feed, fault: bool)

  const INITIAL := State(map[], NO_THREADS, 2048, false, {}, 0, false, false, false, 0, Feed(false, [], false, []), false)

  /**
    Subscribe and SubscribeMca say whether the client listens to the DCS and
    the MCA event. VoltageEvent and CountEvent are the hardware callbacks with
    their packet of samples and the last counter value of the packet. DcsPass
    and McaPass are rounds of the event loops that find their queue filled.
  */
  datatype Op =
    | NewChannel(name: string, channel: Channel)
    | DeleteChannel(name: string)
    | StartAI | StopAI | StartCI | StopCI
    | SetMcaChannels(n: nat)
    | Subscribe(on: bool)
    | SubscribeMca(on: bool)
    | VoltageEvent(samples: seq<real>)
    | CountEvent(reading: nat)
    | DcsPass
    | McaPass

  predicate WellFormed(op: Op) {
    match op
    case SetMcaChannels(n) => n < 0x1_0000
    case VoltageEvent(samples) => |samples| == Peaks.PACKET_SIZE
    case CountEvent(reading) => reading < TWO_TO_THE_32
    case _ => true
  }

  function Named(channels: Channels, kind: Kind): set<string> {
    set name <- channels | channels[name].kind == kind
  }

  function Hardware(channels: Channels, kind: Kind): set<string> {
    set name <- channels | channels[name].kind == kind :: channels[name].hardware
  }

  predicate InUse(channels: Channels, name: string, hardware: string) {
    name in channels || exists other <- channels :: channels[other].hardware == hardware
  }

  function Difference(reading: nat, lastCount: nat): nat {
    (reading - lastCount) % TWO_TO_THE_64
  }

  function PeakCount(samples: seq<real>): nat {
    |PacketPeaks(samples)|
  }

  function PacketPeaks(samples: seq<real>): seq<Peaks.Peak> {
    Peaks.Peaks(samples, 0.2, 10.0)
  }

  function Pushed(f: Feed, count: nat): Feed {
    if f.subscribed then f.(queue := f.queue + [count]) else f
  }

  /** The event loop and the task exist before the division. */
  function StartedAI(s: State): State {
    var count := |Named(s.channels, Voltage)|;
    var t := s.(threads := StartLoop(s.threads, s.mcaChannels), aiTask := Hardware(s.channels, Voltage));
    if count == 0 then t.(fault := true) else t.(perChannel := Peaks.PACKET_SIZE / count, ai := true)
  }

  function McaPushed(f: Feed, peaks: seq<Peaks.Peak>): Feed {
    if f.mcaSubscribed then f.(mcaQueue := f.mcaQueue + [peaks]) else f
  }

  predicate McaRuns(s: State) {
    s.ai && s.threads.mcaMode
  }

  function StartedCI(s: State): State {
    var ptg := s.usingPtg || Named(s.channels, PulseTrain) != {};
    s.(threads := StartLoop(s.threads, 0), ci := true, lastCount := 0, usingPtg := ptg, ptgTask := s.ptgTask || ptg)
  }

  function StoppedCI(s: State): State {
    s.(threads := StopLoop(s.threads), ci := false, ptgTask := s.ptgTask && !s.usingPtg, usingPtg := false)
  }

  function Perform(s: State, op: Op): State {
    match op
    case NewChannel(name, channel) =>
      if InUse(s.channels, name, channel.hardware) then s else s.(channels := s.channels[name := channel])
    case DeleteChannel(name) => s.(channels := s.channels - {name})
    case StartAI => if s.ci || s.ai then s else StartedAI(s)
    case StopAI => if s.ai then s.(threads := StopLoop(s.threads), ai := false) else s
    case StartCI => if s.ai || s.ci then s else StartedCI(s)
    case StopCI => if s.ci then StoppedCI(s) else s
    case SetMcaChannels(n) => s.(mcaChannels := n)
    case Subscribe(on) => s.(feed := s.feed.(subscribed := on))
    case SubscribeMca(on) => s.(feed := s.feed.(mcaSubscribed := on))
    case VoltageEvent(samples) =>
      if s.ai then s.(feed := McaPushed(Pushed(s.feed, PeakCount(samples)), PacketPeaks(samples))) else s
    case CountEvent(reading) =>
      if s.ci then s.(feed := Pushed(s.feed, Difference(reading, s.lastCount)), lastCount := reading) else s
    case DcsPass =>
      if (s.ai || s.ci) && s.feed.queue != [] then s.(feed := s.feed.(queue := s.feed.queue[1..])) else s
    case McaPass =>
      if McaRuns(s) && s.feed.mcaQueue != [] then s.(feed := s.feed.(mcaQueue := s.feed.mcaQueue[1..])) else s
  }

  function After(s: State, op: Op): State {
    if s.fault then s else Perform(s, op)
  }

  function Run(ops: seq<Op>): State {
    if ops == [] then INITIAL else After(Run(ops[..|ops| - 1]), ops[|ops| - 1])
  }

  // ---------------------------------------------------------------------
  // Safety of every run
  // ---------------------------------------------------------------------

  ghost predicate DistinctHardware(channels: Channels) {
    forall a, b | a in channels && b in channels && a != b :: channels[a].hardware != channels[b].hardware
  }

  /** The threads that the pointers name while a loop runs. */
  function Current(t: Threads): set<nat> {
    (if t.dcs.Some? then {t.dcs.value} else {})
    + (if t.mcaMode && t.mca.Some? then {t.mca.value} else {})
    + (if t.cli.Some? then {t.cli.value} else {})
  }

  /** Every thread ever created is either live or joined, and joined once. */
  ghost predicate Accounted(t: Threads) {
    && (forall id :: id in t.live || id in t.joined <==> 0 <= id < t.created)
    && (forall id :: !(id in t.live && id in t.joined))
    && (forall i, j | 0 <= i < j < |t.joined| :: t.joined[i] != t.joined[j])
  }

  ghost predicate ThreadsOk(t: Threads, running: bool) {
    && !t.bad && Accounted(t)
    && (running ==> t.live == Current(t) && |t.live| == if t.mcaMode then 3 else 2)
    && (running ==> t.dcs.Some? && t.cli.Some? && t.dcs != t.cli)
    && (running && t.mcaMode ==> t.mca.Some? && t.mca != t.dcs && t.mca != t.cli)
    && (!running ==> t.live == {})
  }

  ghost predicate PacketFits(ai: bool, aiTask: set<string>, perChannel: nat) {
    ai ==> aiTask != {} && perChannel * |aiTask| <= Peaks.PACKET_SIZE < (perChannel + 1) * |aiTask|
  }

  ghost predicate Safe(s: State) {
    && !(s.ai && s.ci)
    && (s.usingPtg ==> s.ci) && s.ptgTask == s.usingPtg
    && DistinctHardware(s.channels)
    && ThreadsOk(s.threads, s.ai || s.ci || s.fault)
    && (s.ci ==> !s.threads.mcaMode)
    && PacketFits(s.ai, s.aiTask, s.perChannel)
  }

  lemma SpawnAccounted(t: Threads)
    requires Accounted(t)
    ensures Accounted(Spawn(t)) && t.created !in t.live
  {
  }

  lemma StartLoopOk(t: Threads, n: nat)
    requires ThreadsOk(t, false)
    ensures ThreadsOk(StartLoop(t, n), true) && StartLoop(t, n).mcaMode == (n > 0)
  {
    var t0 := t.(mcaMode := n > 0);
    var t1 := Spawn(t0).(dcs := Some(t0.created));
    var t2 := if t1.mcaMode then Spawn(t1).(mca := Some(t1.created)) else t1;
    SpawnAccounted(t0);
    SpawnAccounted(t1);
    SpawnAccounted(t2);
    assert Accounted(StartLoop(t, n));
    assert t1.live == {t.created};
    assert StartLoop(t, n).live == if n > 0 then {t.created, t.created + 1, t.created + 2} else {t.created, t.created + 1};
  }

  lemma JoinAccounted(t: Threads, thread: Option<nat>)
    requires Accounted(t) && !t.bad && thread.Some? && thread.value in t.live
    ensures Accounted(Join(t, thread)) && !Join(t, thread).bad
  {
    var u := Join(t, thread);
    forall id ensures id in u.joined <==> id in t.joined || id == thread.value {
    }
  }

  lemma StopLoopOk(t: Threads)
    requires ThreadsOk(t, true)
    ensures ThreadsOk(StopLoop(t), false)
  {
    JoinAccounted(t, t.dcs);
    var t1 := Join(t, t.dcs);
    if t.mcaMode { JoinAccounted(t1, t.mca); }
    var t2 := if t.mcaMode then Join(t1, t.mca) else t1;
    JoinAccounted(t2, t.cli);
  }

  lemma {:induction false} ImageSize(names: set<string>, channels: Channels)
    requires DistinctHardware(channels) && names <= channels.Keys
    ensures |set name <- names :: channels[name].hardware| == |names|
  {
    if names != {} {
      var one :| one in names;
      var rest := names - {one};
      ImageSize(rest, channels);
      assert (set name <- names :: channels[name].hardware)
          == (set name <- rest :: channels[name].hardware) + {channels[one].hardware};
    }
  }

  /** Distinct hardware names: the task has as many channels as the registry counts. */
  lemma HardwareCount(channels: Channels, kind: Kind)
    requires DistinctHardware(channels)
    ensures |Hardware(channels, kind)| == |Named(channels, kind)|
  {
    var names := Named(channels, kind);
    ImageSize(names, channels);
    assert Hardware(channels, kind) == set name <- names :: channels[name].hardware;
  }

  lemma StartAISafe(s: State)
    requires Safe(s) && !s.ai && !s.ci && !s.fault
    ensures Safe(StartedAI(s))
  {
    StartLoopOk(s.threads, s.mcaChannels);
    HardwareCount(s.channels, Voltage);
    var count := |Named(s.channels, Voltage)|;
    if count > 0 { Shared(count); }
  }

  /** The samples of a packet shared among `count` channels. */
  lemma Shared(count: nat)
    requires count > 0
    ensures Peaks.PACKET_SIZE / count * count <= Peaks.PACKET_SIZE < (Peaks.PACKET_SIZE / count + 1) * count
  {
  }

  lemma StartCISafe(s: State)
    requires Safe(s) && !s.ai && !s.ci && !s.fault
    ensures Safe(StartedCI(s))
  {
    StartLoopOk(s.threads, 0);
  }

  lemma StopSafe(s: State)
    requires Safe(s) && !s.fault
    ensures s.ai ==> Safe(s.(threads := StopLoop(s.threads), ai := false))
    ensures s.ci ==> Safe(StoppedCI(s))
  {
    if s.ai || s.ci { StopLoopOk(s.threads); }
  }

  lemma RegistrySafe(channels: Channels, name: string, channel: Channel)
    requires DistinctHardware(channels)
    ensures DistinctHardware(channels - {name})
    ensures !InUse(channels, name, channel.hardware) ==> DistinctHardware(channels[name := channel])
  {
  }

  lemma StartSafe(s: State, op: Op)
    requires Safe(s) && !s.fault && (op.StartAI? || op.StartCI?)
    ensures Safe(After(s, op))
  {
    if !s.ai && !s.ci {
      if op.StartAI? {
        StartAISafe(s);
        assert After(s, op) == StartedAI(s);
      } else {
        StartCISafe(s);
        assert After(s, op) == StartedCI(s);
      }
    } else {
      assert After(s, op) == s;
    }
  }

  lemma StopCallSafe(s: State, op: Op)
    requires Safe(s) && !s.fault && (op.StopAI? || op.StopCI?)
    ensures Safe(After(s, op))
  {
    StopSafe(s);
    if op.StopAI? && s.ai {
      assert After(s, op) == s.(threads := StopLoop(s.threads), ai := false);
    } else if op.StopCI? && s.ci {
      assert After(s, op) == StoppedCI(s);
    } else {
      assert After(s, op) == s;
    }
  }

  lemma ChannelsSafe(s: State, channels: Channels)
    requires Safe(s) && DistinctHardware(channels)
    ensures Safe(s.(channels := channels))
  {
  }

  lemma RegistrationSafe(s: State, op: Op)
    requires Safe(s) && !s.fault && (op.NewChannel? || op.DeleteChannel?)
    ensures Safe(After(s, op))
  {
    RegistrySafe(s.channels, op.name, if op.NewChannel? then op.channel else Channel("", Voltage));
    ChannelsSafe(s, After(s, op).channels);
  }

  lemma SafeAfter(s: State, op: Op)
    requires Safe(s)
    ensures Safe(After(s, op))
  {
    if s.fault {
    } else if op.StartAI? || op.StartCI? {
      StartSafe(s, op);
    } else if op.StopAI? || op.StopCI? {
      StopCallSafe(s, op);
    } else if op.NewChannel? || op.DeleteChannel? {
      RegistrationSafe(s, op);
    } else {
      SafeFrame(s, After(s, op));
    }
  }

  /** Safety does not depend on the queues, the last count or the MCA setting. */
  lemma SafeFrame(s: State, t: State)
    requires Safe(s) && t == s.(feed := t.feed, lastCount := t.lastCount, mcaChannels := t.mcaChannels)
    ensures Safe(t)
  {
  }

  /** Safe holds in every state that any sequence of steps can reach. */
  lemma {:induction false} EveryRunSafe(ops: seq<Op>)
    ensures Safe(Run(ops))
  {
    if ops != [] {
      EveryRunSafe(ops[..|ops| - 1]);
      SafeAfter(Run(ops[..|ops| - 1]), ops[|ops| - 1]);
    }
  }

  /** An AI start that passes both guards while no voltage channel is registered. */
  predicate StartsEmpty(s: State, op: Op) {
    op.StartAI? && !s.ai && !s.ci && Named(s.channels, Voltage) == {}
  }

  lemma FaultStep(s: State, op: Op)
    ensures After(s, op).fault <==> s.fault || StartsEmpty(s, op)
  {
  }

  predicate StartsEmptyAt(ops: seq<Op>, k: nat)
    requires k < |ops|
  {
    StartsEmpty(Run(ops[..k]), ops[k])
  }

  lemma StartsEmptyPrefix(ops: seq<Op>, n: nat, k: nat)
    requires k < n <= |ops|
    ensures StartsEmptyAt(ops[..n], k) == StartsEmptyAt(ops, k)
  {
    assert ops[..n][..k] == ops[..k];
  }

  /** A run faults exactly when one of its steps starts AI without a voltage channel. */
  lemma {:induction false} FaultIff(ops: seq<Op>)
    ensures Run(ops).fault <==> exists k: nat :: k < |ops| && StartsEmptyAt(ops, k)
  {
    if ops != [] {
      var n := |ops| - 1;
      FaultIff(ops[..n]);
      FaultStep(Run(ops[..n]), ops[n]);
      assert StartsEmptyAt(ops, n) == StartsEmpty(Run(ops[..n]), ops[n]);
      forall k: nat | k < n ensures StartsEmptyAt(ops[..n], k) == StartsEmptyAt(ops, k) {
        StartsEmptyPrefix(ops, n, k);
      }
    }
  }

  // ---------------------------------------------------------------------
  // Conservation of counts
  // ---------------------------------------------------------------------

  /**
    What happened so far: the counter readings of each CI acquisition, for
    each AI packet its number of maximal runs of samples above 0.2 V that stay
    at or below 10 V, the counts handed to emission, the counts
    that came while nobody listened, and how many queue entries equal the
    marker value and were skipped by the event loop.
  */
  datatype History = History(
    readings: seq<seq<nat>>, peaks: seq<nat>, emitted: seq<nat>, unheard: seq<nat>, skipped: nat)

  function Missed(h: History, s: State, count: nat): seq<nat> {
    if s.feed.subscribed then h.unheard else h.unheard + [count]
  }

  function WithReading(readings: seq<seq<nat>>, reading: nat): seq<seq<nat>>
    requires readings != []
  {
    var n := |readings| - 1;
    readings[..n] + [readings[n] + [reading]]
  }

  ghost function Noted(h: History, s: State, op: Op): History {
    if s.fault then h else
    match op
    case StartCI => if s.ai || s.ci then h else h.(readings := h.readings + [[]])
    case VoltageEvent(samples) =>
      if s.ai
      then h.(peaks := h.peaks + [|Peaks.CleanRuns(samples, 0.2, 10.0)|], unheard := Missed(h, s, PeakCount(samples)))
      else h
    case CountEvent(reading) =>
      if s.ci && h.readings != []
      then h.(readings := WithReading(h.readings, reading), unheard := Missed(h, s, Difference(reading, s.lastCount)))
      else h
    case DcsPass =>
      if (s.ai || s.ci) && s.feed.queue != []
      then if s.feed.queue[0] == SENTINEL then h.(skipped := h.skipped + 1) else h.(emitted := h.emitted + [s.feed.queue[0]])
      else h
    case _ => h
  }

  ghost function Past(ops: seq<Op>): History {
    if ops == [] then History([], [], [], [], 0)
    else Noted(Past(ops[..|ops| - 1]), Run(ops[..|ops| - 1]), ops[|ops| - 1])
  }

  function Sum(ns: seq<nat>): nat {
    if ns == [] then 0 else Sum(ns[..|ns| - 1]) + ns[|ns| - 1]
  }

  function LastOf(acquisition: seq<nat>): nat {
    if acquisition == [] then 0 else acquisition[|acquisition| - 1]
  }

  /** The sum over the CI acquisitions of their last reading. */
  function LastReadings(readings: seq<seq<nat>>): nat {
    if readings == [] then 0 else LastReadings(readings[..|readings| - 1]) + LastOf(readings[|readings| - 1])
  }

  predicate NonDecreasing(acquisition: seq<nat>) {
    forall i | 0 < i < |acquisition| :: acquisition[i - 1] <= acquisition[i]
  }

  predicate AllNonDecreasing(readings: seq<seq<nat>>) {
    forall acquisition <- readings :: NonDecreasing(acquisition)
  }

  /** How often a reading is below the one before it. */
  function Falls(acquisition: seq<nat>): nat {
    if acquisition == [] then 0
    else var n := |acquisition| - 1;
         Falls(acquisition[..n]) + if acquisition[n] < LastOf(acquisition[..n]) then 1 else 0
  }

  function AllFalls(readings: seq<seq<nat>>): nat {
    if readings == [] then 0 else AllFalls(readings[..|readings| - 1]) + Falls(readings[|readings| - 1])
  }

  function Markers(ns: seq<nat>): nat {
    if ns == [] then 0 else Markers(ns[..|ns| - 1]) + if ns[|ns| - 1] == SENTINEL then 1 else 0
  }

  lemma PushSums(ns: seq<nat>, n: nat)
    ensures Sum(ns + [n]) == Sum(ns) + n
    ensures Markers(ns + [n]) == Markers(ns) + if n == SENTINEL then 1 else 0
  {
    assert (ns + [n])[..|ns|] == ns;
  }

  lemma {:induction false} PopSums(ns: seq<nat>)
    requires ns != []
    ensures Sum(ns) == ns[0] + Sum(ns[1..])
    ensures Markers(ns) == (if ns[0] == SENTINEL then 1 else 0) + Markers(ns[1..])
  {
    var n := |ns| - 1;
    if n > 0 {
      PopSums(ns[..n]);
      assert ns[..n][1..] == ns[1..][..n - 1];
    }
  }

  lemma NewAcquisition(readings: seq<seq<nat>>)
    ensures LastReadings(readings + [[]]) == LastReadings(readings)
    ensures AllFalls(readings + [[]]) == AllFalls(readings)
  {
    assert (readings + [[]])[..|readings|] == readings;
  }

  lemma NewReading(readings: seq<seq<nat>>, reading: nat)
    requires readings != []
    ensures var last := LastOf(readings[|readings| - 1]); var after := WithReading(readings, reading);
            && LastOf(after[|after| - 1]) == reading
            && LastReadings(after) + last == LastReadings(readings) + reading
            && AllFalls(after) == AllFalls(readings) + if reading < last then 1 else 0
  {
    var n := |readings| - 1;
    var after := WithReading(readings, reading);
    assert after[..n] == readings[..n];
    assert (readings[n] + [reading])[..|readings[n]|] == readings[n];
  }

  function Times(unit: nat, n: nat): nat {
    if n == 0 then 0 else unit + Times(unit, n - 1)
  }

  /** The balance with wrap-around: each fall adds 2^64, and a skipped marker takes 2^64 - 1 away. */
  ghost predicate Accounts(counted: nat, read: nat, skipped: nat, falls: nat) {
    counted + Times(SENTINEL, skipped) == read + Times(TWO_TO_THE_64, falls)
  }

  lemma {:induction false} TimesGap(skipped: nat, falls: nat)
    requires skipped <= falls
    ensures Times(SENTINEL, skipped) + falls <= Times(TWO_TO_THE_64, falls)
  {
    if falls > 0 {
      TimesGap(if skipped > 0 then skipped - 1 else 0, falls - 1);
    }
  }

  lemma AccountsExactIff(counted: nat, read: nat, skipped: nat, falls: nat)
    requires Accounts(counted, read, skipped, falls) && skipped <= falls
    ensures counted == read <==> falls == 0
  {
    TimesGap(skipped, falls);
  }

  /** The counts the event loop emitted, still has to look at, or was never given. */
  function Counted(h: History, queue: seq<nat>): nat {
    Sum(h.emitted) + Sum(queue) + Sum(h.unheard)
  }

  /** The counts the hardware reported. */
  function Reported(h: History): nat {
    Sum(h.peaks) + LastReadings(h.readings)
  }

  ghost predicate LastKept(ci: bool, lastCount: nat, readings: seq<seq<nat>>) {
    ci ==> readings != [] && lastCount == LastOf(readings[|readings| - 1]) < TWO_TO_THE_32
  }

  ghost predicate QueueBalanced(h: History, queue: seq<nat>) {
    && Accounts(Counted(h, queue), Reported(h), h.skipped, AllFalls(h.readings))
    && h.skipped + Markers(queue) <= AllFalls(h.readings)
  }

  ghost predicate Balanced(h: History, s: State) {
    LastKept(s.ci, s.lastCount, h.readings) && QueueBalanced(h, s.feed.queue)
  }

  lemma DifferenceIs(reading: nat, last: nat)
    requires reading < TWO_TO_THE_32 && last < TWO_TO_THE_32
    ensures Difference(reading, last) == reading - last + if reading < last then TWO_TO_THE_64 else 0
    ensures Difference(reading, last) == SENTINEL ==> reading < last
  {
  }

  lemma CountBalanced(h: History, queue: seq<nat>, last: nat, reading: nat)
    requires QueueBalanced(h, queue) && LastKept(true, last, h.readings) && reading < TWO_TO_THE_32
    ensures var readings, d := WithReading(h.readings, reading), Difference(reading, last);
            && LastKept(true, reading, readings)
            && QueueBalanced(h.(readings := readings), queue + [d])
            && QueueBalanced(h.(readings := readings, unheard := h.unheard + [d]), queue)
  {
    var d := Difference(reading, last);
    DifferenceIs(reading, last);
    NewReading(h.readings, reading);
    PushSums(queue, d);
    PushSums(h.unheard, d);
  }

  lemma BalancedCount(h: History, s: State, reading: nat)
    requires Balanced(h, s) && s.ci && !s.fault && reading < TWO_TO_THE_32
    ensures Balanced(Noted(h, s, CountEvent(reading)), After(s, CountEvent(reading)))
  {
    CountBalanced(h, s.feed.queue, s.lastCount, reading);
    var k := Noted(h, s, CountEvent(reading));
    assert k == h.(readings := k.readings, unheard := k.unheard);
  }

  lemma PeaksBalanced(h: History, queue: seq<nat>, n: nat)
    requires QueueBalanced(h, queue) && n < SENTINEL
    ensures QueueBalanced(h.(peaks := h.peaks + [n]), queue + [n])
    ensures QueueBalanced(h.(peaks := h.peaks + [n], unheard := h.unheard + [n]), queue)
  {
    PushSums(queue, n);
    PushSums(h.unheard, n);
    PushSums(h.peaks, n);
  }

  lemma BalancedVoltage(h: History, s: State, samples: seq<real>)
    requires Balanced(h, s) && s.ai && !s.fault && |samples| == Peaks.PACKET_SIZE
    ensures Balanced(Noted(h, s, VoltageEvent(samples)), After(s, VoltageEvent(samples)))
  {
    Peaks.CountBound(samples, 0.2, 10.0);
    Peaks.PeaksCountRuns(samples, 0.2, 10.0);
    PeaksBalanced(h, s.feed.queue, PeakCount(samples));
  }

  lemma PassBalanced(h: History, queue: seq<nat>)
    requires QueueBalanced(h, queue) && queue != []
    ensures QueueBalanced(if queue[0] == SENTINEL then h.(skipped := h.skipped + 1) else h.(emitted := h.emitted + [queue[0]]),
                          queue[1..])
  {
    PopSums(queue);
    PushSums(h.emitted, queue[0]);
  }

  lemma BalancedPass(h: History, s: State)
    requires Balanced(h, s) && !s.fault
    ensures Balanced(Noted(h, s, DcsPass), After(s, DcsPass))
  {
    if (s.ai || s.ci) && s.feed.queue != [] { PassBalanced(h, s.feed.queue); }
  }

  lemma StartBalanced(h: History, queue: seq<nat>)
    requires QueueBalanced(h, queue)
    ensures QueueBalanced(h.(readings := h.readings + [[]]), queue) && LastKept(true, 0, h.readings + [[]])
  {
    NewAcquisition(h.readings);
  }

  lemma BalancedStart(h: History, s: State)
    requires Balanced(h, s) && !s.fault
    ensures Balanced(Noted(h, s, StartCI), After(s, StartCI))
  {
    if !s.ai && !s.ci {
      var t := After(s, StartCI);
      StartBalanced(h, s.feed.queue);
      assert t.ci && t.lastCount == 0 && t.feed == s.feed;
      assert Noted(h, s, StartCI) == h.(readings := h.readings + [[]]);
    }
  }

  lemma BalancedAfter(h: History, s: State, op: Op)
    requires Balanced(h, s) && WellFormed(op)
    ensures Balanced(Noted(h, s, op), After(s, op))
  {
    if !s.fault {
      match op
      case StartCI => BalancedStart(h, s);
      case CountEvent(reading) => if s.ci { BalancedCount(h, s, reading); }
      case VoltageEvent(samples) => if s.ai { BalancedVoltage(h, s, samples); }
      case DcsPass => BalancedPass(h, s);
      case _ =>
    }
  }

  lemma NothingBalanced(h: History, s: State)
    requires h.readings == [] && h.peaks == [] && h.emitted == [] && h.unheard == [] && h.skipped == 0
    requires s.feed.queue == [] && !s.ci
    ensures Balanced(h, s)
  {
  }

  lemma RunBalancedStep(ops: seq<Op>)
    requires ops != [] && WellFormed(ops[|ops| - 1])
    requires Balanced(Past(ops[..|ops| - 1]), Run(ops[..|ops| - 1]))
    ensures Balanced(Past(ops), Run(ops))
  {
    var before, op := ops[..|ops| - 1], ops[|ops| - 1];
    BalancedAfter(Past(before), Run(before), op);
  }

  lemma {:induction false} EveryRunBalanced(ops: seq<Op>)
    requires forall op <- ops :: WellFormed(op)
    ensures Balanced(Past(ops), Run(ops))
  {
    if ops == [] {
      NothingBalanced(Past(ops), Run(ops));
    } else {
      EveryRunBalanced(ops[..|ops| - 1]);
      RunBalancedStep(ops);
    }
  }

  lemma {:induction false} NoFallsIff(acquisition: seq<nat>)
    ensures Falls(acquisition) == 0 <==> NonDecreasing(acquisition)
  {
    if acquisition != [] {
      var n := |acquisition| - 1;
      NoFallsIff(acquisition[..n]);
      if n > 0 { assert LastOf(acquisition[..n]) == acquisition[n - 1]; }
    }
  }

  lemma {:induction false} NoFallsAnywhereIff(readings: seq<seq<nat>>)
    ensures AllFalls(readings) == 0 <==> AllNonDecreasing(readings)
  {
    if readings != [] {
      var n := |readings| - 1;
      NoFallsAnywhereIff(readings[..n]);
      NoFallsIff(readings[n]);
      assert readings == readings[..n] + [readings[n]];
    }
  }

  /**
    In every run, over any number of stops and restarts: what was handed to
    emission, what is still queued and what nobody listened to add up to the
    AI peak counts and the last readings of the CI acquisitions, exactly when
    the counter never falls within an acquisition.
  */
  lemma CountsConservedIff(ops: seq<Op>)
    requires forall op <- ops :: WellFormed(op)
    ensures var h := Past(ops);
            Counted(h, Run(ops).feed.queue) == Reported(h) <==> AllNonDecreasing(h.readings)
  {
    var h := Past(ops);
    EveryRunBalanced(ops);
    NoFallsAnywhereIff(h.readings);
    AccountsExactIff(Counted(h, Run(ops).feed.queue), Reported(h), h.skipped, AllFalls(h.readings));
  }

  // ---------------------------------------------------------------------
  // The packets of the MCA event loop
  // ---------------------------------------------------------------------

  /** The samples of the packets that came while an MCA listener was there, and the packets the MCA event
      loop took. */
  datatype McaHistory = McaHistory(heard: seq<seq<real>>, taken: seq<seq<Peaks.Peak>>)

  function McaNoted(h: McaHistory, s: State, op: Op): McaHistory {
    if s.fault then h
    else if op.VoltageEvent? && s.ai && s.feed.mcaSubscribed then h.(heard := h.heard + [op.samples])
    else if op.McaPass? && McaRuns(s) && s.feed.mcaQueue != [] then h.(taken := h.taken + [s.feed.mcaQueue[0]])
    else h
  }

  function McaPast(ops: seq<Op>): McaHistory {
    if ops == [] then McaHistory([], [])
    else McaNoted(McaPast(ops[..|ops| - 1]), Run(ops[..|ops| - 1]), ops[|ops| - 1])
  }

  /** The calls of the client do not touch the queues. */
  lemma QueuesKept(s: State, op: Op)
    requires !op.VoltageEvent? && !op.CountEvent? && !op.DcsPass? && !op.McaPass?
    ensures After(s, op).feed.queue == s.feed.queue && After(s, op).feed.mcaQueue == s.feed.mcaQueue
  {
    if !s.fault && !op.Subscribe? && !op.SubscribeMca? { assert After(s, op).feed == s.feed; }
  }

  lemma McaQueueAfter(s: State, op: Op)
    ensures After(s, op).feed.mcaQueue
            == if !s.fault && op.VoltageEvent? && s.ai && s.feed.mcaSubscribed then s.feed.mcaQueue + [PacketPeaks(op.samples)]
               else if !s.fault && op.McaPass? && McaRuns(s) && s.feed.mcaQueue != [] then s.feed.mcaQueue[1..]
               else s.feed.mcaQueue
  {
    if !op.VoltageEvent? && !op.CountEvent? && !op.DcsPass? && !op.McaPass? { QueuesKept(s, op); }
  }

  /** Packet i holds the peaks of the i-th heard samples. */
  ghost predicate PacketsOf(packets: seq<seq<Peaks.Peak>>, heard: seq<seq<real>>) {
    |packets| == |heard| && forall i :: 0 <= i < |heard| ==> Peaks.ArePeaks(packets[i], heard[i], 0.2, 10.0)
  }

  /** Over any number of restarts the packets the MCA event loop took, followed by those that still wait, hold
      the peaks of the clean runs of exactly the samples that came while the client listened, in order. */
  lemma {:induction false} McaInOrder(ops: seq<Op>)
    ensures PacketsOf(McaPast(ops).taken + Run(ops).feed.mcaQueue, McaPast(ops).heard)
  {
    if ops != [] {
      var h, s, op := McaPast(ops[..|ops| - 1]), Run(ops[..|ops| - 1]), ops[|ops| - 1];
      McaInOrder(ops[..|ops| - 1]);
      McaQueueAfter(s, op);
      McaStep(h, s, op, After(s, op).feed.mcaQueue);
    }
  }

  lemma McaStep(h: McaHistory, s: State, op: Op, queue: seq<seq<Peaks.Peak>>)
    requires PacketsOf(h.taken + s.feed.mcaQueue, h.heard)
    requires queue == if !s.fault && op.VoltageEvent? && s.ai && s.feed.mcaSubscribed then s.feed.mcaQueue + [PacketPeaks(op.samples)]
                      else if !s.fault && op.McaPass? && McaRuns(s) && s.feed.mcaQueue != [] then s.feed.mcaQueue[1..]
                      else s.feed.mcaQueue
    ensures PacketsOf(McaNoted(h, s, op).taken + queue, McaNoted(h, s, op).heard)
  {
    if op.VoltageEvent? {
      Associative(h.taken, s.feed.mcaQueue, [PacketPeaks(op.samples)]);
      Peaks.PeaksArePeaks(op.samples, 0.2, 10.0);
    }
    if s.feed.mcaQueue != [] { MoveFirst(h.taken, s.feed.mcaQueue); }
  }

  predicate InVolts(packet: seq<Peaks.Peak>) {
    forall k :: 0 <= k < |packet| ==> 0.0 <= packet[k].maximum <= 10.0
  }

  /** Every packet that waits for the MCA event loop has its peaks in the ten volt range of the bins. */
  lemma {:induction false} McaPacketsInRange(ops: seq<Op>)
    ensures forall packet <- Run(ops).feed.mcaQueue :: InVolts(packet)
  {
    if ops != [] {
      var s, op := Run(ops[..|ops| - 1]), ops[|ops| - 1];
      McaPacketsInRange(ops[..|ops| - 1]);
      McaQueueAfter(s, op);
      if op.VoltageEvent? { PacketInRange(op.samples); }
    }
  }

  lemma PacketInRange(samples: seq<real>)
    ensures InVolts(PacketPeaks(samples))
  {
    Peaks.ThresholdsExactIff(0.2, 10.0);
    Peaks.PeaksInRange(samples);
    assert PacketPeaks(samples) == Peaks.Report(samples, 10.0, Peaks.Runs(samples, 0.2), 0);
  }

  // ---------------------------------------------------------------------
  // Runs at the edges of the conditions
  // ---------------------------------------------------------------------

  /** The first call of a client that registered nothing. */
  lemma StartWithoutChannelFaults()
    ensures Run([StartAI]).fault
  {
    assert [StartAI][..0] == [];
    FaultStep(Run([]), StartAI);
    assert StartsEmpty(Run([]), StartAI) by { assert Named(map[], Voltage) == {}; }
  }

  /** A counter that goes from 1 back to 0: 2^64 too many counts. */
  lemma FallingReadingAddsCounts() returns (ops: seq<Op>)
    ensures ops == [StartCI, CountEvent(1), CountEvent(0)]
    ensures Past(ops).readings == [[1, 0]]
    ensures Counted(Past(ops), Run(ops).feed.queue) != Reported(Past(ops))
  {
    ops := [StartCI, CountEvent(1), CountEvent(0)];
    FirstStart();
    CountAfter([StartCI], 1);
    assert [StartCI] + [CountEvent(1)] == [StartCI, CountEvent(1)];
    CountAfter([StartCI, CountEvent(1)], 0);
    assert [StartCI, CountEvent(1)] + [CountEvent(0)] == ops;
    TwoReadings();
    FallsAreCounted(ops, [1, 0]);
  }

  lemma FirstStart()
    ensures Run([StartCI]).ci && !Run([StartCI]).fault && Past([StartCI]).readings == [[]]
  {
    assert [StartCI][..0] == [];
    assert Run([StartCI]) == After(INITIAL, StartCI);
  }

  lemma FallsAreCounted(ops: seq<Op>, acquisition: seq<nat>)
    requires (forall op <- ops :: WellFormed(op)) && acquisition in Past(ops).readings && !NonDecreasing(acquisition)
    ensures Counted(Past(ops), Run(ops).feed.queue) != Reported(Past(ops))
  {
    CountsConservedIff(ops);
  }

  lemma CountAfter(ops: seq<Op>, reading: nat)
    requires Run(ops).ci && !Run(ops).fault && Past(ops).readings != []
    ensures var more := ops + [CountEvent(reading)];
            && Run(more).ci && !Run(more).fault
            && Past(more).readings == WithReading(Past(ops).readings, reading)
  {
    assert (ops + [CountEvent(reading)])[..|ops|] == ops;
  }

  lemma TwoReadings()
    ensures WithReading(WithReading([[]], 1), 0) == [[1, 0]] && !NonDecreasing([1, 0])
  {
    var none: seq<nat> := [];
    assert none + [1] == [1] && [1] + [0] == [1, 0];
    assert WithReading([none], 1) == [[1]];
    assert WithReading([[1]], 0) == [[1, 0]];
    assert [1, 0][1 - 1] > [1, 0][1];
  }

  /** Nothing goes unheard while the client stays subscribed. */
  lemma {:induction false} SubscribedHearsAll(ops: seq<Op>)
    requires ops != [] && ops[0] == Subscribe(true) && Subscribe(false) !in ops
    ensures Past(ops).unheard == [] && Run(ops).feed.subscribed
  {
    var n := |ops| - 1;
    if n == 0 {
      assert ops[..0] == [];
    } else {
      assert ops[n] in ops;
      SubscribedHearsAll(ops[..n]);
      StaysSubscribed(Run(ops[..n]), ops[n]);
    }
  }

  lemma StaysSubscribed(s: State, op: Op)
    requires s.feed.subscribed && op != Subscribe(false)
    ensures After(s, op).feed.subscribed
  {
    if op.Subscribe? { assert op.on; }
  }

  // ---------------------------------------------------------------------
  // The service as the program keeps it
  // ---------------------------------------------------------------------

  lemma CountedOne(names: set<string>, rest: set<string>, name: string)
    requires name in rest
    ensures |names - (rest - {name})| == |names - rest| + if name in names then 1 else 0
  {
    if name in names {
      assert names - (rest - {name}) == (names - rest) + {name};
    } else {
      assert names - (rest - {name}) == names - rest;
    }
  }

  class Service {
    var channels: Channels
    var threads: Threads
    var mcaChannels: nat
    var ai: bool
    var aiTask: set<string>
    var perChannel: nat
    var ci: bool
    var usingPtg: bool
    var ptgTask: bool
    var lastCount: nat
    var subscribed: bool
    var queue: seq<nat>
    var mcaSubscribed: bool
    var mcaQueue: seq<seq<Peaks.Peak>>
    var fault: bool

    ghost function Contents(): State
      reads this
    {
      State(channels, threads, mcaChannels, ai, aiTask, perChannel,
            ci, usingPtg, ptgTask, lastCount, Feed(subscribed, queue, mcaSubscribed, mcaQueue), fault)
    }

    constructor ()
      ensures Contents() == INITIAL
    {
      channels, threads, mcaChannels := map[], NO_THREADS, 2048;
      ai, aiTask, perChannel := false, {}, 0;
      ci, usingPtg, ptgTask, lastCount := false, false, false, 0;
      subscribed, queue, mcaSubscribed, mcaQueue, fault := false, [], false, [], false;
    }

    method CountVirtualChannelsOfType(kind: Kind) returns (total: nat)
      ensures total == |Named(channels, kind)|
    {
      total := 0;
      var rest := channels.Keys;
      ghost var names := Named(channels, kind);
      while rest != {}
        invariant rest <= channels.Keys && total == |names - rest|
      {
        var name :| name in rest;
        CountedOne(names, rest, name);
        if channels[name].kind == kind {
          total := total + 1;
        }
        rest := rest - {name};
      }
      assert names - rest == names;
    }

    /** The hardware channels added to a task: those of one type. */
    method AddTaskChannels(kind: Kind) returns (task: set<string>)
      ensures task == Hardware(channels, kind)
    {
      task := {};
      var rest := channels.Keys;
      while rest != {}
        invariant rest <= channels.Keys
        invariant task == set name <- channels | name !in rest && channels[name].kind == kind :: channels[name].hardware
      {
        var name :| name in rest;
        if channels[name].kind == kind {
          task := task + {channels[name].hardware};
        }
        rest := rest - {name};
      }
    }

    method NewChannel(name: string, channel: Channel)
      requires !fault
      modifies this`channels
      ensures Contents() == After(old(Contents()), Op.NewChannel(name, channel))
    {
      var rest := channels.Keys;
      while rest != {}
        invariant rest <= channels.Keys
        invariant forall other <- channels.Keys - rest :: other != name && channels[other].hardware != channel.hardware
      {
        var other :| other in rest;
        if other == name || channels[other].hardware == channel.hardware {
          return;
        }
        rest := rest - {other};
      }
      channels := channels[name := channel];
    }

    method DeleteChannel(name: string)
      requires !fault
      modifies this`channels
      ensures Contents() == After(old(Contents()), Op.DeleteChannel(name))
    {
      channels := channels - {name};
    }

    method StartThread() returns (thread: nat)
      modifies this`threads
      ensures threads == Spawn(old(threads)) && thread == old(threads).created
    {
      thread := threads.created;
      threads := threads.(created := thread + 1, live := threads.live + {thread});
    }

    method StartEventLoop(mcaChannels: nat)
      modifies this`threads
      ensures threads == StartLoop(old(threads), mcaChannels)
    {
      threads := threads.(mcaMode := mcaChannels > 0);
      var dcs := StartThread();
      threads := threads.(dcs := Some(dcs));
      if threads.mcaMode {
        var mca := StartThread();
        threads := threads.(mca := Some(mca));
      }
      var cli := StartThread();
      threads := threads.(cli := Some(cli));
    }

    method StopEventLoop()
      modifies this`threads
      ensures threads == StopLoop(old(threads))
    {
      var mcaMode := threads.mcaMode;
      threads := Join(threads, threads.dcs);
      if mcaMode {
        threads := Join(threads, threads.mca);
      }
      threads := Join(threads, threads.cli);
    }

    method StartAIAcquisition()
      requires !fault
      modifies this
      ensures Contents() == After(old(Contents()), StartAI)
    {
      if ci || ai {
        return;
      }
      StartEventLoop(mcaChannels);
      aiTask := AddTaskChannels(Voltage);
      var count := CountVirtualChannelsOfType(Voltage);
      if count == 0 {
        fault := true;
        return;
      }
      perChannel := Peaks.PACKET_SIZE / count;
      ai := true;
    }

    method StopAIAcquisition()
      requires !fault
      modifies this`ai, this`threads
      ensures Contents() == After(old(Contents()), StopAI)
    {
      if ai {
        ai := false;
        StopEventLoop();
      }
    }

    /** The pulse train generator is used, and its task started, when a channel for it is registered. */
    method SetupPulseTrain()
      modifies this`usingPtg, this`ptgTask
      ensures usingPtg == (old(usingPtg) || Named(channels, PulseTrain) != {})
      ensures ptgTask == (old(ptgTask) || usingPtg)
    {
      var pulseTrains := CountVirtualChannelsOfType(PulseTrain);
      if pulseTrains > 0 {
        usingPtg := true;
      }
      if usingPtg {
        ptgTask := true;
      }
    }

    method StartCIAcquisition()
      requires !fault
      modifies this
      ensures Contents() == After(old(Contents()), StartCI)
    {
      if ai || ci {
        return;
      }
      lastCount := 0;
      StartEventLoop(0);
      SetupPulseTrain();
      ci := true;
    }

    method StopCIAcquisition()
      requires !fault
      modifies this`ci, this`ptgTask, this`usingPtg, this`threads
      ensures Contents() == After(old(Contents()), StopCI)
    {
      if ci {
        if usingPtg {
          ptgTask := false;
        }
        ci := false;
        usingPtg := false;
        StopEventLoop();
      }
    }

    method SetMCANumChannels(n: nat)
      requires !fault && n < 0x1_0000
      modifies this`mcaChannels
      ensures Contents() == After(old(Contents()), SetMcaChannels(n))
    {
      mcaChannels := n;
    }

    method PushToDCSTask(count: nat)
      modifies this`queue
      ensures queue == old(queue) + [count]
    {
      queue := queue + [count];
    }

    /** The packet's count is that of the one-pass peak counter. */
    method OnVoltageEvent(samples: array<real>)
      requires !fault && ai && samples.Length == Peaks.PACKET_SIZE
      modifies this`queue, this`mcaQueue
      ensures Contents() == After(old(Contents()), VoltageEvent(samples[..]))
    {
      var peaks := Peaks.CountPacketCore(samples, 0.2, 10.0);
      Peaks.ThresholdsExactIff(0.2, 10.0);
      assert peaks == PacketPeaks(samples[..]);
      if subscribed {
        PushToDCSTask(|peaks|);
      }
      if mcaSubscribed {
        mcaQueue := mcaQueue + [peaks];
      }
    }

    method OnCountEvent(counts: array<nat>)
      requires !fault && ci && counts.Length == Peaks.PACKET_SIZE
      modifies this`queue, this`lastCount
      ensures Contents() == After(old(Contents()), CountEvent(counts[Peaks.PACKET_SIZE - 1]))
    {
      var count := (counts[Peaks.PACKET_SIZE - 1] - lastCount) % TWO_TO_THE_64;
      lastCount := counts[Peaks.PACKET_SIZE - 1];
      if subscribed {
        PushToDCSTask(count);
      }
    }

    /** GetLastDCS_IVD: the front of the queue, or the marker when woken for nothing. */
    method GetLast() returns (count: nat)
      modifies this`queue
      ensures count == if old(queue) == [] then SENTINEL else old(queue)[0]
      ensures queue == if old(queue) == [] then [] else old(queue)[1..]
    {
      if queue == [] {
        return SENTINEL;
      }
      count := queue[0];
      queue := queue[1..];
    }

    /** One round of DCSCountEvent: the count it emits, if any. */
    method DcsRound() returns (emitted: Option<nat>)
      requires !fault && (ai || ci)
      modifies this`queue
      ensures Contents() == After(old(Contents()), DcsPass)
      ensures forall h: History ::
                Noted(h, old(Contents()), DcsPass).emitted == h.emitted + if emitted.Some? then [emitted.value] else []
    {
      var count := GetLast();
      if count == SENTINEL {
        return None;
      }
      return Some(count);
    }

    /** One round of MCACountEvent: the bins of the oldest packet, as far as there are slots. A wake-up with
        nothing queued is skipped. */
    method McaRound(bins: array<nat>, channels: nat) returns (packet: Option<seq<Peaks.Peak>>, fits: bool)
      requires !fault && McaRuns(Contents()) && bins.Length == Peaks.MCA_SLOTS
      requires forall queued <- mcaQueue :: InVolts(queued)
      modifies this`mcaQueue, bins
      ensures Contents() == After(old(Contents()), McaPass)
      ensures packet == if old(mcaQueue) == [] then None else Some(old(mcaQueue)[0])
      ensures packet.None? ==> bins[..] == old(bins[..])
      ensures packet.Some? ==> (fits <==> |packet.value| <= Peaks.MCA_SLOTS)
      ensures packet.Some? ==> forall k :: 0 <= k < Peaks.MCA_SLOTS && k < |packet.value| ==>
                Peaks.BinOf(bins[k], packet.value[k], channels)
    {
      if mcaQueue == [] {
        return None, true;
      }
      assert mcaQueue[0] in mcaQueue;
      packet := Some(mcaQueue[0]);
      mcaQueue := mcaQueue[1..];
      fits := Peaks.FillBins(bins, packet.value, channels);
    }
  }
}
