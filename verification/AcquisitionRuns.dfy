/** What the calls of a run leave behind: which channels are registered, which acquisition runs and with
    what, and who listens, each by the calls of the run alone. */
module AcquisitionRuns {
  import opened Wire
  import opened Acquisition
  import Peaks

  /** The state before the i-th call. */
  function At(ops: seq<Op>, i: nat): State {
    if i <= |ops| then Run(ops[..i]) else Run(ops)
  }

  lemma Next(ops: seq<Op>, i: nat)
    requires i < |ops|
    ensures At(ops, i + 1) == After(At(ops, i), ops[i])
  {
    assert ops[..i + 1][..i] == ops[..i];
  }

  lemma AtEnds(ops: seq<Op>)
    ensures At(ops, 0) == INITIAL && At(ops, |ops|) == Run(ops)
  {
    assert ops[..|ops|] == ops && ops[..0] == [];
  }

  // ---------------------------------------------------------------- channels

  /** The i-th call finds neither the name nor the hardware in use and registers the channel. */
  predicate Registers(ops: seq<Op>, i: nat, name: string, channel: Channel) {
    && i < |ops| && ops[i] == NewChannel(name, channel) && !At(ops, i).fault
    && name !in At(ops, i).channels
    && forall other <- At(ops, i).channels :: At(ops, i).channels[other].hardware != channel.hardware
  }

  predicate Deletes(ops: seq<Op>, i: nat, name: string) {
    i < |ops| && ops[i] == DeleteChannel(name) && !At(ops, i).fault
  }

  predicate Has(channels: Channels, name: string, channel: Channel) {
    name in channels && channels[name] == channel
  }

  lemma ChannelsStep(s: State, op: Op)
    ensures After(s, op).channels
            == if s.fault then s.channels
               else match op
                    case NewChannel(name, channel) =>
                      if InUse(s.channels, name, channel.hardware) then s.channels else s.channels[name := channel]
                    case DeleteChannel(name) => s.channels - {name}
                    case _ => s.channels
  {
  }

  lemma HasStep(ops: seq<Op>, i: nat, name: string, channel: Channel)
    requires i < |ops|
    ensures Has(At(ops, i + 1).channels, name, channel)
            == (Registers(ops, i, name, channel) || (Has(At(ops, i).channels, name, channel) && !Deletes(ops, i, name)))
  {
    Next(ops, i);
    ChannelsStep(At(ops, i), ops[i]);
  }

  /** The k-th call registered the channel under the name, and no later call deleted the name. */
  ghost predicate RegisteredSince(ops: seq<Op>, k: nat, name: string, channel: Channel) {
    k < |ops| && Registers(ops, k, name, channel) && forall j: nat | k < j < |ops| :: !Deletes(ops, j, name)
  }

  /** After every run a channel is registered under a name exactly when some call registered it there, with
      name and hardware free, and no later call deleted the name. */
  lemma {:induction false} RegisteredIff(ops: seq<Op>, name: string, channel: Channel)
    ensures Has(Run(ops).channels, name, channel) <==> exists k: nat | k < |ops| :: RegisteredSince(ops, k, name, channel)
    decreases |ops|
  {
    AtEnds(ops);
    if ops != [] {
      var n := |ops| - 1;
      RegisteredIff(ops[..n], name, channel);
      HasStep(ops, n, name, channel);
      AtEnds(ops[..n]);
      forall k: nat | k < n
        ensures RegisteredSince(ops, k, name, channel)
                == (RegisteredSince(ops[..n], k, name, channel) && !Deletes(ops, n, name))
      {
        SincePrefix(ops, k, name, channel);
      }
      assert RegisteredSince(ops, n, name, channel) == Registers(ops, n, name, channel);
    }
  }

  lemma SamePrefix(ops: seq<Op>, n: nat, k: nat, name: string, channel: Channel)
    requires k < n <= |ops|
    ensures Registers(ops[..n], k, name, channel) == Registers(ops, k, name, channel)
    ensures Deletes(ops[..n], k, name) == Deletes(ops, k, name)
  {
    assert ops[..n][..k] == ops[..k];
  }

  lemma SincePrefix(ops: seq<Op>, k: nat, name: string, channel: Channel)
    requires k < |ops| - 1
    ensures RegisteredSince(ops, k, name, channel)
            == (RegisteredSince(ops[..|ops| - 1], k, name, channel) && !Deletes(ops, |ops| - 1, name))
  {
    var n := |ops| - 1;
    SamePrefix(ops, n, k, name, channel);
    forall j: nat | k < j < n ensures Deletes(ops[..n], j, name) == Deletes(ops, j, name) {
      SamePrefix(ops, n, j, name, channel);
    }
  }

  // ---------------------------------------------------------------- acquisitions

  predicate HasKind(channels: Channels, kind: Kind) {
    exists name <- channels :: channels[name].kind == kind
  }

  /** A state in which a start is obeyed. */
  predicate Idle(s: State) {
    !s.fault && !s.ai && !s.ci
  }

  /** The state in which the AI acquisition that still runs was started: the last start in an idle state with
      a voltage channel, if no stop followed. */
  function AiStart(ops: seq<Op>): Option<State> {
    if ops == [] then None
    else
      var n := |ops| - 1;
      if ops[n] == StartAI && Idle(Run(ops[..n])) && HasKind(Run(ops[..n]).channels, Voltage) then Some(Run(ops[..n]))
      else if ops[n] == StopAI then None
      else AiStart(ops[..n])
  }

  /** The same for CI, which needs no channel. */
  function CiStart(ops: seq<Op>): Option<State> {
    if ops == [] then None
    else
      var n := |ops| - 1;
      if ops[n] == StartCI && Idle(Run(ops[..n])) then Some(Run(ops[..n]))
      else if ops[n] == StopCI then None
      else CiStart(ops[..n])
  }

  lemma NamedIff(channels: Channels, kind: Kind)
    ensures HasKind(channels, kind) <==> |Named(channels, kind)| > 0
  {
    if name :| name in channels && channels[name].kind == kind { assert name in Named(channels, kind); }
    if |Named(channels, kind)| > 0 { var name :| name in Named(channels, kind); }
  }

  /** The flags after a step. */
  lemma FlagsStep(s: State, op: Op)
    ensures var t := After(s, op);
            && (t.ai <==> (op == StartAI && !s.fault && !s.ai && !s.ci && HasKind(s.channels, Voltage))
                          || (s.ai && (op != StopAI || s.fault)))
            && (t.ci <==> (op == StartCI && !s.fault && !s.ai && !s.ci) || (s.ci && (op != StopCI || s.fault)))
  {
    NamedIff(s.channels, Voltage);
  }

  /** Nothing runs at a fault. */
  lemma {:induction false} FaultMeansIdle(ops: seq<Op>)
    ensures Run(ops).fault ==> !Run(ops).ai && !Run(ops).ci
  {
    if ops != [] {
      var s, op := Run(ops[..|ops| - 1]), ops[|ops| - 1];
      FaultMeansIdle(ops[..|ops| - 1]);
      FlagsStep(s, op);
      FaultStep(s, op);
    }
  }

  /** What an AI acquisition was started with: the hardware of the voltage channels registered then, their
      share of 1000 samples, and the MCA event loop if there were MCA channels. */
  ghost predicate AiAsStarted(t: State, start: State) {
    && t.ai
    && (forall h :: h in t.aiTask <==> exists name <- start.channels ::
          start.channels[name].kind == Voltage && start.channels[name].hardware == h)
    && t.aiTask != {} && t.perChannel == 1000 / |t.aiTask| && t.threads.mcaMode == (start.mcaChannels > 0)
  }

  ghost predicate CiAsStarted(t: State, start: State) {
    t.ci && !t.threads.mcaMode && t.usingPtg == HasKind(start.channels, PulseTrain)
  }

  lemma AiStarts(s: State)
    requires Safe(s) && !s.fault && !s.ai && !s.ci && HasKind(s.channels, Voltage)
    ensures AiAsStarted(After(s, StartAI), s)
  {
    NamedIff(s.channels, Voltage);
    HardwareCount(s.channels, Voltage);
    StartLoopOk(s.threads, s.mcaChannels);
  }

  lemma CiStarts(s: State)
    requires Safe(s) && !s.fault && !s.ai && !s.ci
    ensures CiAsStarted(After(s, StartCI), s)
  {
    NamedIff(s.channels, PulseTrain);
    StartLoopOk(s.threads, 0);
  }

  /** A running acquisition keeps its task, its share and its threads. */
  lemma RunningAiKeeps(s: State, op: Op)
    requires Safe(s) && s.ai && op != StopAI
    ensures var t := After(s, op);
            t.ai && t.aiTask == s.aiTask && t.perChannel == s.perChannel && t.threads == s.threads
  {
  }

  lemma RunningCiKeeps(s: State, op: Op)
    requires Safe(s) && s.ci && op != StopCI
    ensures var t := After(s, op); t.ci && t.usingPtg == s.usingPtg && t.threads == s.threads
  {
  }

  lemma AiStaysAsStarted(s: State, op: Op, start: State)
    requires Safe(s) && AiAsStarted(s, start) && op != StopAI
    ensures AiAsStarted(After(s, op), start)
  {
    RunningAiKeeps(s, op);
  }

  ghost predicate AiOk(s: State, start: Option<State>) {
    (s.ai <==> start.Some?) && (start.Some? ==> AiAsStarted(s, start.value))
  }

  lemma AiOkStep(s: State, op: Op, start: Option<State>)
    requires Safe(s) && (s.fault ==> !s.ai && !s.ci) && AiOk(s, start)
    ensures AiOk(After(s, op),
                 if op == StartAI && Idle(s) && HasKind(s.channels, Voltage) then Some(s) else if op == StopAI then None else start)
  {
    FlagsStep(s, op);
    if op == StartAI && Idle(s) && HasKind(s.channels, Voltage) {
      AiStarts(s);
    } else if op != StopAI && s.ai {
      AiStaysAsStarted(s, op, start.value);
    }
  }

  /** AI runs exactly when some call started it and none stopped it since, and it runs as it was started,
      whatever is called meanwhile. */
  lemma {:induction false} AiRunsAsStarted(ops: seq<Op>)
    ensures AiOk(Run(ops), AiStart(ops))
  {
    if ops != [] {
      var n := |ops| - 1;
      AiRunsAsStarted(ops[..n]);
      EveryRunSafe(ops[..n]);
      FaultMeansIdle(ops[..n]);
      AiOkStep(Run(ops[..n]), ops[n], AiStart(ops[..n]));
    }
  }

  ghost predicate CiOk(s: State, start: Option<State>) {
    (s.ci <==> start.Some?) && (start.Some? ==> CiAsStarted(s, start.value))
  }

  lemma CiOkStep(s: State, op: Op, start: Option<State>)
    requires Safe(s) && (s.fault ==> !s.ai && !s.ci) && CiOk(s, start)
    ensures CiOk(After(s, op), if op == StartCI && Idle(s) then Some(s) else if op == StopCI then None else start)
  {
    FlagsStep(s, op);
    if op == StartCI && Idle(s) {
      CiStarts(s);
    } else if op != StopCI && s.ci {
      RunningCiKeeps(s, op);
    }
  }

  /** The same for CI. */
  lemma {:induction false} CiRunsAsStarted(ops: seq<Op>)
    ensures CiOk(Run(ops), CiStart(ops))
  {
    if ops != [] {
      var n := |ops| - 1;
      CiRunsAsStarted(ops[..n]);
      EveryRunSafe(ops[..n]);
      FaultMeansIdle(ops[..n]);
      CiOkStep(Run(ops[..n]), ops[n], CiStart(ops[..n]));
    }
  }

  // ---------------------------------------------------------------- listeners and counts

  /** The last word of the client about the DCS event, or about the MCA event. */
  function Listening(ops: seq<Op>, mca: bool): bool {
    if ops == [] then false
    else
      var n := |ops| - 1;
      if Run(ops[..n]).fault then Listening(ops[..n], mca)
      else match ops[n]
           case Subscribe(on) => if mca then Listening(ops[..n], mca) else on
           case SubscribeMca(on) => if mca then on else Listening(ops[..n], mca)
           case _ => Listening(ops[..n], mca)
  }

  /** The last setting of MCA channels, 2048 to begin with. */
  function McaSetting(ops: seq<Op>): nat {
    if ops == [] then 2048
    else
      var n := |ops| - 1;
      if ops[n].SetMcaChannels? && !Run(ops[..n]).fault then ops[n].n else McaSetting(ops[..n])
  }

  lemma SettingsAfter(s: State, op: Op)
    ensures After(s, op).feed.subscribed == if op.Subscribe? && !s.fault then op.on else s.feed.subscribed
    ensures After(s, op).feed.mcaSubscribed == if op.SubscribeMca? && !s.fault then op.on else s.feed.mcaSubscribed
    ensures After(s, op).mcaChannels == if op.SetMcaChannels? && !s.fault then op.n else s.mcaChannels
  {
  }

  /** Listeners and the MCA setting are what the client last said. */
  lemma {:induction false} SettingsAreLast(ops: seq<Op>)
    ensures Run(ops).feed.subscribed == Listening(ops, false) && Run(ops).feed.mcaSubscribed == Listening(ops, true)
    ensures Run(ops).mcaChannels == McaSetting(ops)
  {
    if ops != [] {
      var n := |ops| - 1;
      SettingsAreLast(ops[..n]);
      SettingsAfter(Run(ops[..n]), ops[n]);
    }
  }

  /** A packet adds one count for a listener: its number of clean maximal runs between 0.2 V and 10 V. */
  lemma PacketAddsItsRuns(s: State, samples: seq<real>)
    requires !s.fault && s.ai && s.feed.subscribed
    ensures After(s, VoltageEvent(samples)).feed.queue == s.feed.queue + [|Peaks.CleanRuns(samples, 0.2, 10.0)|]
  {
    Peaks.PeaksCountRuns(samples, 0.2, 10.0);
  }
}
