/** Subscriptions and events: what the server emits reaches the client that asked for it, and only that. */
module SessionEvents {
  import opened Wire
  import opened Session
  import opened SessionProofs
  import opened SessionTheorems
  import P = Pipe

  // ---------------------------------------------------------------- subscriptions

  /** The message subscribes to (7) or unsubscribes from (9) the event. */
  predicate Marks(m: Message, event: byte) {
    (m.op == 7 || m.op == 9) && m.payload != [] && m.payload[0] == event
  }

  /** The last message about the event subscribes to it. */
  predicate Subscribed(got: seq<Message>, event: byte) {
    got != []
    && if Marks(got[|got| - 1], event) then got[|got| - 1].op == 7 else Subscribed(got[..|got| - 1], event)
  }

  ghost predicate SubsOk(subs: set<byte>, got: seq<Message>) {
    forall event: byte :: event in subs <==> Subscribed(got, event)
  }

  lemma SubscribedPush(got: seq<Message>, m: Message, event: byte)
    ensures Subscribed(got + [m], event) <==> if Marks(m, event) then m.op == 7 else Subscribed(got, event)
  {
    assert (got + [m])[..|got|] == got;
  }

  lemma SubsHandle(s: Session, got: seq<Message>, m: Message, result: seq<byte>)
    requires SubsOk(s.subs, got) && m.payload != []
    ensures SubsOk(Handle(s, m, result).subs, got + [m])
  {
    forall event: byte ensures event in Handle(s, m, result).subs <==> Subscribed(got + [m], event) {
      SubscribedPush(got, m, event);
    }
  }

  /** Only a decoding server changes what is subscribed or decoded upwards. */
  lemma SubsFrame(c: Config, s: Session, step: Step)
    requires Enabled(c, s, step) && !step.ServerDecode?
    ensures Apply(s, step).subs == s.subs && Apply(s, step).up.got == s.up.got
  {
  }

  /** The message a decoding server handles. */
  lemma DecodedMessage(c: Config, s: Session, result: seq<byte>) returns (m: Message, up: P.Pipe)
    requires Reachable(c, s) && Enabled(c, s, ServerDecode(result))
    ensures m.payload != [] && up.got == s.up.got + [m]
    ensures Apply(s, ServerDecode(result)) == Handle(s.(up := up), m, result)
  {
    ReachableInv(c, s);
    m := ServerDecodesNext(c, s, result);
    up := P.Apply(s.up, P.FetchOne);
    assert m in s.up.pushed;
  }

  lemma HandleKeepsUp(s: Session, m: Message, result: seq<byte>)
    ensures Handle(s, m, result).up == s.up
  {
  }

  lemma SubsStep(c: Config, s: Session, step: Step)
    requires Reachable(c, s) && Enabled(c, s, step) && SubsOk(s.subs, s.up.got)
    ensures SubsOk(Apply(s, step).subs, Apply(s, step).up.got)
  {
    if step.ServerDecode? {
      var m, up := DecodedMessage(c, s, step.result);
      SubsHandle(s.(up := up), s.up.got, m, step.result);
      HandleKeepsUp(s.(up := up), m, step.result);
    } else {
      SubsFrame(c, s, step);
    }
  }

  /** In every run the server is subscribed to an event exactly when the last message it decoded about that
      event was a subscription. */
  lemma {:induction false} SubscriptionsFollowMessages(c: Config, steps: seq<Step>)
    requires Legal(c, Init(), steps)
    ensures SubsOk(Run(Init(), steps).subs, Run(Init(), steps).up.got)
    decreases |steps|
  {
    if steps != [] {
      LegalPrefix(c, steps);
      SubscriptionsFollowMessages(c, steps[..|steps| - 1]);
      SubsStep(c, Run(Init(), steps[..|steps| - 1]), steps[|steps| - 1]);
    }
  }

  // ---------------------------------------------------------------- events

  datatype Emission = Emission(event: byte, data: seq<byte>)

  /** The emissions of a run that were made while the client was subscribed, by its own messages. */
  ghost function Heard(steps: seq<Step>): seq<Emission> {
    if steps == [] then []
    else
      var k := |steps| - 1;
      Heard(steps[..k])
      + if steps[k].Emit? && Subscribed(Run(Init(), steps[..k]).up.got, steps[k].event)
        then [Emission(steps[k].event, steps[k].data)] else []
  }

  function Events(ms: seq<Message>): seq<Message> {
    if ms == [] then []
    else Events(ms[..|ms| - 1]) + (if ms[|ms| - 1].op == 8 then [ms[|ms| - 1]] else [])
  }

  /** The i-th event message: opcode 8, number i, the event byte and then the data. */
  ghost predicate Carry(messages: seq<Message>, heard: seq<Emission>) {
    && |messages| == |heard|
    && forall i :: 0 <= i < |heard| ==> messages[i] == Message(8, i, [heard[i].event] + heard[i].data)
  }

  lemma EventsPush(ms: seq<Message>, m: Message)
    ensures Events(ms + [m]) == if m.op == 8 then Events(ms) + [m] else Events(ms)
  {
    assert (ms + [m])[..|ms|] == ms;
    assert Events(ms) + [] == Events(ms);
  }

  ghost predicate EventsOk(s: Session, heard: seq<Emission>) {
    Carry(Events(s.down.pushed), heard) && s.eventNid == |heard|
  }

  /** What a step adds to the messages for the client. */
  lemma DownStep(c: Config, s: Session, step: Step)
    requires Reachable(c, s) && Enabled(c, s, step)
    ensures var t := Apply(s, step);
            if step.Emit? && step.event in s.subs
            then t.down.pushed == s.down.pushed + [Message(8, s.eventNid, [step.event] + step.data)] && t.eventNid == s.eventNid + 1
            else Events(t.down.pushed) == Events(s.down.pushed) && t.eventNid == s.eventNid
  {
    if step.ServerDecode? {
      var m, up := DecodedMessage(c, s, step.result);
      HandleQueuesNoEvent(s.(up := up), m, step.result);
    } else if !step.Emit? {
      DownFrame(c, s, step);
    }
  }

  lemma HandleQueuesNoEvent(s: Session, m: Message, result: seq<byte>)
    ensures Events(Handle(s, m, result).down.pushed) == Events(s.down.pushed)
    ensures Handle(s, m, result).eventNid == s.eventNid
  {
    if IsRequest(m) { EventsPush(s.down.pushed, ReplyTo(Execution(m, result))); }
  }

  lemma DownFrame(c: Config, s: Session, step: Step)
    requires Enabled(c, s, step) && !step.ServerDecode? && !step.Emit?
    ensures Apply(s, step).down.pushed == s.down.pushed && Apply(s, step).eventNid == s.eventNid
  {
  }

  lemma EventsStep(c: Config, s: Session, heard: seq<Emission>, step: Step)
    requires Reachable(c, s) && Enabled(c, s, step) && EventsOk(s, heard)
    ensures EventsOk(Apply(s, step),
                     if step.Emit? && step.event in s.subs then heard + [Emission(step.event, step.data)] else heard)
  {
    DownStep(c, s, step);
    if step.Emit? && step.event in s.subs {
      EventsPush(s.down.pushed, Message(8, s.eventNid, [step.event] + step.data));
    }
  }

  /** In every run the event messages queued for the client are exactly the emissions made while it was
      subscribed: in order, numbered from 0, each the event byte followed by its data. */
  lemma {:induction false} EventsAreHeardEmissions(c: Config, steps: seq<Step>)
    requires Legal(c, Init(), steps)
    ensures EventsOk(Run(Init(), steps), Heard(steps))
    decreases |steps|
  {
    if steps == [] {
      EventsPush([], VALIDITY);
      assert [] + [VALIDITY] == [VALIDITY];
    } else {
      var k := |steps| - 1;
      var s := Run(Init(), steps[..k]);
      LegalPrefix(c, steps);
      EventsAreHeardEmissions(c, steps[..k]);
      SubscriptionsFollowMessages(c, steps[..k]);
      EventsStep(c, s, Heard(steps[..k]), steps[k]);
      assert Heard(steps[..k]) + [] == Heard(steps[..k]);
    }
  }

  lemma {:induction false} EventsPrefix(ms: seq<Message>, k: nat)
    requires k <= |ms|
    ensures Events(ms[..k]) <= Events(ms)
    decreases |ms|
  {
    if k < |ms| {
      EventsPrefix(ms[..|ms| - 1], k);
      assert ms[..|ms| - 1][..k] == ms[..k];
    } else {
      assert ms[..k] == ms;
    }
  }

  /** The client decodes them in that order, none twice. */
  lemma ClientHearsPrefix(c: Config, steps: seq<Step>)
    requires Legal(c, Init(), steps)
    ensures var s := Run(Init(), steps);
            Events(s.down.got) <= Events(s.down.pushed) && Carry(Events(s.down.pushed), Heard(steps))
  {
    var s := Run(Init(), steps);
    EventsAreHeardEmissions(c, steps);
    assert Reachable(c, s);
    ReachableInv(c, s);
    EventsPrefix(s.down.pushed, |s.down.got|);
  }

  // ---------------------------------------------------------------- numbers and codes

  function Calls(steps: seq<Step>): nat {
    if steps == [] then 0 else Calls(steps[..|steps| - 1]) + if steps[|steps| - 1].SetNew? then 1 else 0
  }

  lemma NidStep(s: Session, step: Step)
    ensures Apply(s, step).nid == s.nid + if step.SetNew? then 1 else 0
  {
  }

  /** Ids are consecutive: the counter is the number of calls so far. */
  lemma {:induction false} IdsCountCalls(c: Config, steps: seq<Step>)
    requires Legal(c, Init(), steps)
    ensures Run(Init(), steps).nid == Calls(steps)
    decreases |steps|
  {
    if steps != [] {
      var k := |steps| - 1;
      LegalPrefix(c, steps);
      IdsCountCalls(c, steps[..k]);
      NidStep(Run(Init(), steps[..k]), steps[k]);
    }
  }

  /** Opcodes on the wire: a request is 2 or 3 by how it waits, its reply 5 or 6, anything else as given. */
  lemma OpcodesOnTheWire(sync: bool, operation: byte, e: Execution)
    ensures OpCode(sync, operation) == if operation == 1 then (if sync then 2 else 3) else operation
    ensures e.request.op == 2 ==> ReplyTo(e) == Message(5, e.request.id, e.result)
    ensures e.request.op == 3 ==> ReplyTo(e) == Message(6, e.request.id, e.result)
  {
  }

  /** The first message of the server, byte by byte, and what the client makes of such a message: the
      connection counts as valid exactly for the byte 1. */
  lemma ValidityMessage(s: Session, id: nat, flag: byte, more: seq<byte>)
    ensures Frame(VALIDITY) == [10, 0, 0, 0, 11, 0, 0, 0, 0, 0, 0, 0, 0, 1]
    ensures Dispatch(s, Message(11, id, [flag] + more)).valid <==> flag == 1
  {
    FrameBytes(VALIDITY);
    assert Digit(10, 0) == 10 && Digit(10, 1) == Digit(0, 0) && Digit(10, 2) == Digit(0, 1) && Digit(10, 3) == Digit(0, 2);
    ZeroDigits();
    var f := Frame(VALIDITY);
    assert f[5 + 0] == 0 && f[5 + 1] == 0 && f[5 + 2] == 0 && f[5 + 3] == 0;
    assert f[5 + 4] == 0 && f[5 + 5] == 0 && f[5 + 6] == 0 && f[5 + 7] == 0;
    assert f[13 + 0] == 1;
  }

  lemma ZeroDigits()
    ensures forall i: nat :: Digit(0, i) == 0
  {
    forall i: nat ensures Digit(0, i) == 0 { ZeroDigit(i); }
  }

  lemma {:induction false} ZeroDigit(i: nat)
    ensures Digit(0, i) == 0
  {
    if i > 0 { ZeroDigit(i - 1); }
  }
}
