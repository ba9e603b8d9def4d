/** Bytes, messages and frames of the RPC wire protocol: a frame is a 4-byte little-endian
    length, a 1-byte opcode, an 8-byte little-endian id and the payload. */
module Wire {
  import opened Sequences

  type byte = x: int | 0 <= x < 256

  datatype Option<+T> = None | Some(value: T)

  /** MESSAGE_XTRA_SPACE: the opcode and the id, which the length field counts with the payload. */
  const XTRA_SPACE := 9
  const FRAME_OVERHEAD := 4 + XTRA_SPACE
  const TWO_TO_THE_31 := 0x8000_0000
  const TWO_TO_THE_32 := 0x1_0000_0000
  const TWO_TO_THE_64 := 0x1_0000_0000_0000_0000

  datatype Message = Message(op: byte, id: nat, payload: seq<byte>)

  /** What a sender can put on the wire: the id fits a u64, the payload is not empty, and the
      length field plus its own four bytes fits an i32. */
  predicate Sendable(m: Message) {
    m.id < TWO_TO_THE_64 && 0 < |m.payload| && |m.payload| + FRAME_OVERHEAD < TWO_TO_THE_31
  }

  predicate AllSendable(ms: seq<Message>) {
    forall i :: 0 <= i < |ms| ==> Sendable(ms[i])
  }

  // ---------------------------------------------------------------- little-endian integers

  function LittleEndian(n: nat, width: nat): (bytes: seq<byte>)
    ensures |bytes| == width
  {
    if width == 0 then [] else [n % 256] + LittleEndian(n / 256, width - 1)
  }

  function FromLittleEndian(bytes: seq<byte>): nat {
    if bytes == [] then 0 else bytes[0] + 256 * FromLittleEndian(bytes[1..])
  }

  function Pow256(k: nat): nat {
    if k == 0 then 1 else 256 * Pow256(k - 1)
  }

  lemma {:induction false} LittleEndianRoundTrip(n: nat, width: nat)
    requires n < Pow256(width)
    ensures FromLittleEndian(LittleEndian(n, width)) == n
  {
    if width > 0 {
      LittleEndianRoundTrip(n / 256, width - 1);
      assert LittleEndian(n, width)[1..] == LittleEndian(n / 256, width - 1);
    }
  }

  lemma Pow256Widths()
    ensures Pow256(4) == TWO_TO_THE_32 && Pow256(8) == TWO_TO_THE_64
  {
    assert Pow256(2) == 0x1_0000;
    assert Pow256(4) == 256 * (256 * Pow256(2));
    assert Pow256(6) == 256 * (256 * Pow256(4));
    assert Pow256(8) == 256 * (256 * Pow256(6));
  }

  // ---------------------------------------------------------------- frames

  function Body(m: Message): seq<byte> {
    [m.op] + LittleEndian(m.id, 8) + m.payload
  }

  /** The four SendData calls of a send thread. */
  function Frame(m: Message): seq<byte> {
    LittleEndian(|m.payload| + XTRA_SPACE, 4) + Body(m)
  }

  function FrameSize(m: Message): nat {
    |m.payload| + FRAME_OVERHEAD
  }

  function Stream(ms: seq<Message>): seq<byte> {
    if ms == [] then [] else Frame(ms[0]) + Stream(ms[1..])
  }

  lemma {:induction false} StreamAppend(ms: seq<Message>, more: seq<Message>)
    ensures Stream(ms + more) == Stream(ms) + Stream(more)
  {
    if ms == [] {
      assert ms + more == more;
    } else {
      StreamAppend(ms[1..], more);
      assert (ms + more)[1..] == ms[1..] + more;
      Associative(Frame(ms[0]), Stream(ms[1..]), Stream(more));
    }
  }

  lemma StreamPush(ms: seq<Message>, m: Message)
    ensures Stream(ms + [m]) == Stream(ms) + Frame(m)
  {
    StreamAppend(ms, [m]);
    assert Stream([m]) == Frame(m) + Stream([m][1..]);
  }

  /** Alloc and SetCopyIdAndCode on a fetched body; a body with no payload is not a message. */
  function DecodeBody(body: seq<byte>): Option<Message> {
    if |body| <= XTRA_SPACE then None
    else Some(Message(body[0], FromLittleEndian(body[1..9]), body[9..]))
  }

  lemma DecodeEncode(m: Message)
    requires Sendable(m)
    ensures DecodeBody(Body(m)) == Some(m)
  {
    Pow256Widths();
    LittleEndianRoundTrip(m.id, 8);
    assert Body(m)[1..9] == LittleEndian(m.id, 8);
    assert Body(m)[9..] == m.payload;
  }

  // ---------------------------------------------------------------- fetching one frame

  function Signed32(n: nat): int
    requires n < TWO_TO_THE_32
  {
    if n < TWO_TO_THE_31 then n else n - TWO_TO_THE_32
  }

  function Wrap32(n: int): (r: int)
    ensures -TWO_TO_THE_31 <= r < TWO_TO_THE_31
    ensures -TWO_TO_THE_31 <= n < TWO_TO_THE_31 ==> r == n
    ensures TWO_TO_THE_31 <= n < TWO_TO_THE_32 ==> r < 0
  {
    Signed32(n % TWO_TO_THE_32)
  }

  lemma {:induction false} FromLittleEndianBound(bytes: seq<byte>)
    ensures FromLittleEndian(bytes) < Pow256(|bytes|)
  {
    if bytes != [] {
      FromLittleEndianBound(bytes[1..]);
    }
  }

  /** What fetchNextMsg does on the buffered bytes. Blocked is a wait whose predicate is false; the
      comparison of the i32 packet size with the u64 buffer size makes every negative packet size
      wait for ever. Corrupt is a length in -4..-1, which reaches memcpy as a huge size. */
  datatype Fetch = Blocked | Corrupt | Fetched(body: seq<byte>, rest: seq<byte>)

  function LengthField(q: seq<byte>): (length: int)
    requires |q| >= 4
    ensures -TWO_TO_THE_31 <= length < TWO_TO_THE_31
  {
    Pow256Widths();
    FromLittleEndianBound(q[..4]);
    Signed32(FromLittleEndian(q[..4]))
  }

  function FetchNext(q: seq<byte>): Fetch {
    if |q| < 4 then Blocked
    else
      var toRead := LengthField(q);
      var packet := Wrap32(toRead + 4);
      if packet < 0 || packet > |q| then Blocked
      else if toRead < 0 then Corrupt
      else Fetched(q[4..packet], q[packet..])
  }

  lemma LengthFieldOfFrame(m: Message, q: seq<byte>, r: seq<byte>)
    requires Sendable(m)
    requires |q| >= 4 && Frame(m) <= q + r
    ensures LengthField(q) == |m.payload| + XTRA_SPACE
  {
    Pow256Widths();
    LittleEndianRoundTrip(|m.payload| + XTRA_SPACE, 4);
    assert q[..4] == (q + r)[..4] == Frame(m)[..4] == LittleEndian(|m.payload| + XTRA_SPACE, 4);
  }

  /** The heart of framing: if the buffer starts a stream of whole frames, a fetch takes exactly the
      first message of that stream, and it is blocked exactly while that frame is incomplete. */
  lemma FetchTakesFirstMessage(q: seq<byte>, r: seq<byte>, ms: seq<Message>)
    requires AllSendable(ms) && q + r == Stream(ms)
    ensures FetchNext(q).Fetched? <==> ms != [] && FrameSize(ms[0]) <= |q|
    ensures !FetchNext(q).Corrupt?
    ensures FetchNext(q).Fetched? ==>
              && FetchNext(q).body == Body(ms[0])
              && DecodeBody(FetchNext(q).body) == Some(ms[0])
              && FetchNext(q).rest + r == Stream(ms[1..])
              && |FetchNext(q).rest| == |q| - FrameSize(ms[0])
  {
    if ms != [] && |q| >= 4 {
      var m := ms[0];
      assert |Frame(m)| == FrameSize(m);
      LengthFieldOfFrame(m, q, r);
      if FrameSize(m) <= |q| { FetchWholeFrame(m, q, r, Stream(ms[1..])); }
    }
  }

  lemma FetchWholeFrame(m: Message, q: seq<byte>, r: seq<byte>, rest: seq<byte>)
    requires Sendable(m) && q + r == Frame(m) + rest && 4 <= FrameSize(m) <= |q|
    requires LengthField(q) == |m.payload| + XTRA_SPACE
    ensures FetchNext(q) == Fetched(Body(m), q[FrameSize(m)..]) && DecodeBody(Body(m)) == Some(m)
    ensures q[FrameSize(m)..] + r == rest
  {
    var n := FrameSize(m);
    assert |Frame(m)| == n;
    assert q[..n] == (q + r)[..n] == Frame(m);
    assert q[4..n] == q[..n][4..] == Body(m);
    assert q[n..] + r == (q + r)[n..] == rest;
    DecodeEncode(m);
  }

  // ---------------------------------------------------------------- the bytes themselves

  /** The digit of weight 256^i of a number. */
  function Digit(n: nat, i: nat): byte {
    if i == 0 then n % 256 else Digit(n / 256, i - 1)
  }

  lemma {:induction false} LittleEndianByte(n: nat, width: nat, i: nat)
    requires i < width
    ensures LittleEndian(n, width)[i] == Digit(n, i)
    decreases width
  {
    if i > 0 { LittleEndianByte(n / 256, width - 1, i - 1); }
  }

  /** A frame byte by byte: the length of what follows in bytes 0 to 3, the opcode in byte 4, the id in bytes
      5 to 12, then the payload. */
  lemma FrameBytes(m: Message)
    requires Sendable(m)
    ensures |Frame(m)| == 13 + |m.payload|
    ensures forall i :: 0 <= i < 4 ==> Frame(m)[i] == Digit(9 + |m.payload|, i)
    ensures Frame(m)[4] == m.op
    ensures forall i :: 0 <= i < 8 ==> Frame(m)[5 + i] == Digit(m.id, i)
    ensures forall i :: 0 <= i < |m.payload| ==> Frame(m)[13 + i] == m.payload[i]
  {
    forall i | 0 <= i < 4 ensures Frame(m)[i] == Digit(9 + |m.payload|, i) {
      LittleEndianByte(9 + |m.payload|, 4, i);
    }
    forall i | 0 <= i < 8 ensures Frame(m)[5 + i] == Digit(m.id, i) {
      LittleEndianByte(m.id, 8, i);
      assert Frame(m)[5 + i] == LittleEndian(m.id, 8)[i];
    }
  }

  /** The first four bytes as an unsigned number, the last one weighing most. */
  function Unsigned(q: seq<byte>): nat
    requires |q| >= 4
  {
    (q[0] as int) + 256 * (q[1] as int) + 65536 * (q[2] as int) + 16777216 * (q[3] as int)
  }

  lemma UnsignedIs(q: seq<byte>)
    requires |q| >= 4
    ensures FromLittleEndian(q[..4]) == Unsigned(q)
  {
    var low := q[..4];
    assert low[1..][1..][1..][1..] == [];
    assert FromLittleEndian(low[1..][1..][1..]) == low[3];
    assert FromLittleEndian(low[1..][1..]) == (low[2] as int) + 256 * FromLittleEndian(low[1..][1..][1..]);
    assert FromLittleEndian(low[1..]) == (low[1] as int) + 256 * FromLittleEndian(low[1..][1..]);
  }

  /** What a fetch does on any buffered bytes, by the first four of them: a length whose frame is there is
      taken; the four lengths that wrap to a tiny packet corrupt; all others block. */
  lemma FetchByLength(q: seq<byte>)
    requires |q| >= 4
    ensures var n := Unsigned(q);
            FetchNext(q) == if n >= 0x1_0000_0000 - 4 && n - (0x1_0000_0000 - 4) <= |q| then Corrupt
                            else if n < 0x8000_0000 - 4 && n + 4 <= |q| then Fetched(q[4..4 + n], q[4 + n..])
                            else Blocked
  {
    UnsignedIs(q);
  }
}
