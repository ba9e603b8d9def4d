/** The MODBUS CRC-16 of the temperature controller's requests: the table-driven loop against the
    bit-serial register of section 6.2.2 of the MODBUS over Serial Line guide. */
module Crc {
  import opened Iteration
  import opened Sequences

  const INITIAL: bv16 := 0xFFFF
  const BYTE: nat := 8

  // ---------------------------------------------------------------- the bit-serial register

  /** One shift towards the least significant bit; the polynomial is mixed in when a 1 falls out. */
  function Shift(c: bv16): bv16 {
    if c & 1 == 1 then (c >> 1) ^ 0xA001 else c >> 1
  }

  function Xor(x: bv16, y: bv16): bv16 { x ^ y }

  /** The byte is combined with the low half, then the register is shifted eight times. */
  function SerialStep(c: bv16, b: bv8): bv16 {
    Iterate(Shift, Xor(c, b as bv16), BYTE)
  }

  function Serial(c: bv16, data: seq<bv8>): bv16 {
    if data == [] then c else SerialStep(Serial(c, data[..|data| - 1]), data[|data| - 1])
  }

  lemma XorShiftRight(x: bv16, y: bv16)
    ensures (x ^ y) >> 1 == (x >> 1) ^ (y >> 1)
    ensures (x ^ y) & 1 == (x & 1) ^ (y & 1)
    ensures x & 1 == 0 || x & 1 == 1
    ensures y & 1 == 0 || y & 1 == 1
  {
  }

  lemma XorCancels(x: bv16, y: bv16, p: bv16)
    ensures (x ^ p) ^ (y ^ p) == x ^ y
    ensures (x ^ p) ^ y == (x ^ y) ^ p
    ensures x ^ (y ^ p) == (x ^ y) ^ p
  {
  }

  lemma ShiftLinear(x: bv16, y: bv16)
    ensures Shift(Xor(x, y)) == Xor(Shift(x), Shift(y))
  {
    XorShiftRight(x, y);
    XorCancels(x >> 1, y >> 1, 0xA001);
  }

  lemma ShiftsLinear(x: bv16, y: bv16, n: nat)
    ensures Iterate(Shift, Xor(x, y), n) == Xor(Iterate(Shift, x, n), Iterate(Shift, y, n))
  {
    forall a, b ensures Shift(Xor(a, b)) == Xor(Shift(a), Shift(b)) { ShiftLinear(a, b); }
    IterateLinear(Shift, Xor, x, y, n);
  }

  // ---------------------------------------------------------------- the table-driven form

  // crc_table, sixteen entries a row.

  function Row0(l: bv8): bv16 {
    match l
    case 0x0 => 0x0000 case 0x1 => 0xC0C1 case 0x2 => 0xC181 case 0x3 => 0x0140
    case 0x4 => 0xC301 case 0x5 => 0x03C0 case 0x6 => 0x0280 case 0x7 => 0xC241
    case 0x8 => 0xC601 case 0x9 => 0x06C0 case 0xA => 0x0780 case 0xB => 0xC741
    case 0xC => 0x0500 case 0xD => 0xC5C1 case 0xE => 0xC481 case _ => 0x0440
  }

  function Row1(l: bv8): bv16 {
    match l
    case 0x0 => 0xCC01 case 0x1 => 0x0CC0 case 0x2 => 0x0D80 case 0x3 => 0xCD41
    case 0x4 => 0x0F00 case 0x5 => 0xCFC1 case 0x6 => 0xCE81 case 0x7 => 0x0E40
    case 0x8 => 0x0A00 case 0x9 => 0xCAC1 case 0xA => 0xCB81 case 0xB => 0x0B40
    case 0xC => 0xC901 case 0xD => 0x09C0 case 0xE => 0x0880 case _ => 0xC841
  }

  function Row2(l: bv8): bv16 {
    match l
    case 0x0 => 0xD801 case 0x1 => 0x18C0 case 0x2 => 0x1980 case 0x3 => 0xD941
    case 0x4 => 0x1B00 case 0x5 => 0xDBC1 case 0x6 => 0xDA81 case 0x7 => 0x1A40
    case 0x8 => 0x1E00 case 0x9 => 0xDEC1 case 0xA => 0xDF81 case 0xB => 0x1F40
    case 0xC => 0xDD01 case 0xD => 0x1DC0 case 0xE => 0x1C80 case _ => 0xDC41
  }

  function Row3(l: bv8): bv16 {
    match l
    case 0x0 => 0x1400 case 0x1 => 0xD4C1 case 0x2 => 0xD581 case 0x3 => 0x1540
    case 0x4 => 0xD701 case 0x5 => 0x17C0 case 0x6 => 0x1680 case 0x7 => 0xD641
    case 0x8 => 0xD201 case 0x9 => 0x12C0 case 0xA => 0x1380 case 0xB => 0xD341
    case 0xC => 0x1100 case 0xD => 0xD1C1 case 0xE => 0xD081 case _ => 0x1040
  }

  function Row4(l: bv8): bv16 {
    match l
    case 0x0 => 0xF001 case 0x1 => 0x30C0 case 0x2 => 0x3180 case 0x3 => 0xF141
    case 0x4 => 0x3300 case 0x5 => 0xF3C1 case 0x6 => 0xF281 case 0x7 => 0x3240
    case 0x8 => 0x3600 case 0x9 => 0xF6C1 case 0xA => 0xF781 case 0xB => 0x3740
    case 0xC => 0xF501 case 0xD => 0x35C0 case 0xE => 0x3480 case _ => 0xF441
  }

  function Row5(l: bv8): bv16 {
    match l
    case 0x0 => 0x3C00 case 0x1 => 0xFCC1 case 0x2 => 0xFD81 case 0x3 => 0x3D40
    case 0x4 => 0xFF01 case 0x5 => 0x3FC0 case 0x6 => 0x3E80 case 0x7 => 0xFE41
    case 0x8 => 0xFA01 case 0x9 => 0x3AC0 case 0xA => 0x3B80 case 0xB => 0xFB41
    case 0xC => 0x3900 case 0xD => 0xF9C1 case 0xE => 0xF881 case _ => 0x3840
  }

  function Row6(l: bv8): bv16 {
    match l
    case 0x0 => 0x2800 case 0x1 => 0xE8C1 case 0x2 => 0xE981 case 0x3 => 0x2940
    case 0x4 => 0xEB01 case 0x5 => 0x2BC0 case 0x6 => 0x2A80 case 0x7 => 0xEA41
    case 0x8 => 0xEE01 case 0x9 => 0x2EC0 case 0xA => 0x2F80 case 0xB => 0xEF41
    case 0xC => 0x2D00 case 0xD => 0xEDC1 case 0xE => 0xEC81 case _ => 0x2C40
  }

  function Row7(l: bv8): bv16 {
    match l
    case 0x0 => 0xE401 case 0x1 => 0x24C0 case 0x2 => 0x2580 case 0x3 => 0xE541
    case 0x4 => 0x2700 case 0x5 => 0xE7C1 case 0x6 => 0xE681 case 0x7 => 0x2640
    case 0x8 => 0x2200 case 0x9 => 0xE2C1 case 0xA => 0xE381 case 0xB => 0x2340
    case 0xC => 0xE101 case 0xD => 0x21C0 case 0xE => 0x2080 case _ => 0xE041
  }

  function Row8(l: bv8): bv16 {
    match l
    case 0x0 => 0xA001 case 0x1 => 0x60C0 case 0x2 => 0x6180 case 0x3 => 0xA141
    case 0x4 => 0x6300 case 0x5 => 0xA3C1 case 0x6 => 0xA281 case 0x7 => 0x6240
    case 0x8 => 0x6600 case 0x9 => 0xA6C1 case 0xA => 0xA781 case 0xB => 0x6740
    case 0xC => 0xA501 case 0xD => 0x65C0 case 0xE => 0x6480 case _ => 0xA441
  }

  function Row9(l: bv8): bv16 {
    match l
    case 0x0 => 0x6C00 case 0x1 => 0xACC1 case 0x2 => 0xAD81 case 0x3 => 0x6D40
    case 0x4 => 0xAF01 case 0x5 => 0x6FC0 case 0x6 => 0x6E80 case 0x7 => 0xAE41
    case 0x8 => 0xAA01 case 0x9 => 0x6AC0 case 0xA => 0x6B80 case 0xB => 0xAB41
    case 0xC => 0x6900 case 0xD => 0xA9C1 case 0xE => 0xA881 case _ => 0x6840
  }

  function RowA(l: bv8): bv16 {
    match l
    case 0x0 => 0x7800 case 0x1 => 0xB8C1 case 0x2 => 0xB981 case 0x3 => 0x7940
    case 0x4 => 0xBB01 case 0x5 => 0x7BC0 case 0x6 => 0x7A80 case 0x7 => 0xBA41
    case 0x8 => 0xBE01 case 0x9 => 0x7EC0 case 0xA => 0x7F80 case 0xB => 0xBF41
    case 0xC => 0x7D00 case 0xD => 0xBDC1 case 0xE => 0xBC81 case _ => 0x7C40
  }

  function RowB(l: bv8): bv16 {
    match l
    case 0x0 => 0xB401 case 0x1 => 0x74C0 case 0x2 => 0x7580 case 0x3 => 0xB541
    case 0x4 => 0x7700 case 0x5 => 0xB7C1 case 0x6 => 0xB681 case 0x7 => 0x7640
    case 0x8 => 0x7200 case 0x9 => 0xB2C1 case 0xA => 0xB381 case 0xB => 0x7340
    case 0xC => 0xB101 case 0xD => 0x71C0 case 0xE => 0x7080 case _ => 0xB041
  }

  function RowC(l: bv8): bv16 {
    match l
    case 0x0 => 0x5000 case 0x1 => 0x90C1 case 0x2 => 0x9181 case 0x3 => 0x5140
    case 0x4 => 0x9301 case 0x5 => 0x53C0 case 0x6 => 0x5280 case 0x7 => 0x9241
    case 0x8 => 0x9601 case 0x9 => 0x56C0 case 0xA => 0x5780 case 0xB => 0x9741
    case 0xC => 0x5500 case 0xD => 0x95C1 case 0xE => 0x9481 case _ => 0x5440
  }

  function RowD(l: bv8): bv16 {
    match l
    case 0x0 => 0x9C01 case 0x1 => 0x5CC0 case 0x2 => 0x5D80 case 0x3 => 0x9D41
    case 0x4 => 0x5F00 case 0x5 => 0x9FC1 case 0x6 => 0x9E81 case 0x7 => 0x5E40
    case 0x8 => 0x5A00 case 0x9 => 0x9AC1 case 0xA => 0x9B81 case 0xB => 0x5B40
    case 0xC => 0x9901 case 0xD => 0x59C0 case 0xE => 0x5880 case _ => 0x9841
  }

  function RowE(l: bv8): bv16 {
    match l
    case 0x0 => 0x8801 case 0x1 => 0x48C0 case 0x2 => 0x4980 case 0x3 => 0x8941
    case 0x4 => 0x4B00 case 0x5 => 0x8BC1 case 0x6 => 0x8A81 case 0x7 => 0x4A40
    case 0x8 => 0x4E00 case 0x9 => 0x8EC1 case 0xA => 0x8F81 case 0xB => 0x4F40
    case 0xC => 0x8D01 case 0xD => 0x4DC0 case 0xE => 0x4C80 case _ => 0x8C41
  }

  function RowF(l: bv8): bv16 {
    match l
    case 0x0 => 0x4400 case 0x1 => 0x84C1 case 0x2 => 0x8581 case 0x3 => 0x4540
    case 0x4 => 0x8701 case 0x5 => 0x47C0 case 0x6 => 0x4680 case 0x7 => 0x8641
    case 0x8 => 0x8201 case 0x9 => 0x42C0 case 0xA => 0x4380 case 0xB => 0x8341
    case 0xC => 0x4100 case 0xD => 0x81C1 case 0xE => 0x8081 case _ => 0x4040
  }

  function Table(n: bv8): bv16 {
    match n >> 4
    case 0x0 => Row0(n & 0xF)
    case 0x1 => Row1(n & 0xF)
    case 0x2 => Row2(n & 0xF)
    case 0x3 => Row3(n & 0xF)
    case 0x4 => Row4(n & 0xF)
    case 0x5 => Row5(n & 0xF)
    case 0x6 => Row6(n & 0xF)
    case 0x7 => Row7(n & 0xF)
    case 0x8 => Row8(n & 0xF)
    case 0x9 => Row9(n & 0xF)
    case 0xA => RowA(n & 0xF)
    case 0xB => RowB(n & 0xF)
    case 0xC => RowC(n & 0xF)
    case 0xD => RowD(n & 0xF)
    case 0xE => RowE(n & 0xF)
    case _ => RowF(n & 0xF)
  }

  function Low(c: bv16): bv8 { (c & 0xFF) as bv8 }

  function High(c: bv16): bv8 { (c >> 8) as bv8 }

  function Shift8(c: bv16): bv16 {
    Shift(Shift(Shift(Shift(Shift(Shift(Shift(Shift(c))))))))
  }

  /** Every table entry is its index shifted eight times. */
  lemma TableIsShift8(n: bv8)
    ensures Table(n) == Shift8(n as bv16)
  {
  }

  lemma {:induction false} EightSteps<T>(f: T -> T, x: T)
    ensures Iterate(f, x, BYTE) == f(f(f(f(f(f(f(f(x))))))))
  {
    var x4 := f(f(f(f(x))));
    assert Iterate(f, x, 8) == Iterate(f, f(f(x)), 6);
    assert Iterate(f, f(f(x)), 6) == Iterate(f, x4, 4);
    assert Iterate(f, x4, 4) == Iterate(f, f(f(x4)), 2);
    assert Iterate(f, f(f(x4)), 2) == f(f(f(f(x4))));
  }

  lemma ShiftsUnrolled(c: bv16)
    ensures Iterate(Shift, c, BYTE) == Shift8(c)
  {
    EightSteps(Shift, c);
  }

  lemma Shift8OfHighByte(c: bv16)
    requires c & 0xFF == 0
    ensures Shift8(c) == c >> 8
  {
  }

  lemma Halves(c: bv16, b: bv8)
    ensures var x := Xor(c, b as bv16); var hi := x & 0xFF00; var lo := (b ^ Low(c)) as bv16;
            x == Xor(hi, lo) && hi & 0xFF == 0 && hi >> 8 == c >> 8
  {
  }

  lemma ShiftsOfHighByte(c: bv16)
    requires c & 0xFF == 0
    ensures Iterate(Shift, c, BYTE) == c >> 8
  {
    ShiftsUnrolled(c);
    Shift8OfHighByte(c);
  }

  /** Eight shifts move the high byte down and fold the low byte in. */
  lemma SplitStep(c: bv16, b: bv8)
    ensures SerialStep(c, b) == Xor(c >> 8, Iterate(Shift, (b ^ Low(c)) as bv16, BYTE))
  {
    Halves(c, b);
    var hi := Xor(c, b as bv16) & 0xFF00;
    ShiftsLinear(hi, (b ^ Low(c)) as bv16, BYTE);
    ShiftsOfHighByte(hi);
  }

  /** One table look-up, as the loop uses it. */
  method LookUp(n: bv8) returns (entry: bv16)
    ensures entry == Iterate(Shift, n as bv16, BYTE)
  {
    entry := Table(n);
    TableIsShift8(n);
    ShiftsUnrolled(n as bv16);
  }

  /** CaculateCRC16: the table-driven loop computes the bit-serial register on every byte string. */
  method CalculateCrc16(data: seq<bv8>) returns (crc: bv16)
    ensures crc == Serial(INITIAL, data)
  {
    crc := INITIAL;
    for i := 0 to |data|
      invariant crc == Serial(INITIAL, data[..i])
    {
      SplitStep(crc, data[i]);
      assert data[..i + 1][..i] == data[..i];
      var entry := LookUp(data[i] ^ Low(crc));
      crc := Xor(crc >> 8, entry);
    }
    assert data[..|data|] == data;
  }

  // ---------------------------------------------------------------- the residue

  lemma SerialAppend(c: bv16, data: seq<bv8>, b: bv8)
    ensures Serial(c, data + [b]) == SerialStep(Serial(c, data), b)
  {
    assert (data + [b])[..|data|] == data;
  }

  lemma CancelLow(c: bv16)
    ensures SerialStep(c, Low(c)) == c >> 8
  {
    SplitStep(c, Low(c));
    assert (Low(c) ^ Low(c)) as bv16 == 0;
    ShiftsOfHighByte(0);
    assert Xor(c >> 8, 0) == c >> 8;
  }

  lemma HighIsLow(c: bv16)
    ensures Low(c >> 8) == High(c) && (c >> 8) >> 8 == 0
  {
  }

  /** Appending the CRC, low byte first, leaves the register at zero. */
  lemma ResidueIsZero(data: seq<bv8>)
    ensures var crc := Serial(INITIAL, data); Serial(INITIAL, data + [Low(crc)] + [High(crc)]) == 0
  {
    var crc := Serial(INITIAL, data);
    SerialAppend(INITIAL, data, Low(crc));
    SerialAppend(INITIAL, data + [Low(crc)], High(crc));
    CancelLow(crc);
    HighIsLow(crc);
    CancelLow(crc >> 8);
  }

  /** The request readTemperatureAddr sends: six bytes and their CRC, copied little-endian. */
  method TemperatureRequest(addr: bv8) returns (request: seq<bv8>)
    ensures |request| == 8 && request[..6] == [addr, 0x03, 0x10, 0x26, 0x00, 0x02]
    ensures Serial(INITIAL, request) == 0
  {
    var buffer := [addr, 0x03, 0x10, 0x26, 0x00, 0x02];
    var crc := CalculateCrc16(buffer);
    ResidueIsZero(buffer);
    request := buffer + [Low(crc)] + [High(crc)];
  }

  // ---------------------------------------------------------------- error detection

  function Bit(b: bool): bv16 { if b then 1 else 0 }

  function Lsb(w: bv16): bool { w & 1 == 1 }

  function Half(w: bv16): bv16 { w >> 1 }

  /** The register takes one line bit. */
  function FeedBit(c: bv16, b: bool): bv16 {
    Shift(Xor(c, Bit(b)))
  }

  /** The bits of a byte in the order they are sent, least significant first. */
  function ByteBits(b: bv8): seq<bool> {
    LowBits(Lsb, Half, b as bv16, BYTE)
  }

  function Bits(data: seq<bv8>): (bits: seq<bool>)
    ensures |bits| == 8 * |data|
  {
    FlattenLength(ByteBits, BYTE, data);
    Flatten(ByteBits, data)
  }

  /** A word is its lowest bit and a rest that shifts to its upper half. */
  lemma PeelBit(w: bv16) returns (rest: bv16)
    ensures w == Xor(Bit(Lsb(w)), rest) && Shift(rest) == Half(w)
  {
    rest := Upper(w);
    UpperSplits(w);
    UpperShifts(w);
  }

  function Upper(w: bv16): bv16 { w & 0xFFFE }

  lemma UpperSplits(w: bv16)
    ensures w == Xor(Bit(Lsb(w)), Upper(w))
  {
  }

  lemma UpperShifts(w: bv16)
    ensures Shift(Upper(w)) == Half(w)
  {
  }

  lemma XorAssociative(a: bv16, b: bv16, c: bv16)
    ensures Xor(a, Xor(b, c)) == Xor(Xor(a, b), c)
  {
    calc {
      Xor(a, Xor(b, c));
      Xor(a, b ^ c);
      a ^ (b ^ c);
      { RawSwap(a, b, c, 0); }
      (a ^ b) ^ c;
      Xor(a ^ b, c);
      Xor(Xor(a, b), c);
    }
  }

  lemma FeedSplit(c: bv16, w: bv16, bit: bv16, rest: bv16)
    requires w == Xor(bit, rest)
    ensures Shift(Xor(c, w)) == Xor(Shift(Xor(c, bit)), Shift(rest))
  {
    XorAssociative(c, bit, rest);
    ShiftLinear(Xor(c, bit), rest);
  }

  lemma FeedLowest(c: bv16, w: bv16)
    ensures Shift(Xor(c, w)) == Xor(FeedBit(c, Lsb(w)), Half(w))
  {
    var rest := PeelBit(w);
    FeedSplit(c, w, Bit(Lsb(w)), rest);
  }

  lemma HalvedAway(b: bv8)
    ensures Half(Half(Half(Half(Half(Half(Half(Half(b as bv16)))))))) == 0
  {
  }

  lemma XorZero(c: bv16)
    ensures Xor(c, 0) == c
  {
  }

  lemma RegisterPeels()
    ensures Peels(Shift, Xor, FeedBit, Lsb, Half)
  {
    forall a, v ensures Shift(Xor(a, v)) == Xor(FeedBit(a, Lsb(v)), Half(v)) { FeedLowest(a, v); }
  }

  lemma FeedWord(c: bv16, w: bv16, n: nat)
    ensures Iterate(Shift, Xor(c, w), n) == Xor(Fold(FeedBit, c, LowBits(Lsb, Half, w, n)), Iterate(Half, w, n))
  {
    RegisterPeels();
    FoldLowBits(Shift, Xor, FeedBit, Lsb, Half, c, w, n);
  }

  lemma ByteHalvedAway(b: bv8)
    ensures Iterate(Half, b as bv16, BYTE) == 0
  {
    EightSteps(Half, b as bv16);
    HalvedAway(b);
  }

  /** A byte step is eight bit steps. */
  lemma StepFeedsBits(c: bv16, b: bv8)
    ensures SerialStep(c, b) == Fold(FeedBit, c, ByteBits(b))
  {
    FeedWord(c, b as bv16, BYTE);
    ByteHalvedAway(b);
    XorZero(Fold(FeedBit, c, ByteBits(b)));
  }

  lemma {:induction false} SerialFeedsBits(c: bv16, data: seq<bv8>)
    ensures Serial(c, data) == Fold(FeedBit, c, Bits(data))
  {
    if data != [] {
      var k := |data| - 1;
      SerialFeedsBits(c, data[..k]);
      StepFeedsBits(Serial(c, data[..k]), data[k]);
      FoldAppend(FeedBit, c, Bits(data[..k]), ByteBits(data[k]));
    }
  }

  lemma ShiftInjective(x: bv16, y: bv16)
    requires Shift(x) == Shift(y)
    ensures x == y
  {
  }

  lemma XorInjective(a: bv16, b: bv16, c: bv16)
    requires Xor(a, c) == Xor(b, c)
    ensures a == b
  {
  }

  lemma BitXor(p: bool, q: bool)
    ensures Bit(p != q) == Xor(Bit(p), Bit(q))
  {
  }

  lemma XorSwap(a: bv16, b: bv16, c: bv16, d: bv16)
    ensures Xor(Xor(a, b), Xor(c, d)) == Xor(Xor(a, c), Xor(b, d))
  {
    calc {
      Xor(Xor(a, b), Xor(c, d));
      Xor(a ^ b, c ^ d);
      (a ^ b) ^ (c ^ d);
      { RawSwap(a, b, c, d); }
      (a ^ c) ^ (b ^ d);
      Xor(a ^ c, b ^ d);
      Xor(Xor(a, c), Xor(b, d));
    }
  }

  lemma RawSwap(a: bv16, b: bv16, c: bv16, d: bv16)
    ensures (a ^ b) ^ (c ^ d) == (a ^ c) ^ (b ^ d)
    ensures a ^ (b ^ c) == (a ^ b) ^ c
  {
  }

  lemma FeedLinear(a: bv16, b: bv16, p: bool, q: bool)
    ensures FeedBit(Xor(a, b), p != q) == Xor(FeedBit(a, p), FeedBit(b, q))
  {
    BitXor(p, q);
    XorSwap(a, b, Bit(p), Bit(q));
    ShiftLinear(Xor(a, Bit(p)), Xor(b, Bit(q)));
  }

  predicate AtLeast(c: bv16, t: bv16) { c >= t }

  lemma ShiftBound(x: bv16)
    ensures Shift(x) >= x >> 1
  {
  }

  lemma HalfMonotone(c: bv16, t: bv16, b: bool)
    requires c >= t
    ensures Xor(c, Bit(b)) >> 1 == c >> 1 && c >> 1 >= t >> 1
  {
  }

  /** A set bit takes as many shifts to disappear as it has places to travel. */
  lemma FeedBound(c: bv16, t: bv16, b: bool)
    requires AtLeast(c, t)
    ensures AtLeast(FeedBit(c, b), Half(t))
  {
    HalfMonotone(c, t, b);
    ShiftBound(Xor(c, Bit(b)));
  }

  lemma {:induction false} HalvesStayPositive(n: nat, t: bv16)
    requires n <= 15 && AtLeast(t, Place(n))
    ensures AtLeast(Iterate(Half, t, n), 1)
    decreases n
  {
    if n > 0 {
      PlaceHalves(n, t);
      HalvesStayPositive(n - 1, Half(t));
    }
  }

  /** The n-th power of two. */
  function Place(n: nat): bv16
    requires n <= 15
  {
    if n == 0 then 1 else Place(n - 1) << 1
  }

  lemma {:induction false} PlaceTop(n: nat)
    requires n <= 15
    ensures AtLeast(0x8000, Place(n)) && Place(n) != 0
  {
    PlaceValues();
    if n == 0 {} else if n == 1 {} else if n == 2 {} else if n == 3 {} else if n == 4 {} else if n == 5 {}
    else if n == 6 {} else if n == 7 {} else if n == 8 {} else if n == 9 {} else if n == 10 {} else if n == 11 {}
    else if n == 12 {} else if n == 13 {} else if n == 14 {} else {}
  }

  lemma PlaceValues()
    ensures Place(0) == 0x1 && Place(1) == 0x2 && Place(2) == 0x4 && Place(3) == 0x8
    ensures Place(4) == 0x10 && Place(5) == 0x20 && Place(6) == 0x40 && Place(7) == 0x80
    ensures Place(8) == 0x100 && Place(9) == 0x200 && Place(10) == 0x400 && Place(11) == 0x800
    ensures Place(12) == 0x1000 && Place(13) == 0x2000 && Place(14) == 0x4000 && Place(15) == 0x8000
  {
  }

  lemma ShiftBack(p: bv16, t: bv16)
    requires p < 0x8000 && t >= p << 1
    ensures t >> 1 >= p
  {
  }

  lemma PlaceHalves(n: nat, t: bv16)
    requires 0 < n <= 15 && AtLeast(t, Place(n))
    ensures AtLeast(Half(t), Place(n - 1))
  {
    PlaceValues();
    ShiftBack(Place(n - 1), t);
  }

  lemma FirstDifference()
    ensures FeedBit(0, true) >= 0x8000 && FeedBit(0, false) == 0
  {
  }

  /** From a zero register, up to sixteen bits that are not all zero leave it non-zero. */
  lemma {:induction false} BurstSurvives(d: seq<bool>)
    requires |d| <= 16 && true in d
    ensures Fold(FeedBit, 0, d) != 0
    decreases |d|
  {
    FirstDifference();
    if d[0] {
      forall c, t, b | AtLeast(c, t) ensures AtLeast(FeedBit(c, b), Half(t)) { FeedBound(c, t, b); }
      var n := |d| - 1;
      FoldBound(FeedBit, Half, AtLeast, FeedBit(0, true), 0x8000, d[1..]);
      PlaceTop(n);
      HalvesStayPositive(n, 0x8000);
      Positive(Fold(FeedBit, 0, d), Iterate(Half, 0x8000, n));
    } else {
      assert d == [d[0]] + d[1..];
      BurstSurvives(d[1..]);
    }
  }

  lemma Positive(c: bv16, t: bv16)
    requires AtLeast(c, t) && AtLeast(t, 1)
    ensures c != 0
  {
  }

  /** Two bit strings that differ only inside sixteen consecutive bits leave different registers. */
  lemma BurstDetected(before: seq<bool>, u: seq<bool>, v: seq<bool>, after: seq<bool>)
    requires |u| == |v| <= 16 && u != v
    ensures Fold(FeedBit, INITIAL, before + u + after) != Fold(FeedBit, INITIAL, before + v + after)
  {
    var c := Fold(FeedBit, INITIAL, before);
    var cu, cv := Fold(FeedBit, c, u), Fold(FeedBit, c, v);
    FoldAppend(FeedBit, INITIAL, before, u);
    FoldAppend(FeedBit, INITIAL, before, v);
    FoldAppend(FeedBit, INITIAL, before + u, after);
    FoldAppend(FeedBit, INITIAL, before + v, after);
    assert cu != cv by { WindowsDiffer(c, u, v); }
    if Fold(FeedBit, cu, after) == Fold(FeedBit, cv, after) {
      forall a, b, w | FeedBit(a, w) == FeedBit(b, w) ensures a == b { FeedInjective(a, b, w); }
      FoldInjective(FeedBit, cu, cv, after);
    }
  }

  lemma FeedInjective(a: bv16, b: bv16, w: bool)
    requires FeedBit(a, w) == FeedBit(b, w)
    ensures a == b
  {
    ShiftInjective(Xor(a, Bit(w)), Xor(b, Bit(w)));
    XorInjective(a, b, Bit(w));
  }

  lemma XorSelf(c: bv16, d: bv16)
    ensures Xor(c, c) == 0
    ensures Xor(c, d) == 0 ==> c == d
  {
  }

  lemma WindowsDiffer(c: bv16, u: seq<bool>, v: seq<bool>)
    requires |u| == |v| <= 16 && u != v
    ensures Fold(FeedBit, c, u) != Fold(FeedBit, c, v)
  {
    var d := Differences(u, v);
    var i :| 0 <= i < |u| && u[i] != v[i];
    assert d[i];
    forall a, b, p, q ensures FeedBit(Xor(a, b), p != q) == Xor(FeedBit(a, p), FeedBit(b, q)) { FeedLinear(a, b, p, q); }
    FoldLinear(FeedBit, Xor, c, c, u, v);
    XorSelf(c, c);
    BurstSurvives(d);
    XorSelf(Fold(FeedBit, c, u), Fold(FeedBit, c, u));
  }

  // ---------------------------------------------------------------- sixteen bits is the limit

  lemma WordHalvedAway(w: bv16)
    ensures Half(Half(Half(Half(Half(Half(Half(Half(Half(Half(Half(Half(Half(Half(Half(Half(w)))))))))))))))) == 0
  {
  }

  lemma SixteenHalves(w: bv16)
    ensures Iterate(Half, w, 16) == 0
  {
    EightSteps(Half, w);
    EightSteps(Half, Iterate(Half, w, 8));
    IterateAppend(Half, w, 8, 8);
    WordHalvedAway(w);
  }

  lemma ZeroStays()
    ensures Shift(0) == 0 && FeedBit(0, false) == 0
  {
  }

  /** Feeding a register its own sixteen bits clears it. */
  lemma OwnBitsClear(w: bv16)
    ensures Fold(FeedBit, w, LowBits(Lsb, Half, w, 16)) == 0
  {
    var bits := LowBits(Lsb, Half, w, 16);
    FeedWord(w, w, 16);
    SixteenHalves(w);
    XorSelf(w, w);
    ZeroStays();
    IterateFixed(Shift, 0, 16);
    XorZero(Fold(FeedBit, w, bits));
  }

  /** The seventeen bits of the generator polynomial, in line order. */
  function Generator(): seq<bool> {
    [true] + LowBits(Lsb, Half, FeedBit(0, true), 16)
  }

  lemma GeneratorClears(n: nat)
    ensures Fold(FeedBit, 0, Generator() + Copies(false, n)) == 0
  {
    var g := Generator();
    FoldAppend(FeedBit, 0, g, Copies(false, n));
    assert g[1..] == LowBits(Lsb, Half, FeedBit(0, true), 16);
    OwnBitsClear(FeedBit(0, true));
    ZeroStays();
    FoldZeros(FeedBit, 0, n);
  }

  ghost predicate Detected(before: seq<bool>, u: seq<bool>, v: seq<bool>, after: seq<bool>) {
    Fold(FeedBit, INITIAL, before + u + after) != Fold(FeedBit, INITIAL, before + v + after)
  }

  /** Longer bursts can pass, whatever comes before and after. */
  lemma BurstPasses(before: seq<bool>, after: seq<bool>, n: nat) returns (u: seq<bool>, v: seq<bool>)
    requires n >= 17
    ensures |u| == |v| == n && u != v && !Detected(before, u, v, after)
  {
    u, v := Copies(false, n), Generator() + Copies(false, n - 17);
    assert v[0] && !u[0];
    var c := Fold(FeedBit, INITIAL, before);
    SameRegister(c, u, v, n - 17);
    FoldAppend(FeedBit, INITIAL, before, u);
    FoldAppend(FeedBit, INITIAL, before, v);
    FoldAppend(FeedBit, INITIAL, before + u, after);
    FoldAppend(FeedBit, INITIAL, before + v, after);
  }

  lemma SameRegister(c: bv16, u: seq<bool>, v: seq<bool>, n: nat)
    requires u == Copies(false, n + 17) && v == Generator() + Copies(false, n)
    ensures Fold(FeedBit, c, u) == Fold(FeedBit, c, v)
  {
    assert Differences(u, v) == v;
    forall a, b, p, q ensures FeedBit(Xor(a, b), p != q) == Xor(FeedBit(a, p), FeedBit(b, q)) { FeedLinear(a, b, p, q); }
    FoldLinear(FeedBit, Xor, c, c, u, v);
    XorSelf(c, c);
    GeneratorClears(n);
    XorSelf(Fold(FeedBit, c, u), Fold(FeedBit, c, v));
  }

  /** Where two equally long bit strings agree outside a window, they have the same ends. */
  lemma SameEnds(s: seq<bool>, t: seq<bool>, k: nat, lo: nat, hi: nat)
    requires |s| == |t| && lo <= hi <= |s|
    requires lo == (if k <= |s| then k else |s|) && hi == (if k + 16 <= |s| then k + 16 else |s|)
    requires forall i :: 0 <= i < |s| && !(k <= i < k + 16) ==> s[i] == t[i]
    ensures s == s[..lo] + s[lo..hi] + s[hi..] && t == s[..lo] + t[lo..hi] + s[hi..]
  {
    assert s[..lo] == t[..lo] && s[hi..] == t[hi..];
  }

  lemma BitErrorChangesCrc(m: seq<bv8>, m': seq<bv8>, before: seq<bool>, u: seq<bool>, v: seq<bool>, after: seq<bool>)
    requires Bits(m) == before + u + after && Bits(m') == before + v + after
    requires |u| == |v| <= 16 && u != v
    ensures Serial(INITIAL, m) != Serial(INITIAL, m')
  {
    SerialFeedsBits(INITIAL, m);
    SerialFeedsBits(INITIAL, m');
    BurstDetected(before, u, v, after);
  }

  /** The line bits of two messages agree outside the n bits from k on. */
  ghost predicate DifferWithin(m: seq<bv8>, m': seq<bv8>, k: nat, n: nat) {
    |m| == |m'| && forall i :: 0 <= i < |Bits(m)| && !(k <= i < k + n) ==> Bits(m)[i] == Bits(m')[i]
  }

  /** Different messages of equal length whose line bits agree outside sixteen consecutive bits get
      different CRCs. */
  lemma BurstChangesCrc(m: seq<bv8>, m': seq<bv8>, k: nat)
    requires m != m' && DifferWithin(m, m', k, 16)
    ensures Serial(INITIAL, m) != Serial(INITIAL, m')
  {
    BitsDiffer(m, m');
    var s, t := Bits(m), Bits(m');
    var lo := if k <= |s| then k else |s|;
    var hi := if k + 16 <= |s| then k + 16 else |s|;
    SameEnds(s, t, k, lo, hi);
    BitErrorChangesCrc(m, m', s[..lo], s[lo..hi], t[lo..hi], s[hi..]);
  }

  lemma StepIs(c: bv16, b: bv8, d: bv16)
    requires d == Shift8(Xor(c, b as bv16))
    ensures SerialStep(c, b) == d
  {
    ShiftsUnrolled(Xor(c, b as bv16));
  }

  lemma ThreeSteps(m: seq<bv8>, c1: bv16, c2: bv16, c3: bv16)
    requires |m| == 3
    requires SerialStep(INITIAL, m[0]) == c1 && SerialStep(c1, m[1]) == c2 && SerialStep(c2, m[2]) == c3
    ensures Serial(INITIAL, m) == c3
  {
    SerialAppend(INITIAL, [], m[0]);
    SerialAppend(INITIAL, [m[0]], m[1]);
    SerialAppend(INITIAL, [m[0], m[1]], m[2]);
    assert [] + [m[0]] == [m[0]] && [m[0]] + [m[1]] == [m[0], m[1]] && m == [m[0], m[1]] + [m[2]];
  }

  lemma ZeroMessage()
    ensures Serial(INITIAL, [0, 0, 0]) == 0xC071
  {
    StepIs(INITIAL, 0, 0x40BF);
    StepIs(0x40BF, 0, 0xB001);
    StepIs(0xB001, 0, 0xC071);
    ThreeSteps([0, 0, 0], 0x40BF, 0xB001, 0xC071);
  }

  lemma GeneratorMessage()
    ensures Serial(INITIAL, [0x03, 0x40, 0x01]) == 0xC071
  {
    var c1, c2 := Shift8(Xor(INITIAL, 0x03)), Shift8(Xor(Shift8(Xor(INITIAL, 0x03)), 0x40));
    StepIs(INITIAL, 0x03, c1);
    StepIs(c1, 0x40, c2);
    StepIs(c2, 0x01, 0xC071);
    ThreeSteps([0x03, 0x40, 0x01], c1, c2, 0xC071);
  }

  /** The last seven bits of the bytes 0 and 1 are the same. */
  lemma SameUpperBits()
    ensures ByteBits(1)[1..] == ByteBits(0)[1..]
  {
    assert Half(1) == Half(0);
    assert ByteBits(1)[1..] == LowBits(Lsb, Half, Half(1), 7);
    assert ByteBits(0)[1..] == LowBits(Lsb, Half, Half(0), 7);
  }

  lemma LastByteBits(m: seq<bv8>)
    requires |m| == 3
    ensures forall i :: 16 <= i < 24 ==> Bits(m)[i] == ByteBits(m[2])[i - 16]
  {
    assert m == m[..2] + [m[2]];
    assert Bits(m) == Bits(m[..2]) + ByteBits(m[2]);
  }

  lemma DifferInSeventeen()
    ensures DifferWithin([0, 0, 0], [0x03, 0x40, 0x01], 0, 17)
  {
    var m, m': seq<bv8> := [0, 0, 0], [0x03, 0x40, 0x01];
    LastByteBits(m);
    LastByteBits(m');
    SameUpperBits();
    forall i | 17 <= i < 24 ensures Bits(m)[i] == Bits(m')[i] {
      assert ByteBits(m[2])[i - 16] == ByteBits(0)[1..][i - 17];
      assert ByteBits(m'[2])[i - 16] == ByteBits(1)[1..][i - 17];
    }
  }

  /** Two messages that differ by the generator: bits 0, 1, 14 and 16. */
  lemma SeventeenBitsPass() returns (m: seq<bv8>, m': seq<bv8>)
    ensures m == [0, 0, 0] && m' == [0x03, 0x40, 0x01]
    ensures m != m' && DifferWithin(m, m', 0, 17) && Serial(INITIAL, m) == Serial(INITIAL, m')
  {
    m, m' := [0, 0, 0], [0x03, 0x40, 0x01];
    assert m[0] != m'[0];
    ZeroMessage();
    GeneratorMessage();
    DifferInSeventeen();
  }

  lemma DifferWithinMore(m: seq<bv8>, m': seq<bv8>, k: nat, n: nat, more: nat)
    requires DifferWithin(m, m', k, n) && n <= more
    ensures DifferWithin(m, m', k, more)
  {
  }

  ghost predicate BurstsChangeCrc(n: nat) {
    forall m, m', k: nat | m != m' && DifferWithin(m, m', k, n) :: Serial(INITIAL, m) != Serial(INITIAL, m')
  }

  /** Every error of a message that is confined to n consecutive line bits changes the CRC if and only if
      n is at most 16: the seventeen bits of the generator pass. */
  lemma BurstLimitIff(n: nat)
    ensures BurstsChangeCrc(n) <==> n <= 16
  {
    if n <= 16 {
      forall m, m', k: nat | m != m' && DifferWithin(m, m', k, n) ensures Serial(INITIAL, m) != Serial(INITIAL, m') {
        DifferWithinMore(m, m', k, n, 16);
        BurstChangesCrc(m, m', k);
      }
    } else {
      var m, m' := SeventeenBitsPass();
      DifferWithinMore(m, m', 0, 17, n);
    }
  }

  lemma WidenInjective(b: bv8, b': bv8)
    requires Xor(0, b as bv16) == Xor(0, b' as bv16)
    ensures b == b'
  {
  }

  /** A byte can be recovered from what one step makes of it. */
  lemma ByteBitsInjective(b: bv8, b': bv8)
    requires ByteBits(b) == ByteBits(b')
    ensures b == b'
  {
    StepFeedsBits(0, b);
    StepFeedsBits(0, b');
    forall x, y | Shift(x) == Shift(y) ensures x == y { ShiftInjective(x, y); }
    IterateInjective(Shift, Xor(0, b as bv16), Xor(0, b' as bv16), BYTE);
    WidenInjective(b, b');
  }

  lemma BitsInjective(m: seq<bv8>, m': seq<bv8>)
    requires |m| == |m'| && Bits(m) == Bits(m')
    ensures m == m'
  {
    forall b, b' | ByteBits(b) == ByteBits(b') ensures b == b' { ByteBitsInjective(b, b'); }
    FlattenInjective(ByteBits, BYTE, m, m');
  }

  lemma BitsDiffer(m: seq<bv8>, m': seq<bv8>)
    requires |m| == |m'| && m != m'
    ensures Bits(m) != Bits(m')
  {
    if Bits(m) == Bits(m') { BitsInjective(m, m'); }
  }

  lemma BitsAppend(a: seq<bv8>, b: seq<bv8>, c: seq<bv8>)
    ensures Bits(a + b + c) == Bits(a) + Bits(b) + Bits(c)
  {
    FlattenAppend(ByteBits, a + b, c);
    FlattenAppend(ByteBits, a, b);
  }

  /** Equal-length messages that differ only inside two consecutive bytes get different CRCs. */
  lemma TwoByteErrorChangesCrc(before: seq<bv8>, u: seq<bv8>, v: seq<bv8>, after: seq<bv8>)
    requires |u| == |v| <= 2 && u != v
    ensures Serial(INITIAL, before + u + after) != Serial(INITIAL, before + v + after)
  {
    BitsAppend(before, u, after);
    BitsAppend(before, v, after);
    BitsDiffer(u, v);
    var m, m' := before + u + after, before + v + after;
    BitErrorChangesCrc(m, m', Bits(before), Bits(u), Bits(v), Bits(after));
  }

  function WithCrc(before: seq<bv8>, a: bv8): seq<bv8> {
    var crc := Serial(INITIAL, before + [a]);
    [a, Low(crc), High(crc)]
  }

  /** Two bytes is the limit: after any beginning there are different windows of three bytes, one for
      each first byte, that get the same CRC. */
  lemma ThreeByteErrorMayPass(before: seq<bv8>, a: bv8, b: bv8)
    ensures Serial(INITIAL, before + WithCrc(before, a)) == Serial(INITIAL, before + WithCrc(before, b))
    ensures a != b ==> WithCrc(before, a) != WithCrc(before, b)
  {
    WithCrcResidue(before, a);
    WithCrcResidue(before, b);
    assert WithCrc(before, a)[0] == a && WithCrc(before, b)[0] == b;
  }

  lemma WithCrcResidue(before: seq<bv8>, a: bv8)
    ensures Serial(INITIAL, before + WithCrc(before, a)) == 0
  {
    var crc := Serial(INITIAL, before + [a]);
    ResidueIsZero(before + [a]);
    assert before + [a] + [Low(crc)] + [High(crc)] == before + WithCrc(before, a);
  }
}
