/** The code DCSGen emits for registered functions: argument tags, call codes, and the encoder and
    decoder of tagged fixed-size arguments, with the emitted switch statements as tables. */
module Registry {
  import opened Sequences
  import opened Wire

  type TypeName = string

  datatype Signature = Signature(name: string, args: seq<TypeName>)

  /** `calls` in registration order, `types` the distinct argument types in the order the generator
      walks its set of them, `sizes` the compiler's sizeof. */
  datatype Tables = Tables(calls: seq<Signature>, types: seq<TypeName>, sizes: map<TypeName, nat>)

  /** An argument as std::any holds it: its type and its bytes. */
  datatype Value = Value(typ: TypeName, bytes: seq<byte>)

  predicate Distinct<T(==)>(s: seq<T>) {
    forall i, j :: 0 <= i < j < |s| ==> s[i] != s[j]
  }

  predicate DistinctNames(calls: seq<Signature>) {
    forall i, j :: 0 <= i < j < |calls| ==> calls[i].name != calls[j].name
  }

  /** What the generator needs of its input: tags fit a u8, codes a u16, and the type list is exactly the
      types in use, without repetition. */
  predicate WellFormed(t: Tables) {
    && |t.types| <= 255 && |t.calls| <= 65535
    && Distinct(t.types)
    && DistinctNames(t.calls)
    && (forall i :: 0 <= i < |t.types| ==> t.types[i] in t.sizes && t.sizes[t.types[i]] > 0)
    && (forall i, k :: 0 <= i < |t.calls| && 0 <= k < |t.calls[i].args| ==> t.calls[i].args[k] in t.types)
  }

  // ---------------------------------------------------------------- numbering

  /** The tag loop and the call loop of the generator: a counter that starts at 1 and rises by one for
      each distinct name. */
  method AssignNumbers(names: seq<string>) returns (numbers: map<string, nat>)
    requires Distinct(names)
    ensures numbers.Keys == set a | a in names
    ensures forall i :: 0 <= i < |names| ==> numbers[names[i]] == i + 1
    ensures forall a, b :: a in numbers && b in numbers && numbers[a] == numbers[b] ==> a == b
  {
    numbers := map[];
    var dn := 1;
    for i := 0 to |names|
      invariant dn == i + 1
      invariant numbers.Keys == set a | a in names[..i]
      invariant forall k :: 0 <= k < i ==> numbers[names[k]] == k + 1
    {
      assert names[i] !in names[..i];
      assert names[..i + 1] == names[..i] + [names[i]];
      numbers := numbers[names[i] := dn];
      dn := dn + 1;
    }
    assert names[..|names|] == names;
  }

  function TagOf(types: seq<TypeName>, a: TypeName): (tag: nat)
    requires a in types
    ensures 1 <= tag <= |types| && types[tag - 1] == a
  {
    if types[|types| - 1] == a then |types| else TagOf(types[..|types| - 1], a)
  }

  // ---------------------------------------------------------------- encoding

  predicate WellTyped(t: Tables, v: Value) {
    v.typ in t.types && v.typ in t.sizes && |v.bytes| == t.sizes[v.typ]
  }

  predicate AllWellTyped(t: Tables, vs: seq<Value>) {
    forall i :: 0 <= i < |vs| ==> WellTyped(t, vs[i])
  }

  /** cpyArgToBuffer: the tag, then the value. */
  function EncodeArg(t: Tables, v: Value): seq<byte>
    requires WellFormed(t) && WellTyped(t, v)
  {
    [TagOf(t.types, v.typ)] + v.bytes
  }

  function EncodeArgs(t: Tables, vs: seq<Value>): seq<byte>
    requires WellFormed(t) && AllWellTyped(t, vs)
  {
    if vs == [] then [] else EncodeArg(t, vs[0]) + EncodeArgs(t, vs[1..])
  }

  function ArgsSize(vs: seq<Value>): nat {
    if vs == [] then 0 else 1 + |vs[0].bytes| + ArgsSize(vs[1..])
  }

  function Encode(t: Tables, fcode: nat, vs: seq<Value>): seq<byte>
    requires WellFormed(t) && AllWellTyped(t, vs)
  {
    LittleEndian(fcode, 2) + EncodeArgs(t, vs)
  }

  lemma {:induction false} EncodeArgsSize(t: Tables, vs: seq<Value>)
    requires WellFormed(t) && AllWellTyped(t, vs)
    ensures |EncodeArgs(t, vs)| == ArgsSize(vs)
  {
    if vs != [] { EncodeArgsSize(t, vs[1..]); }
  }

  lemma {:induction false} EncodeArgsPush(t: Tables, vs: seq<Value>, v: Value)
    requires WellFormed(t) && AllWellTyped(t, vs) && WellTyped(t, v)
    ensures EncodeArgs(t, vs + [v]) == EncodeArgs(t, vs) + EncodeArg(t, v)
  {
    if vs == [] {
      assert vs + [v] == [v];
    } else {
      EncodeArgsPush(t, vs[1..], v);
      assert (vs + [v])[1..] == vs[1..] + [v];
    }
  }

  /** The arguments fit the signature as the generated any_casts check it; extra ones are not read. */
  predicate Matches(t: Tables, sig: Signature, vs: seq<Value>) {
    |sig.args| <= |vs| && forall i :: 0 <= i < |sig.args| ==> vs[i].typ == sig.args[i]
  }

  /** The reverse switch has a case only for functions that take arguments. */
  predicate HasCase(t: Tables, fcode: nat) {
    1 <= fcode <= |t.calls| && t.calls[fcode - 1].args != []
  }

  /** What GetDataFromParams writes, or nothing when an any_cast or an index throws. */
  function Written(t: Tables, fcode: nat, vs: seq<Value>): Option<seq<byte>>
    requires WellFormed(t) && AllWellTyped(t, vs)
  {
    if vs == [] || !HasCase(t, fcode) then Some(Encode(t, fcode, []))
    else
      var sig := t.calls[fcode - 1];
      if Matches(t, sig, vs) then Some(Encode(t, fcode, vs[..|sig.args|])) else None
  }

  /** What is written: for a function that takes arguments and is given some, the code and exactly the declared
      arguments, unless one is missing or of another type, which throws; otherwise the two bytes of the code
      alone, whatever was given. */
  lemma WhatIsWritten(t: Tables, fcode: nat, vs: seq<Value>)
    requires WellFormed(t) && AllWellTyped(t, vs)
    ensures var takes := 1 <= fcode <= |t.calls| && t.calls[fcode - 1].args != [] && vs != [];
            && (!takes ==> Written(t, fcode, vs) == Some(LittleEndian(fcode, 2)))
            && (takes ==>
                  var args := t.calls[fcode - 1].args;
                  var fit := |args| <= |vs| && forall i :: 0 <= i < |args| ==> vs[i].typ == args[i];
                  && (Written(t, fcode, vs).None? <==> !fit)
                  && (fit ==> Written(t, fcode, vs) == Some(LittleEndian(fcode, 2) + EncodeArgs(t, vs[..|args|]))))
  {
    assert LittleEndian(fcode, 2) + [] == LittleEndian(fcode, 2);
  }

  method CopyArg(t: Tables, buffer: array<byte>, v: Value, start: nat) returns (it: nat)
    requires WellFormed(t) && WellTyped(t, v) && start + 1 + |v.bytes| <= buffer.Length
    modifies buffer
    ensures it == start + 1 + |v.bytes|
    ensures buffer[start..it] == EncodeArg(t, v)
    ensures buffer[..start] == old(buffer[..start]) && buffer[it..] == old(buffer[it..])
  {
    buffer[start] := TagOf(t.types, v.typ);
    it := start + 1;
    forall i | 0 <= i < |v.bytes| {
      buffer[it + i] := v.bytes[i];
    }
    it := it + |v.bytes|;
  }

  /** The buffer after the arguments `done`: function code kept, their encoding up to `it`, the rest kept. */
  ghost predicate Copied(t: Tables, was: seq<byte>, now: seq<byte>, done: seq<Value>, it: nat) {
    && WellFormed(t) && AllWellTyped(t, done)
    && |now| == |was| && 2 <= it <= |now|
    && now[..2] == was[..2] && now[2..it] == EncodeArgs(t, done) && now[it..] == was[it..]
  }

  lemma CopiedNext(t: Tables, was: seq<byte>, now: seq<byte>, later: seq<byte>, done: seq<Value>, v: Value, it: nat, next: nat)
    requires Copied(t, was, now, done, it) && WellTyped(t, v)
    requires it <= next <= |now| == |later| && later[..it] == now[..it]
    requires later[it..next] == EncodeArg(t, v) && later[next..] == now[next..]
    ensures Copied(t, was, later, done + [v], next)
  {
    EncodeArgsPush(t, done, v);
    assert later[..2] == later[..it][..2] && now[..2] == now[..it][..2];
    assert later[2..it] == later[..it][2..] && now[2..it] == now[..it][2..];
    assert later[2..next] == later[2..it] + later[it..next];
    assert later[next..] == now[it..][next - it..] && was[next..] == was[it..][next - it..];
  }

  method CopyNext(t: Tables, buffer: array<byte>, v: Value, it: nat, ghost was: seq<byte>, ghost done: seq<Value>)
    returns (next: nat)
    requires Copied(t, was, buffer[..], done, it) && WellTyped(t, v) && it + 1 + |v.bytes| <= buffer.Length
    modifies buffer
    ensures next == it + 1 + |v.bytes| && Copied(t, was, buffer[..], done + [v], next)
  {
    ghost var now := buffer[..];
    next := CopyArg(t, buffer, v, it);
    assert buffer[..][..it] == buffer[..it] && now[..it] == old(buffer[..it]);
    assert buffer[..][next..] == buffer[next..] && now[next..] == old(buffer[next..]);
    CopiedNext(t, was, now, buffer[..], done, v, it, next);
  }

  lemma SizeLeft(vs: seq<Value>, i: nat)
    requires i < |vs|
    ensures ArgsSize(vs[i..]) == 1 + |vs[i].bytes| + ArgsSize(vs[i + 1..]) && vs[..i] + [vs[i]] == vs[..i + 1]
  {
    assert vs[i..][1..] == vs[i + 1..];
  }

  /** One case of the reverse switch: any_cast and copy each declared argument in turn. */
  method CopyArgs(t: Tables, buffer: array<byte>, args: seq<TypeName>, vs: seq<Value>) returns (r: Option<nat>)
    requires WellFormed(t) && AllWellTyped(t, vs) && buffer.Length >= 2 + ArgsSize(vs)
    modifies buffer
    ensures r.Some? <==> |args| <= |vs| && forall k :: 0 <= k < |args| ==> vs[k].typ == args[k]
    ensures r.Some? ==> Copied(t, old(buffer[..]), buffer[..], vs[..|args|], r.value)
  {
    var it, i := 2, 0;
    ghost var was := buffer[..];
    while i < |args|
      invariant 0 <= i <= |args| && i <= |vs|
      invariant forall k :: 0 <= k < i ==> vs[k].typ == args[k]
      invariant it + ArgsSize(vs[i..]) == 2 + ArgsSize(vs)
      invariant Copied(t, was, buffer[..], vs[..i], it)
    {
      if i >= |vs| || vs[i].typ != args[i] {
        return None;
      }
      SizeLeft(vs, i);
      it := CopyNext(t, buffer, vs[i], it, was, vs[..i]);
      i := i + 1;
    }
    r := Some(it);
  }

  /** GetDataFromParams: fills the caller's buffer and returns how much it wrote. */
  method GetDataFromParams(t: Tables, buffer: array<byte>, fcode: nat, vs: seq<Value>) returns (r: Option<nat>)
    requires WellFormed(t) && AllWellTyped(t, vs) && fcode < 0x1_0000
    requires buffer.Length >= 2 + ArgsSize(vs)
    modifies buffer
    ensures r.Some? <==> Written(t, fcode, vs).Some?
    ensures r.Some? ==> r.value <= buffer.Length && buffer[..r.value] == Written(t, fcode, vs).value
                        && buffer[r.value..] == old(buffer[r.value..])
  {
    var code := LittleEndian(fcode, 2);
    buffer[0], buffer[1] := code[0], code[1];
    assert buffer[..2] == code;
    if vs != [] && HasCase(t, fcode) {
      ghost var was := buffer[..];
      r := CopyArgs(t, buffer, t.calls[fcode - 1].args, vs);
      if r.Some? {
        assert buffer[..r.value] == buffer[..][..2] + buffer[..][2..r.value];
        assert was[..2] == code && buffer[r.value..] == was[r.value..];
      }
    } else {
      r := Some(2);
    }
  }

  /** Where the encoding of the i-th argument starts. */
  function Offset(vs: seq<Value>, i: nat): nat
    requires i <= |vs|
  {
    if i == 0 then 2 else Offset(vs, i - 1) + 1 + |vs[i - 1].bytes|
  }

  lemma {:induction false} OffsetIs(t: Tables, vs: seq<Value>, i: nat)
    requires WellFormed(t) && AllWellTyped(t, vs) && i <= |vs|
    ensures Offset(vs, i) == 2 + |EncodeArgs(t, vs[..i])|
  {
    if i > 0 {
      OffsetIs(t, vs, i - 1);
      assert vs[..i] == vs[..i - 1] + [vs[i - 1]];
      EncodeArgsPush(t, vs[..i - 1], vs[i - 1]);
    }
  }

  /** The encoding byte by byte: the function code, low byte first, then for each argument the position of
      its type in the type list counted from 1, and its bytes. */
  lemma EncodingLayout(t: Tables, fcode: nat, vs: seq<Value>, i: nat)
    requires WellFormed(t) && AllWellTyped(t, vs) && fcode < 0x1_0000 && i < |vs|
    ensures var e, at := Encode(t, fcode, vs), Offset(vs, i);
            && at + 1 + |vs[i].bytes| <= |e|
            && e[0] == fcode % 256 && e[1] == fcode / 256
            && 1 <= e[at] <= |t.types| && t.types[e[at] - 1] == vs[i].typ
            && e[at + 1..at + 1 + |vs[i].bytes|] == vs[i].bytes
  {
    EncodingCode(t, fcode, vs);
    ArgumentInEncoding(t, fcode, vs, i);
    TaggedBytes(t, vs[i], Encode(t, fcode, vs), Offset(vs, i));
  }

  lemma EncodingCode(t: Tables, fcode: nat, vs: seq<Value>)
    requires WellFormed(t) && AllWellTyped(t, vs) && fcode < 0x1_0000
    ensures var e := Encode(t, fcode, vs); |e| >= 2 && e[0] == fcode % 256 && e[1] == fcode / 256
  {
    CodeBytes(fcode);
  }

  lemma ArgumentInEncoding(t: Tables, fcode: nat, vs: seq<Value>, i: nat)
    requires WellFormed(t) && AllWellTyped(t, vs) && i < |vs|
    ensures var e, at := Encode(t, fcode, vs), Offset(vs, i);
            at + 1 + |vs[i].bytes| <= |e| && e[at..at + (1 + |vs[i].bytes|)] == EncodeArg(t, vs[i])
  {
    var front, back := EncodeAround(t, vs, i);
    ArgumentAt(LittleEndian(fcode, 2), front, EncodeArg(t, vs[i]), back, Encode(t, fcode, vs));
  }

  lemma EncodeAround(t: Tables, vs: seq<Value>, i: nat) returns (front: seq<byte>, back: seq<byte>)
    requires WellFormed(t) && AllWellTyped(t, vs) && i < |vs|
    ensures EncodeArgs(t, vs) == (front + EncodeArg(t, vs[i])) + back && Offset(vs, i) == 2 + |front|
  {
    OffsetIs(t, vs, i);
    EncodeSplit(t, vs, i);
    front, back := EncodeArgs(t, vs[..i]), EncodeArgs(t, vs[i + 1..]);
  }

  lemma EncodeSplit(t: Tables, vs: seq<Value>, i: nat)
    requires WellFormed(t) && AllWellTyped(t, vs) && i < |vs|
    ensures EncodeArgs(t, vs) == (EncodeArgs(t, vs[..i]) + EncodeArg(t, vs[i])) + EncodeArgs(t, vs[i + 1..])
  {
    var front, v, back := vs[..i], vs[i], vs[i + 1..];
    assert vs == (front + [v]) + back;
    EncodeArgsAppend(t, front + [v], back);
    EncodeArgsPush(t, front, v);
  }

  lemma TaggedBytes(t: Tables, v: Value, e: seq<byte>, at: nat)
    requires WellFormed(t) && WellTyped(t, v)
    requires at + 1 + |v.bytes| <= |e| && e[at..at + (1 + |v.bytes|)] == EncodeArg(t, v)
    ensures 1 <= e[at] <= |t.types| && t.types[e[at] - 1] == v.typ && e[at + 1..at + 1 + |v.bytes|] == v.bytes
  {
    var arg := e[at..at + (1 + |v.bytes|)];
    assert e[at] == arg[0] == TagOf(t.types, v.typ);
    assert e[at + 1..at + 1 + |v.bytes|] == arg[1..];
  }

  lemma CodeBytes(fcode: nat)
    requires fcode < 0x1_0000
    ensures LittleEndian(fcode, 2) == [fcode % 256, fcode / 256]
  {
    LittleEndianByte(fcode, 2, 0);
    LittleEndianByte(fcode, 2, 1);
  }

  lemma ArgumentAt(code: seq<byte>, front: seq<byte>, arg: seq<byte>, back: seq<byte>, whole: seq<byte>)
    requires |code| == 2 && whole == code + ((front + arg) + back)
    ensures var at := 2 + |front|; at + |arg| <= |whole| && whole[at..at + |arg|] == arg
  {
  }

  // ---------------------------------------------------------------- decoding

  /** OutOfBounds: convert_from_byte checks only the first byte, so a value cut short by the end of the
      payload is read past it. */
  datatype Decoded = Params(fcode: nat, args: seq<Value>) | OutOfBounds

  predicate Known(t: Tables, tag: nat) { 1 <= tag <= |t.types| && t.types[tag - 1] in t.sizes }

  function SizeOfTag(t: Tables, tag: nat): nat
    requires Known(t, tag)
  {
    t.sizes[t.types[tag - 1]]
  }

  /** The argument loop from position `it`. */
  function DecodeFrom(t: Tables, payload: seq<byte>, it: nat, args: seq<Value>): Option<seq<Value>>
    decreases |payload| - it
  {
    if it >= |payload| then Some(args)
    else
      var tag := payload[it];
      if !Known(t, tag) then DecodeFrom(t, payload, it + 1, args)
      else
        var typ, size := t.types[tag - 1], SizeOfTag(t, tag);
        if it + 1 >= |payload| then Some(args + [Value(typ, Copies(0, size))])
        else if it + 1 + size > |payload| then None
        else DecodeFrom(t, payload, it + 1 + size, args + [Value(typ, payload[it + 1..it + 1 + size])])
  }

  function Decode(t: Tables, payload: seq<byte>): Decoded {
    if |payload| == 1 then OutOfBounds
    else
      var fcode := if payload == [] then 0 else FromLittleEndian(payload[..2]);
      match DecodeFrom(t, payload, 2, [])
      case Some(args) => Params(fcode, args)
      case None => OutOfBounds
  }

  /** GetParamsFromData: terminates on every payload. */
  method GetParamsFromData(t: Tables, payload: seq<byte>) returns (r: Decoded)
    ensures r == Decode(t, payload)
  {
    if |payload| == 1 {
      return OutOfBounds;
    }
    var fcode := if payload == [] then 0 else FromLittleEndian(payload[..2]);
    var args: seq<Value> := [];
    var it := 2;
    while it < |payload|
      invariant DecodeFrom(t, payload, it, args) == DecodeFrom(t, payload, 2, [])
      decreases |payload| - it
    {
      var tag := payload[it];
      it := it + 1;
      if Known(t, tag) {
        var typ, size := t.types[tag - 1], SizeOfTag(t, tag);
        if it >= |payload| {
          args := args + [Value(typ, Copies(0, size))];
        } else if it + size > |payload| {
          return OutOfBounds;
        } else {
          args := args + [Value(typ, payload[it..it + size])];
        }
        it := it + size;
      }
    }
    r := Params(fcode, args);
  }

  lemma TagInverse(t: Tables, v: Value)
    requires WellFormed(t) && WellTyped(t, v)
    ensures var tag := TagOf(t.types, v.typ); Known(t, tag) && tag < 256 && SizeOfTag(t, tag) == |v.bytes|
  {
  }

  lemma EncodeArgsHead(t: Tables, ws: seq<Value>, tail: seq<byte>)
    requires WellFormed(t) && AllWellTyped(t, ws) && ws != []
    ensures EncodeArgs(t, ws) + tail == EncodeArg(t, ws[0]) + (EncodeArgs(t, ws[1..]) + tail)
  {
    Associative(EncodeArg(t, ws[0]), EncodeArgs(t, ws[1..]), tail);
  }

  lemma AfterArg(t: Tables, payload: seq<byte>, it: nat, v: Value, rest: seq<byte>)
    requires WellFormed(t) && WellTyped(t, v)
    requires it <= |payload| && payload[it..] == EncodeArg(t, v) + rest
    ensures it + 1 + |v.bytes| <= |payload| && payload[it + 1 + |v.bytes|..] == rest
  {
    assert payload[it + 1 + |v.bytes|..] == payload[it..][1 + |v.bytes|..];
  }

  /** `d` stands for the argument loop over the payload; what follows looks at it only one argument at a time. */
  ghost predicate IsLoop(d: (nat, seq<Value>) -> Option<seq<Value>>, t: Tables, payload: seq<byte>) {
    forall i, args {:trigger DecodeFrom(t, payload, i, args)} :: d(i, args) == DecodeFrom(t, payload, i, args)
  }

  lemma LoopNext(d: (nat, seq<Value>) -> Option<seq<Value>>, t: Tables, payload: seq<byte>, it: nat, args: seq<Value>,
                 v: Value, rest: seq<byte>)
    requires IsLoop(d, t, payload) && WellFormed(t) && WellTyped(t, v)
    requires it <= |payload| && payload[it..] == EncodeArg(t, v) + rest
    ensures d(it, args) == d(it + 1 + |v.bytes|, args + [v])
  {
    DecodeOne(t, payload, it, args, v, rest);
  }

  lemma SuffixAt(payload: seq<byte>, it: nat, front: seq<byte>, tail: seq<byte>)
    requires it <= |payload| && payload[it..] == front + tail
    ensures |payload| >= |tail| && payload[|payload| - |tail|..] == tail
  {
    assert payload[|payload| - |tail|..] == payload[it..][|front|..];
  }

  /** After encoded arguments the loop stands at what follows them. */
  lemma {:induction false} LoopPast(d: (nat, seq<Value>) -> Option<seq<Value>>, t: Tables, payload: seq<byte>, it: nat,
                                    args: seq<Value>, ws: seq<Value>, tail: seq<byte>)
    requires IsLoop(d, t, payload) && WellFormed(t) && AllWellTyped(t, ws) && |tail| <= |payload|
    requires it <= |payload| && payload[it..] == EncodeArgs(t, ws) + tail
    ensures d(it, args) == d(|payload| - |tail|, args + ws)
    decreases |ws|
  {
    if ws == [] {
      assert args + [] == args && EncodeArgs(t, ws) + tail == tail;
    } else {
      var v := ws[0];
      NextAhead(t, payload, it, ws, tail);
      LoopNext(d, t, payload, it, args, v, EncodeArgs(t, ws[1..]) + tail);
      LoopPast(d, t, payload, it + 1 + |v.bytes|, args + [v], ws[1..], tail);
      MoveFirst(args, ws);
    }
  }

  lemma NextAhead(t: Tables, payload: seq<byte>, it: nat, ws: seq<Value>, tail: seq<byte>)
    requires WellFormed(t) && AllWellTyped(t, ws) && ws != []
    requires it <= |payload| && payload[it..] == EncodeArgs(t, ws) + tail
    ensures WellTyped(t, ws[0]) && AllWellTyped(t, ws[1..])
    ensures payload[it..] == EncodeArg(t, ws[0]) + (EncodeArgs(t, ws[1..]) + tail)
    ensures it + 1 + |ws[0].bytes| <= |payload| && payload[it + 1 + |ws[0].bytes|..] == EncodeArgs(t, ws[1..]) + tail
  {
    EncodeArgsHead(t, ws, tail);
    AfterArg(t, payload, it, ws[0], EncodeArgs(t, ws[1..]) + tail);
  }

  lemma DecodePast(t: Tables, payload: seq<byte>, it: nat, args: seq<Value>, ws: seq<Value>, tail: seq<byte>)
    requires WellFormed(t) && AllWellTyped(t, ws)
    requires it <= |payload| && payload[it..] == EncodeArgs(t, ws) + tail
    ensures |payload| >= |tail| && payload[|payload| - |tail|..] == tail
    ensures DecodeFrom(t, payload, it, args) == DecodeFrom(t, payload, |payload| - |tail|, args + ws)
  {
    SuffixAt(payload, it, EncodeArgs(t, ws), tail);
    LoopPast((i: nat, vs: seq<Value>) => DecodeFrom(t, payload, i, vs), t, payload, it, args, ws, tail);
  }

  lemma DecodeEncodedArgs(t: Tables, payload: seq<byte>, it: nat, args: seq<Value>, vs: seq<Value>)
    requires WellFormed(t) && AllWellTyped(t, vs)
    requires it <= |payload| && payload[it..] == EncodeArgs(t, vs)
    ensures DecodeFrom(t, payload, it, args) == Some(args + vs)
  {
    assert EncodeArgs(t, vs) + [] == EncodeArgs(t, vs);
    DecodePast(t, payload, it, args, vs, []);
  }

  /** One round of the argument loop takes one encoded argument. */
  lemma DecodeOne(t: Tables, payload: seq<byte>, it: nat, args: seq<Value>, v: Value, tail: seq<byte>)
    requires WellFormed(t) && WellTyped(t, v)
    requires it <= |payload| && payload[it..] == EncodeArg(t, v) + tail
    ensures var next := it + 1 + |v.bytes|;
            && next <= |payload| && payload[next..] == tail
            && DecodeFrom(t, payload, it, args) == DecodeFrom(t, payload, next, args + [v])
  {
    TagInverse(t, v);
    var next := it + 1 + |v.bytes|;
    assert payload[it] == payload[it..][0] == TagOf(t.types, v.typ);
    assert payload[it + 1..next] == payload[it..][1..1 + |v.bytes|] == v.bytes;
    assert payload[next..] == payload[it..][1 + |v.bytes|..] == tail;
  }

  /** The generated decoder inverts the generated encoder for every registered function, and the
      encoding has exactly the size of the code plus one tag and value per argument. */
  lemma DecodeInvertsEncode(t: Tables, fcode: nat, vs: seq<Value>)
    requires WellFormed(t) && AllWellTyped(t, vs) && 1 <= fcode <= |t.calls|
    requires |vs| == |t.calls[fcode - 1].args| && Matches(t, t.calls[fcode - 1], vs)
    ensures Written(t, fcode, vs) == Some(Encode(t, fcode, vs))
    ensures |Encode(t, fcode, vs)| == 2 + ArgsSize(vs)
    ensures Decode(t, Encode(t, fcode, vs)) == Params(fcode, vs)
  {
    assert vs[..|vs|] == vs;
    var payload := Encode(t, fcode, vs);
    assert payload[..2] == LittleEndian(fcode, 2);
    assert payload[2..] == EncodeArgs(t, vs);
    assert Pow256(2) == 0x1_0000;
    LittleEndianRoundTrip(fcode, 2);
    EncodeArgsSize(t, vs);
    DecodeEncodedArgs(t, payload, 2, [], vs);
  }

  /** Every tag from `it` on is known and every value is complete. */
  predicate Clean(t: Tables, payload: seq<byte>, it: nat)
    requires it <= |payload|
    decreases |payload| - it
  {
    it == |payload| ||
    (var tag := payload[it];
     Known(t, tag) && it + 1 + SizeOfTag(t, tag) <= |payload| && Clean(t, payload, it + 1 + SizeOfTag(t, tag)))
  }

  lemma TagUnique(t: Tables, tag: nat)
    requires WellFormed(t) && Known(t, tag)
    ensures TagOf(t.types, t.types[tag - 1]) == tag
  {
  }

  lemma {:induction false} CleanArgs(t: Tables, payload: seq<byte>, it: nat) returns (vs: seq<Value>)
    requires WellFormed(t) && it <= |payload| && Clean(t, payload, it)
    ensures AllWellTyped(t, vs) && EncodeArgs(t, vs) == payload[it..]
    decreases |payload| - it
  {
    if it == |payload| {
      vs := [];
    } else {
      var tag := payload[it];
      var size := SizeOfTag(t, tag);
      var v := Value(t.types[tag - 1], payload[it + 1..it + 1 + size]);
      CleanStep(t, payload, it, v);
      var rest := CleanArgs(t, payload, it + 1 + size);
      vs := [v] + rest;
      assert vs[1..] == rest;
    }
  }

  lemma TwoBytes(head: seq<byte>)
    requires |head| == 2
    ensures LittleEndian(FromLittleEndian(head), 2) == head
  {
    assert head[1..] == [head[1]];
    assert FromLittleEndian([head[1]]) == head[1] + 256 * FromLittleEndian([]);
    var n := FromLittleEndian(head);
    assert n % 256 == head[0] && n / 256 == head[1];
    assert LittleEndian(n / 256, 1) == [head[1]] + LittleEndian(n / 256 / 256, 0);
  }

  lemma CleanStep(t: Tables, payload: seq<byte>, it: nat, v: Value)
    requires WellFormed(t) && it < |payload| && Known(t, payload[it])
    requires it + 1 + SizeOfTag(t, payload[it]) <= |payload|
    requires v == Value(t.types[payload[it] - 1], payload[it + 1..it + 1 + SizeOfTag(t, payload[it])])
    ensures WellTyped(t, v) && SizeOfTag(t, payload[it]) > 0
    ensures EncodeArg(t, v) + payload[it + 1 + SizeOfTag(t, payload[it])..] == payload[it..]
  {
    TagUnique(t, payload[it]);
  }

  /** Conversely, a payload of complete known values is the encoding of what it decodes to. */
  lemma EncodeInvertsDecode(t: Tables, payload: seq<byte>)
    requires WellFormed(t) && |payload| >= 2 && Clean(t, payload, 2)
    ensures Decode(t, payload).Params?
    ensures AllWellTyped(t, Decode(t, payload).args)
    ensures Encode(t, Decode(t, payload).fcode, Decode(t, payload).args) == payload
  {
    var vs := CleanArgs(t, payload, 2);
    DecodeEncodedArgs(t, payload, 2, [], vs);
    assert [] + vs == vs;
    var head := payload[..2];
    TwoBytes(head);
    assert payload == head + payload[2..];
  }

  // ---------------------------------------------------------------- payloads that are no encoding

  /** The argument loop looks only at what lies ahead. */
  lemma {:induction false} DecodeSuffix(t: Tables, p: seq<byte>, i: nat, q: seq<byte>, j: nat, args: seq<Value>)
    requires i <= |p| && j <= |q| && p[i..] == q[j..]
    ensures DecodeFrom(t, p, i, args) == DecodeFrom(t, q, j, args)
    decreases |p| - i
  {
    assert |p| - i == |p[i..]| == |q[j..]| == |q| - j;
    if i < |p| {
      assert p[i] == p[i..][0] == q[j];
      if !Known(t, p[i]) {
        SameAhead(p, i, q, j, 1);
        DecodeSuffix(t, p, i + 1, q, j + 1, args);
      } else {
        var size := SizeOfTag(t, p[i]);
        if i + 1 + size <= |p| {
          SameAhead(p, i, q, j, 1 + size);
          assert p[i + 1..i + 1 + size] == p[i..][1..1 + size] == q[j + 1..j + 1 + size];
          DecodeSuffix(t, p, i + 1 + size, q, j + 1 + size, args + [Value(t.types[p[i] - 1], p[i + 1..i + 1 + size])]);
        }
      }
    }
  }

  lemma SameAhead(p: seq<byte>, i: nat, q: seq<byte>, j: nat, n: nat)
    requires i + n <= |p| && j + n <= |q| && p[i..] == q[j..]
    ensures p[i + n..] == q[j + n..]
  {
    assert p[i + n..] == p[i..][n..] && q[j + n..] == q[j..][n..];
  }

  lemma CodeThen(code: seq<byte>, rest: seq<byte>)
    requires |code| == 2
    ensures (code + rest)[2..] == rest && (code + rest)[..2] == code
  {
  }

  /** A byte that is no tag, between two arguments, is ignored. */
  lemma UnknownTagIgnored(t: Tables, code: seq<byte>, ws: seq<Value>, junk: byte, tail: seq<byte>)
    requires WellFormed(t) && AllWellTyped(t, ws) && |code| == 2 && !Known(t, junk)
    ensures Decode(t, code + (EncodeArgs(t, ws) + ([junk] + tail))) == Decode(t, code + (EncodeArgs(t, ws) + tail))
  {
    var p, q := code + (EncodeArgs(t, ws) + ([junk] + tail)), code + (EncodeArgs(t, ws) + tail);
    CodeThen(code, EncodeArgs(t, ws) + ([junk] + tail));
    CodeThen(code, EncodeArgs(t, ws) + tail);
    DecodePast(t, p, 2, [], ws, [junk] + tail);
    DecodePast(t, q, 2, [], ws, tail);
    SkipUnknown(t, p, |p| - |tail| - 1, [] + ws, junk, tail);
    DecodeSuffix(t, p, |p| - |tail|, q, |q| - |tail|, [] + ws);
  }

  lemma SkipUnknown(t: Tables, p: seq<byte>, i: nat, args: seq<Value>, junk: byte, tail: seq<byte>)
    requires i < |p| && p[i..] == [junk] + tail && !Known(t, junk)
    ensures p[i + 1..] == tail && DecodeFrom(t, p, i, args) == DecodeFrom(t, p, i + 1, args)
  {
    assert p[i] == p[i..][0];
    assert p[i + 1..] == p[i..][1..] == tail;
  }

  /** A value cut short: with no byte of it there the argument is all zeros, with some but not all the value
      is read past the end of the payload. */
  lemma CutShort(t: Tables, code: seq<byte>, ws: seq<Value>, tag: byte, part: seq<byte>)
    requires WellFormed(t) && AllWellTyped(t, ws) && |code| == 2 && Known(t, tag) && |part| < SizeOfTag(t, tag)
    ensures Decode(t, code + (EncodeArgs(t, ws) + ([tag] + part)))
            == if part == [] then Params(FromLittleEndian(code), ws + [Value(t.types[tag - 1], Copies(0, SizeOfTag(t, tag)))])
               else OutOfBounds
  {
    var p := code + (EncodeArgs(t, ws) + ([tag] + part));
    CodeThen(code, EncodeArgs(t, ws) + ([tag] + part));
    DecodePast(t, p, 2, [], ws, [tag] + part);
    assert [] + ws == ws;
    CutAt(t, p, |p| - |part| - 1, ws, tag, part);
  }

  lemma CutAt(t: Tables, p: seq<byte>, i: nat, args: seq<Value>, tag: byte, part: seq<byte>)
    requires i < |p| && p[i..] == [tag] + part && Known(t, tag) && |part| < SizeOfTag(t, tag)
    ensures DecodeFrom(t, p, i, args)
            == if part == [] then Some(args + [Value(t.types[tag - 1], Copies(0, SizeOfTag(t, tag)))]) else None
  {
    assert p[i] == p[i..][0] && |p| - i == 1 + |part|;
  }

  // ---------------------------------------------------------------- execution

  /** Which function Execute calls and with what. getArg logs a value of the wrong type and hands an unset
      variable to the function all the same, here None; only an argument that is not there at all throws. */
  datatype Invocation = Invoke(name: string, args: seq<Option<Value>>) | NoSuchFunction | MissingArgument

  /** getArg for each declared argument. */
  function Arguments(args: seq<TypeName>, vs: seq<Value>): (r: seq<Option<Value>>)
    requires |args| <= |vs|
    ensures |r| == |args|
    ensures forall i :: 0 <= i < |args| ==> r[i] == if vs[i].typ == args[i] then Some(vs[i]) else None
  {
    seq(|args|, i requires 0 <= i < |args| => if vs[i].typ == args[i] then Some(vs[i]) else None)
  }

  function Execute(t: Tables, fcode: nat, vs: seq<Value>): Invocation {
    if !(1 <= fcode <= |t.calls|) then NoSuchFunction
    else
      var sig := t.calls[fcode - 1];
      if |sig.args| <= |vs| then Invoke(sig.name, Arguments(sig.args, vs)) else MissingArgument
  }

  function Code(payload: seq<byte>): nat
    requires |payload| >= 2
  {
    FromLittleEndian(payload[..2])
  }

  /** The function of the payload's code runs, and with every argument set. */
  predicate RunsSound(t: Tables, payload: seq<byte>) {
    var params := Decode(t, payload);
    && params.Params? && 1 <= params.fcode <= |t.calls|
    && var r := Execute(t, params.fcode, params.args); r.Invoke? && None !in r.args
  }

  lemma ArgumentsSetIff(args: seq<TypeName>, vs: seq<Value>)
    requires |args| <= |vs|
    ensures None !in Arguments(args, vs) <==> forall i :: 0 <= i < |args| ==> vs[i].typ == args[i]
  {
    var r := Arguments(args, vs);
    if None !in r {
      forall i | 0 <= i < |args| ensures vs[i].typ == args[i] { assert r[i] in r; }
    }
  }

  /** `ws` are arguments for the function `fcode`, as its signature has them. */
  predicate Fits(t: Tables, fcode: nat, ws: seq<Value>) {
    && AllWellTyped(t, ws) && 1 <= fcode <= |t.calls|
    && |ws| == |t.calls[fcode - 1].args| && Matches(t, t.calls[fcode - 1], ws)
  }

  lemma {:induction false} EncodeArgsAppend(t: Tables, vs: seq<Value>, ws: seq<Value>)
    requires WellFormed(t) && AllWellTyped(t, vs) && AllWellTyped(t, ws)
    ensures AllWellTyped(t, vs + ws) && EncodeArgs(t, vs + ws) == EncodeArgs(t, vs) + EncodeArgs(t, ws)
    decreases |vs|
  {
    if vs == [] {
      assert vs + ws == ws;
    } else {
      assert (vs + ws)[1..] == vs[1..] + ws;
      EncodeArgsAppend(t, vs[1..], ws);
      Associative(EncodeArg(t, vs[0]), EncodeArgs(t, vs[1..]), EncodeArgs(t, ws));
    }
  }

  ghost predicate Finds(t: Tables, payload: seq<byte>, it: nat, args: seq<Value>, found: seq<Value>) {
    var r := DecodeFrom(t, payload, it, args);
    r.Some? ==> found <= r.value
  }

  /** Decoding a payload that begins with encoded arguments finds those arguments first. */
  lemma DecodePrefix(t: Tables, payload: seq<byte>, it: nat, args: seq<Value>, ws: seq<Value>, tail: seq<byte>)
    requires WellFormed(t) && AllWellTyped(t, ws)
    requires it <= |payload| && payload[it..] == EncodeArgs(t, ws) + tail
    ensures Finds(t, payload, it, args, args + ws)
  {
    DecodePast(t, payload, it, args, ws, tail);
    DecodeKeeps(t, payload, |payload| - |tail|, args + ws);
  }

  lemma {:induction false} DecodeKeeps(t: Tables, payload: seq<byte>, it: nat, args: seq<Value>)
    ensures var r := DecodeFrom(t, payload, it, args); r.Some? ==> args <= r.value
    decreases |payload| - it
  {
    if it < |payload| {
      var tag := payload[it];
      if !Known(t, tag) {
        DecodeKeeps(t, payload, it + 1, args);
      } else {
        var size := SizeOfTag(t, tag);
        if it + 1 < |payload| && it + 1 + size <= |payload| {
          DecodeKeeps(t, payload, it + 1 + size, args + [Value(t.types[tag - 1], payload[it + 1..it + 1 + size])]);
        }
      }
    }
  }

  lemma CleanDecodes(t: Tables, payload: seq<byte>) returns (vs: seq<Value>)
    requires WellFormed(t) && |payload| >= 2 && Clean(t, payload, 2)
    ensures Decode(t, payload) == Params(Code(payload), vs) && DecodeFrom(t, payload, 2, []) == Some(vs)
    ensures AllWellTyped(t, vs) && payload == Encode(t, Code(payload), vs)
  {
    EncodeInvertsDecode(t, payload);
    vs := Decode(t, payload).args;
  }

  lemma SoundIff(t: Tables, payload: seq<byte>, vs: seq<Value>)
    requires |payload| >= 2 && Decode(t, payload) == Params(Code(payload), vs)
    ensures RunsSound(t, payload) <==> 1 <= Code(payload) <= |t.calls| && Matches(t, t.calls[Code(payload) - 1], vs)
  {
    var fcode := Code(payload);
    if 1 <= fcode <= |t.calls| && |t.calls[fcode - 1].args| <= |vs| {
      ArgumentsSetIff(t.calls[fcode - 1].args, vs);
    }
  }

  lemma SoundHasArguments(t: Tables, payload: seq<byte>) returns (ws: seq<Value>)
    requires WellFormed(t) && |payload| >= 2 && Clean(t, payload, 2) && RunsSound(t, payload)
    ensures Fits(t, Code(payload), ws) && Encode(t, Code(payload), ws) <= payload
  {
    var vs := CleanDecodes(t, payload);
    SoundIff(t, payload, vs);
    var n := |t.calls[Code(payload) - 1].args|;
    ws := vs[..n];
    EncodePrefix(t, Code(payload), vs, n);
  }

  lemma EncodePrefix(t: Tables, fcode: nat, vs: seq<Value>, n: nat)
    requires WellFormed(t) && AllWellTyped(t, vs) && n <= |vs|
    ensures AllWellTyped(t, vs[..n]) && Encode(t, fcode, vs[..n]) <= Encode(t, fcode, vs)
  {
    var ws, rest := vs[..n], vs[n..];
    assert vs == ws + rest;
    EncodeArgsAppend(t, ws, rest);
    Associative(LittleEndian(fcode, 2), EncodeArgs(t, ws), EncodeArgs(t, rest));
  }

  lemma AfterCode(code: seq<byte>, front: seq<byte>, payload: seq<byte>) returns (tail: seq<byte>)
    requires |code| == 2 && code + front <= payload
    ensures payload[2..] == front + tail
  {
    tail := payload[2 + |front|..];
    assert payload[..2 + |front|] == code + front;
    assert payload[2..2 + |front|] == payload[..2 + |front|][2..] == front;
  }

  lemma ArgumentsMakeSound(t: Tables, payload: seq<byte>, ws: seq<Value>)
    requires WellFormed(t) && |payload| >= 2 && Clean(t, payload, 2)
    requires Fits(t, Code(payload), ws) && Encode(t, Code(payload), ws) <= payload
    ensures RunsSound(t, payload)
  {
    var vs := CleanDecodes(t, payload);
    var tail := AfterCode(LittleEndian(Code(payload), 2), EncodeArgs(t, ws), payload);
    DecodePrefix(t, payload, 2, [], ws, tail);
    assert [] + ws == ws && ws <= vs;
    SoundIff(t, payload, vs);
  }

  /** A payload of complete known values runs its function with every argument set if and only if it begins
      with what the encoder writes for some arguments of that function's signature. */
  lemma SoundCallIff(t: Tables, payload: seq<byte>)
    requires WellFormed(t) && |payload| >= 2 && Clean(t, payload, 2)
    ensures RunsSound(t, payload) <==>
            exists ws :: Fits(t, Code(payload), ws) && Encode(t, Code(payload), ws) <= payload
  {
    if RunsSound(t, payload) {
      var ws := SoundHasArguments(t, payload);
    }
    if ws :| Fits(t, Code(payload), ws) && Encode(t, Code(payload), ws) <= payload {
      ArgumentsMakeSound(t, payload, ws);
    }
  }

  /** Two functions f(A) and g(B) over types of one byte. */
  function TwoFunctions(): (t: Tables)
    ensures WellFormed(t) && |t.calls| == 2 && t.calls[0] == Signature("f", ["A"])
    ensures t.types == ["A", "B"] && t.sizes == map["A" := 1, "B" := 1]
  {
    Tables([Signature("f", ["A"]), Signature("g", ["B"])], ["A", "B"], map["A" := 1, "B" := 1])
  }

  lemma OneArgument(t: Tables, payload: seq<byte>, v: Value)
    requires |payload| == 4 && Known(t, payload[2]) && SizeOfTag(t, payload[2]) == 1
    requires v == Value(t.types[payload[2] - 1], [payload[3]])
    ensures DecodeFrom(t, payload, 2, []) == Some([v])
  {
    assert payload[3..4] == [payload[3]] && [] + [v] == [v];
    assert DecodeFrom(t, payload, 4, [v]) == Some([v]);
  }

  lemma CodeOne(payload: seq<byte>)
    requires |payload| >= 2 && payload[0] == 1 && payload[1] == 0
    ensures Code(payload) == 1
  {
    var low := payload[..2];
    assert low[1..][1..] == [];
    assert FromLittleEndian(low[1..]) == 0;
  }

  /** A payload that calls f with a B: f runs with its argument unset. */
  lemma WrongTypeLeavesUnset(payload: seq<byte>)
    requires payload == [1, 0, 2, 7]
    ensures var params := Decode(TwoFunctions(), payload);
            params.Params? && Execute(TwoFunctions(), params.fcode, params.args) == Invoke("f", [None])
  {
    var t := TwoFunctions();
    var v := Value("B", [7]);
    CodeOne(payload);
    OneArgument(t, payload, v);
    assert Arguments(["A"], [v]) == [None];
  }

  function AllSet(vs: seq<Value>): (r: seq<Option<Value>>)
    ensures |r| == |vs| && forall i :: 0 <= i < |vs| ==> r[i] == Some(vs[i])
  {
    seq(|vs|, i requires 0 <= i < |vs| => Some(vs[i]))
  }

  /** Client to server: encoding a call by its qualified name and executing the payload invokes that
      function on those arguments. */
  lemma RemoteCallInvokesFunction(t: Tables, k: nat, vs: seq<Value>)
    requires WellFormed(t) && AllWellTyped(t, vs) && k < |t.calls|
    requires |vs| == |t.calls[k].args| && Matches(t, t.calls[k], vs)
    ensures Written(t, k + 1, vs).Some?
    ensures var params := Decode(t, Written(t, k + 1, vs).value);
            params.Params? && Execute(t, params.fcode, params.args) == Invoke(t.calls[k].name, AllSet(vs))
  {
    DecodeInvertsEncode(t, k + 1, vs);
    assert Arguments(t.calls[k].args, vs) == AllSet(vs);
  }
}
