/** The two shared queues of an endpoint as mutable objects. A wait whose predicate is false leaves the
    caller blocked and the object unchanged; the methods report that instead of waiting. */
module Queues {
  import opened Wire

  class ByteQueue {
    const buffer: array<byte>
    var size: nat

    ghost predicate Valid() reads this {
      size <= buffer.Length
    }

    ghost function Contents(): seq<byte>
      requires Valid()
      reads this, buffer
    {
      buffer[..size]
    }

    constructor (bufferSize: nat)
      ensures Valid() && fresh(buffer) && buffer.Length == bufferSize && Contents() == []
    {
      buffer := new byte[bufferSize](_ => 0);
      size := 0;
    }

    /** addBytes: appends the chunk exactly when it fits. */
    method AddBytes(data: seq<byte>) returns (added: bool)
      requires Valid()
      modifies this`size, buffer
      ensures Valid()
      ensures added <==> old(size) + |data| <= buffer.Length
      ensures Contents() == if added then old(Contents()) + data else old(Contents())
    {
      added := size + |data| <= buffer.Length;
      if added {
        forall i | 0 <= i < |data| {
          buffer[size + i] := data[i];
        }
        assert buffer[..size] == old(buffer[..size]);
        assert buffer[size..size + |data|] == data;
        size := size + |data|;
      }
    }

    method ReadLength() returns (toRead: int)
      requires Valid() && size >= 4
      ensures toRead == LengthField(Contents())
    {
      var header := buffer[..4];
      assert header[..4] == Contents()[..4];
      toRead := LengthField(header);
    }

    /** fetchNextMsg: removes the first frame and hands out its body, moving the rest to the front. */
    method FetchNextMsg() returns (r: Fetch)
      requires Valid()
      modifies this`size, buffer
      ensures Valid()
      ensures r == FetchNext(old(Contents()))
      ensures Contents() == if r.Fetched? then r.rest else old(Contents())
    {
      if size < 4 {
        return Blocked;
      }
      var toRead := ReadLength();
      var packet := Wrap32(toRead + 4);
      if packet < 0 || packet > size {
        return Blocked;
      }
      if toRead < 0 {
        return Corrupt;
      }
      var body := buffer[4..packet];
      ghost var before := buffer[..size];
      assert body == before[4..packet];
      size := size - packet;
      if size > 0 {
        forall i | 0 <= i < size {
          buffer[i] := buffer[packet + i];
        }
      }
      assert buffer[..size] == before[packet..];
      r := Fetched(body, buffer[..size]);
    }

    method Count() returns (n: nat)
      requires Valid()
      ensures n == |Contents()|
    {
      n := size;
    }
  }

  class SMessageQueue<T> {
    var q: seq<T>

    constructor ()
      ensures q == []
    {
      q := [];
    }

    method Push(value: T)
      modifies this
      ensures q == old(q) + [value]
    {
      q := q + [value];
    }

    /** pop after the wait: a thread woken with nothing queued gets a default value, here None. */
    method Pop() returns (r: Option<T>)
      modifies this
      ensures old(q) == [] ==> r == None && q == []
      ensures old(q) != [] ==> r == Some(old(q)[0]) && q == old(q)[1..]
    {
      if q == [] {
        r := None;
      } else {
        r := Some(q[0]);
        q := q[1..];
      }
    }
  }
}
