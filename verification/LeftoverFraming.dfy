/** The SQL server's framing: the receiver reads in buffers that may run past the message, and keeps
    what is left over for the next call. It reads the same stream of messages. */
module LeftoverFraming {
  import opened BigEndian
  import opened Framing

  const BUFFER_SIZE := 1024

  /** The length of a message is a 64-bit word, so this caps nothing. */
  const NO_CAP := WORD - 1

  lemma {:induction false} FramesAppend(a: seq<seq<byte>>, b: seq<seq<byte>>)
    ensures Frames(a + b) == Frames(a) + Frames(b)
  {
    if a == [] {
      assert a + b == b;
    } else {
      FramesAppend(a[1..], b);
      assert (a + b)[1..] == a[1..] + b;
    }
  }

  lemma OneMoreFrame(a: seq<seq<byte>>, p: seq<byte>)
    ensures Frames(a + [p]) == Frames(a) + Frame(p)
  {
    FramesAppend(a, [p]);
    assert [p][1..] == [];
    assert Frames([p]) == Frame(p) + Frames([p][1..]);
  }

  /** Sends the length in one call, which has to take all of it, and then the data in pieces. */
  method SendFullString(socket: Socket, data: seq<byte>) returns (ok: bool, ghost sent: nat)
    modifies socket`outgoing, socket`calls
    ensures sent <= |Frame(data)| && socket.outgoing == old(socket.outgoing) + Frame(data)[..sent]
    ensures ok <==> sent == |Frame(data)| && socket.chunk(old(socket.calls)) >= HEADER_BYTES
    ensures socket.Reliable() ==> (ok <==> socket.chunk(old(socket.calls)) >= HEADER_BYTES)
  {
    var header := Header(|data|);
    var n := socket.Send(header);
    sent := if n > 0 then n else 0;
    assert Frame(data)[..sent] == header[..sent];
    if n != HEADER_BYTES { return false, sent; }
    ok := true;
    var total := 0;
    while total < |data|
      invariant 0 <= total <= |data|
      invariant socket.outgoing == old(socket.outgoing) + Frame(data)[..HEADER_BYTES + total]
    {
      var bytes := socket.Send(data[total..]);
      if bytes <= 0 { return false, HEADER_BYTES + total; }
      assert Frame(data)[..HEADER_BYTES + total] + data[total..][..bytes] ==
        Frame(data)[..HEADER_BYTES + total + bytes];
      total := total + bytes;
    }
    sent := HEADER_BYTES + total;
  }

  lemma HeaderIsWord(header: seq<byte>)
    requires |header| == HEADER_BYTES
    ensures FromBytes(header) <= NO_CAP
  {
    FromBytesBound(header);
    HeaderPrefixFits(header[..7]);
    assert FromBytes(header[..7]) * 256 % 256 == 0;
  }

  class Receiver {
    var leftover: seq<byte>
    const socket: Socket
    /** Everything the peer ever sends, and the messages received so far. */
    ghost const whole: seq<byte>
    ghost var received: seq<seq<byte>>

    /** What is still to come. */
    ghost function Stream(): seq<byte>
      reads this, socket
    {
      leftover + socket.incoming
    }

    /** The messages received, framed again, then the leftover, then the unread bytes are the whole stream. */
    ghost predicate Valid()
      reads this, socket
    {
      Frames(received) + Stream() == whole && forall p :: p in received ==> |p| <= NO_CAP
    }

    constructor (socket: Socket)
      ensures Valid() && this.socket == socket && leftover == [] && received == [] && whole == socket.incoming
    {
      this.socket, leftover, received, whole := socket, [], [], socket.incoming;
    }

    /** Appends one buffer of what arrives to the given bytes. */
    method ReadMore(have: seq<byte>) returns (ok: bool, more: seq<byte>)
      modifies socket`incoming, socket`calls
      ensures ok ==> |have| < |more| <= |have| + |old(socket.incoming)|
      ensures ok ==> more + socket.incoming == have + old(socket.incoming)
      ensures ok ==> have <= more
      ensures !ok ==> socket.incoming == old(socket.incoming)
      ensures socket.Reliable() ==> (ok <==> old(socket.incoming) != [])
    {
      var tmp := new byte[BUFFER_SIZE];
      var r := socket.Recv(tmp, 0, BUFFER_SIZE);
      if r <= 0 { return false, have; }
      assert tmp[..r] == old(socket.incoming)[..r];
      ok, more := true, have + tmp[..r];
    }

    /** Reads until the leftover holds a header. */
    method FillHeader() returns (ok: bool)
      modifies this`leftover, socket`incoming, socket`calls
      ensures Stream() == old(Stream())
      ensures ok ==> |leftover| >= HEADER_BYTES
      ensures |old(leftover)| >= HEADER_BYTES ==> ok
      ensures socket.Reliable() ==> (ok <==> |old(Stream())| >= HEADER_BYTES)
    {
      ok := true;
      while |leftover| < HEADER_BYTES
        invariant Stream() == old(Stream())
        decreases HEADER_BYTES - |leftover|
      {
        var more;
        ok, more := ReadMore(leftover);
        if !ok { return; }
        leftover := more;
      }
    }

    /** Takes `size` bytes: first from the leftover, then from the socket; what a read brings beyond them
        is the new leftover. */
    method ReadBody(size: nat) returns (ok: bool, data: seq<byte>)
      modifies this`leftover, socket`incoming, socket`calls
      ensures ok ==> size <= |old(Stream())| && data == old(Stream())[..size] && Stream() == old(Stream())[size..]
      ensures !ok ==> data + Stream() == old(Stream())
      ensures socket.Reliable() ==> (ok <==> size <= |old(Stream())|)
      ensures socket.Reliable() && !ok ==> Stream() == []
    {
      var use := if size < |leftover| then size else |leftover|;
      data := leftover[..use];
      leftover := leftover[use..];
      ok := true;
      assert data + Stream() == old(Stream());
      while |data| < size
        invariant |data| <= size && (|data| < size ==> leftover == [])
        invariant data + Stream() == old(Stream())
        decreases size - |data|
      {
        var more;
        ok, more := ReadMore([]);
        if !ok { return; }
        var needed := size - |data|;
        assert data + (more + socket.incoming) == old(Stream());
        if |more| > needed {
          data := data + more[..needed];
          leftover := more[needed..];
        } else {
          data := data + more;
        }
      }
    }

    /** Reads one message off the stream. */
    method Next() returns (r: Received<seq<byte>>, ghost lost: nat)
      modifies this`leftover, socket`incoming, socket`calls
      ensures r.Message? ==> Decode(old(Stream()), NO_CAP) == Message((r.value, Stream()))
      ensures r.Nothing? ==> lost <= |old(Stream())| && Stream() == old(Stream())[lost..]
      ensures r.Nothing? ==> lost == 0 || lost >= HEADER_BYTES
      ensures r.Nothing? && |old(leftover)| >= HEADER_BYTES ==> lost > 0
      ensures r.Nothing? && socket.Reliable() ==>
        lost == if |old(Stream())| >= HEADER_BYTES then |old(Stream())| else 0
      ensures socket.Reliable() ==> (r.Message? <==> Decode(old(Stream()), NO_CAP).Message?)
    {
      ghost var stream := Stream();
      lost := 0;
      var ok := FillHeader();
      if !ok { return Nothing, 0; }
      var header := leftover[..HEADER_BYTES];
      leftover := leftover[HEADER_BYTES..];
      assert header == stream[..HEADER_BYTES] && Stream() == stream[HEADER_BYTES..];
      HeaderIsWord(header);
      var size := FromBytes(header);
      var data;
      ok, data := ReadBody(size);
      if !ok {
        assert stream == header + data + Stream();
        return Nothing, HEADER_BYTES + |data|;
      }
      r := Message(data);
      assert data == stream[HEADER_BYTES..HEADER_BYTES + size];
      assert Stream() == stream[HEADER_BYTES + size..];
    }

    /** The next message; if the connection fails after its header has been taken, the header and what
        came of the body are lost. When the peer just stops sending, a failed call loses all that was
        left of the stream if that was a header or more, and nothing if it was less. */
    method RecvFullString() returns (r: Received<seq<byte>>, ghost lost: nat)
      requires Valid()
      modifies this`leftover, this`received, socket`incoming, socket`calls
      ensures r.Message? ==> Valid() && received == old(received) + [r.value]
      ensures r.Message? ==> Decode(old(Stream()), NO_CAP) == Message((r.value, Stream()))
      ensures r.Nothing? ==> received == old(received) && lost <= |old(Stream())| && Stream() == old(Stream())[lost..]
      ensures r.Nothing? ==> lost == 0 || lost >= HEADER_BYTES
      ensures r.Nothing? && |old(leftover)| >= HEADER_BYTES ==> lost > 0
      ensures r.Nothing? && socket.Reliable() ==>
        lost == if |old(Stream())| >= HEADER_BYTES then |old(Stream())| else 0
      ensures socket.Reliable() ==> (r.Message? <==> Decode(old(Stream()), NO_CAP).Message?)
    {
      ghost var stream := Stream();
      r, lost := Next();
      if r.Message? {
        AccountForOne(received, stream, r.value, Stream());
        received := received + [r.value];
      }
    }
  }

  lemma AccountForOne(received: seq<seq<byte>>, stream: seq<byte>, message: seq<byte>, rest: seq<byte>)
    requires Decode(stream, NO_CAP) == Message((message, rest))
    ensures Frames(received + [message]) + rest == Frames(received) + stream && |message| <= NO_CAP
  {
    DecodeConsumesItsFrame(stream, NO_CAP);
    OneMoreFrame(received, message);
    assert Frames(received) + (Frame(message) + rest) == (Frames(received) + Frame(message)) + rest;
  }

  /** At every step what has been received is a beginning of what was sent, and the leftover and unread
      bytes are the frames of the rest. */
  lemma ReceivedIsPrefix(receiver: Receiver, sent: seq<seq<byte>>)
    requires receiver.Valid() && receiver.whole == Frames(sent) && forall p :: p in sent ==> |p| <= NO_CAP
    ensures |receiver.received| <= |sent| && receiver.received == sent[..|receiver.received|]
    ensures receiver.Stream() == Frames(sent[|receiver.received|..])
  {
    FramesUnambiguous(sent, receiver.received, receiver.Stream());
  }

  lemma TruncatedIsNoMessage(x: byte)
    ensures
      var stream := ToBytes(2, HEADER_BYTES) + [x];
      |stream| == HEADER_BYTES + 1 && Decode(stream, NO_CAP).Nothing?
  {
    HeaderHolds(2);
    assert (ToBytes(2, HEADER_BYTES) + [x])[..HEADER_BYTES] == ToBytes(2, HEADER_BYTES);
  }

  /** A peer that announces two bytes and stops after one: the call fails and all nine bytes are gone,
      so whatever the peer sends next is taken for the beginning of a message. */
  method TruncatedMessageIsLost(x: byte) returns (receiver: Receiver)
    ensures fresh(receiver) && fresh(receiver.socket) && receiver.whole == ToBytes(2, HEADER_BYTES) + [x]
    ensures receiver.received == [] && receiver.Stream() == [] && !receiver.Valid()
  {
    TruncatedIsNoMessage(x);
    var socket := new Socket(ToBytes(2, HEADER_BYTES) + [x], k => 1);
    receiver := new Receiver(socket);
    assert receiver.Stream() == receiver.whole;
    var r, lost := receiver.RecvFullString();
    assert receiver.Stream() == [];
    assert Frames([]) + [] == [];
  }
}
