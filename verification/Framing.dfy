/** Length-prefixed messages over a stream that arrives in arbitrary pieces. */
module Framing {
  import opened BigEndian

  const HEADER_BYTES := 8
  const MAX_MESSAGE_BYTES := 0x10_0000
  const WORD: nat := 0x1_0000_0000_0000_0000

  datatype Received<+T> = Nothing | Message(value: T)

  function Frame(payload: seq<byte>): seq<byte> { ToBytes(|payload|, HEADER_BYTES) + payload }

  function Frames(payloads: seq<seq<byte>>): seq<byte>
    decreases payloads, 1
  {
    if payloads == [] then [] else FramesOn(payloads)
  }

  function FramesOn(payloads: seq<seq<byte>>): seq<byte>
    requires payloads != []
    decreases payloads, 0
  {
    Frame(payloads[0]) + Frames(payloads[1..])
  }

  /** The first message of a stream and the stream behind it, for a receiver that refuses any claim over `cap`. */
  function Decode(stream: seq<byte>, cap: nat): Received<(seq<byte>, seq<byte>)> {
    if |stream| < HEADER_BYTES then Nothing
    else
      var length := FromBytes(stream[..HEADER_BYTES]);
      if length > cap || |stream| < HEADER_BYTES + length then Nothing
      else Message((stream[HEADER_BYTES..HEADER_BYTES + length], stream[HEADER_BYTES + length..]))
  }

  function DecodeAll(stream: seq<byte>, cap: nat, count: nat): Received<(seq<seq<byte>>, seq<byte>)>
    decreases count, 1, stream
  {
    if count == 0 then Message(([], stream)) else DecodeOn(stream, cap, count)
  }

  function DecodeOn(stream: seq<byte>, cap: nat, count: nat): Received<(seq<seq<byte>>, seq<byte>)>
    requires count > 0
    decreases count, 0, stream
  {
    match Decode(stream, cap)
    case Nothing => Nothing
    case Message((payload, rest)) =>
      match DecodeAll(rest, cap, count - 1)
      case Nothing => Nothing
      case Message((payloads, end)) => Message(([payload] + payloads, end))
  }

  lemma HeaderHolds(n: nat)
    requires n < WORD
    ensures FromBytes(ToBytes(n, HEADER_BYTES)) == n
  {
    assert Pow256(8) == WORD by {
      assert Pow256(2) == 0x1_0000;
      assert Pow256(4) == 0x1_0000 * Pow256(2);
      assert Pow256(6) == 0x1_0000 * Pow256(4);
    }
    FromToBytes(n, HEADER_BYTES);
  }

  /** A frame is the length in eight bytes, the most significant first, and then the payload. */
  lemma FrameMeans(payload: seq<byte>, i: nat)
    requires i < HEADER_BYTES
    ensures |Frame(payload)| == 8 + |payload| && Frame(payload)[8..] == payload
    ensures Frame(payload)[i] as nat == |payload| / Pow256(7 - i) % 256
  {
    ByteAt(|payload|, HEADER_BYTES, i);
  }

  /** Whatever follows it, a frame is read back exactly when the receiver's cap allows its payload. */
  lemma FrameRoundTrip(payload: seq<byte>, rest: seq<byte>, cap: nat)
    requires |payload| < WORD
    ensures Decode(Frame(payload) + rest, cap) == if |payload| <= cap then Message((payload, rest)) else Nothing
  {
    var stream := Frame(payload) + rest;
    HeaderHolds(|payload|);
    assert stream[..HEADER_BYTES] == ToBytes(|payload|, HEADER_BYTES);
    assert stream[HEADER_BYTES..HEADER_BYTES + |payload|] == payload;
    assert stream[HEADER_BYTES + |payload|..] == rest;
  }

  lemma DecodeOneMore(
      stream: seq<byte>, cap: nat, payload: seq<byte>, tail: seq<byte>, payloads: seq<seq<byte>>, rest: seq<byte>)
    requires Decode(stream, cap) == Message((payload, tail))
    requires DecodeAll(tail, cap, |payloads|) == Message((payloads, rest))
    ensures DecodeAll(stream, cap, |payloads| + 1) == Message(([payload] + payloads, rest))
  {}

  lemma FirstOfFrames(payloads: seq<seq<byte>>, rest: seq<byte>, cap: nat)
    requires cap < WORD && payloads != [] && |payloads[0]| <= cap
    ensures Decode(Frames(payloads) + rest, cap) == Message((payloads[0], Frames(payloads[1..]) + rest))
  {
    var tail := Frames(payloads[1..]) + rest;
    assert Frames(payloads) + rest == Frame(payloads[0]) + tail;
    FrameRoundTrip(payloads[0], tail, cap);
  }

  /** A list of messages comes back as the same list in order, and leaves the stream at the boundary behind it. */
  lemma {:induction false} FramesRoundTrip(payloads: seq<seq<byte>>, rest: seq<byte>, cap: nat)
    requires cap < WORD && forall p :: p in payloads ==> |p| <= cap
    ensures DecodeAll(Frames(payloads) + rest, cap, |payloads|) == Message((payloads, rest))
  {
    if payloads == [] {
      assert Frames(payloads) + rest == rest;
    } else {
      var tail := Frames(payloads[1..]) + rest;
      FirstOfFrames(payloads, rest, cap);
      FramesRoundTrip(payloads[1..], rest, cap);
      DecodeOneMore(Frames(payloads) + rest, cap, payloads[0], tail, payloads[1..], rest);
      assert payloads == [payloads[0]] + payloads[1..];
    }
  }

  /** What has been decoded, framed again, is what was consumed: no byte is lost or made up. */
  lemma DecodeConsumesItsFrame(stream: seq<byte>, cap: nat)
    requires Decode(stream, cap).Message?
    ensures stream == Frame(Decode(stream, cap).value.0) + Decode(stream, cap).value.1
  {
    ToFromBytes(stream[..HEADER_BYTES]);
  }

  lemma SameFirstFrame(a: seq<byte>, restA: seq<byte>, b: seq<byte>, restB: seq<byte>)
    requires |a| < WORD && |b| < WORD && Frame(a) + restA == Frame(b) + restB
    ensures a == b && restA == restB
  {
    FrameRoundTrip(a, restA, WORD - 1);
    FrameRoundTrip(b, restB, WORD - 1);
  }

  lemma FirstMessageMatches(a: seq<seq<byte>>, b: seq<seq<byte>>, rest: seq<byte>)
    requires a != [] && b != [] && |a[0]| < WORD && |b[0]| < WORD && Frames(a) == Frames(b) + rest
    ensures a[0] == b[0] && Frames(a[1..]) == Frames(b[1..]) + rest
  {
    var mine, theirs := Frames(a[1..]), Frames(b[1..]) + rest;
    assert Frames(b) + rest == Frame(b[0]) + theirs;
    SameFirstFrame(a[0], mine, b[0], theirs);
  }

  /** If what was sent for one list of messages begins with what is sent for another, the other list is
      the beginning of the first, and the rest is what is sent for the remaining messages. So no two
      lists look alike on the wire. */
  lemma {:induction false} FramesUnambiguous(a: seq<seq<byte>>, b: seq<seq<byte>>, rest: seq<byte>)
    requires (forall p :: p in a ==> |p| < WORD) && (forall p :: p in b ==> |p| < WORD)
    requires Frames(a) == Frames(b) + rest
    ensures |b| <= |a| && b == a[..|b|] && rest == Frames(a[|b|..])
  {
    if b == [] {
      assert a[0..] == a && Frames(b) + rest == rest;
    } else {
      assert |Frames(b)| >= HEADER_BYTES;
      assert a != [];
      assert a[0] in a && b[0] in b;
      FirstMessageMatches(a, b, rest);
      FramesUnambiguous(a[1..], b[1..], rest);
      assert a[1..][|b| - 1..] == a[|b|..];
      assert b == [b[0]] + b[1..];
      assert a[..|b|] == [a[0]] + a[1..][..|b| - 1];
    }
  }

  /** One end of a connection. `incoming` is everything the peer sends from here on; `chunk` says how
      much each call moves at most, or, when it is not positive, that the call fails. */
  class Socket {
    var incoming: seq<byte>
    var outgoing: seq<byte>
    var calls: nat
    const chunk: nat -> int

    constructor (incoming: seq<byte>, chunk: nat -> int)
      ensures this.incoming == incoming && outgoing == [] && this.chunk == chunk
    {
      this.incoming, outgoing, calls, this.chunk := incoming, [], 0, chunk;
    }

    /** No call fails, though each may move as little as one byte. */
    ghost predicate Reliable() { forall k :: chunk(k) > 0 }

    /** The bytes go into the caller's memory and nothing else there changes. */
    static method Deposit(buffer: array<byte>, start: nat, bytes: seq<byte>)
      requires start + |bytes| <= buffer.Length
      modifies buffer
      ensures buffer[..] == old(buffer[..start]) + bytes + old(buffer[start + |bytes|..])
    {
      for i := 0 to |bytes|
        invariant buffer[..] == old(buffer[..start]) + bytes[..i] + old(buffer[start + i..])
      {
        buffer[start + i] := bytes[i];
      }
    }

    method Recv(buffer: array<byte>, start: nat, count: nat) returns (n: int)
      requires start + count <= buffer.Length && count > 0
      modifies this`incoming, this`calls, buffer
      ensures n <= count && n <= |old(incoming)|
      ensures n <= 0 ==> incoming == old(incoming) && buffer[..] == old(buffer[..])
      ensures n > 0 ==> incoming == old(incoming)[n..]
      ensures n > 0 ==> buffer[..] == old(buffer[..start]) + old(incoming)[..n] + old(buffer[start + n..])
      ensures Reliable() && old(incoming) != [] ==> n > 0
    {
      n := chunk(calls);
      calls := calls + 1;
      if n <= 0 { return; }
      if n > count { n := count; }
      if n > |incoming| { n := |incoming|; }
      Deposit(buffer, start, incoming[..n]);
      incoming := incoming[n..];
    }

    method Send(bytes: seq<byte>) returns (n: int)
      requires bytes != []
      modifies this`outgoing, this`calls
      ensures n <= |bytes|
      ensures outgoing == old(outgoing) + if n > 0 then bytes[..n] else []
      ensures n == if chunk(old(calls)) < |bytes| then chunk(old(calls)) else |bytes|
    {
      n := chunk(calls);
      calls := calls + 1;
      if n <= 0 { return; }
      if n > |bytes| { n := |bytes|; }
      outgoing := outgoing + bytes[..n];
    }
  }

  /** Fills the whole buffer, however many pieces that takes, or fails. */
  method RecvExact(socket: Socket, buffer: array<byte>) returns (ok: bool)
    modifies socket`incoming, socket`calls, buffer
    ensures ok ==>
      (var n := buffer.Length;
       n <= |old(socket.incoming)| && buffer[..] == old(socket.incoming)[..n] &&
       socket.incoming == old(socket.incoming)[n..])
    ensures socket.Reliable() ==> (ok <==> buffer.Length <= |old(socket.incoming)|)
  {
    var received := 0;
    while received < buffer.Length
      invariant received <= buffer.Length && received <= |old(socket.incoming)|
      invariant buffer[..received] == old(socket.incoming)[..received]
      invariant socket.incoming == old(socket.incoming)[received..]
    {
      var n := socket.Recv(buffer, received, buffer.Length - received);
      if n <= 0 { return false; }
      assert buffer[..received + n] == old(socket.incoming)[..received] + old(socket.incoming)[received..][..n];
      received := received + n;
    }
    assert buffer[..] == buffer[..received];
    return true;
  }

  /** Sends all the bytes, however many pieces that takes; a failed call has sent a proper beginning. */
  method SendExact(socket: Socket, bytes: seq<byte>) returns (ok: bool, ghost sent: nat)
    modifies socket`outgoing, socket`calls
    ensures sent <= |bytes| && (ok <==> sent == |bytes|) && socket.outgoing == old(socket.outgoing) + bytes[..sent]
    ensures socket.Reliable() ==> ok
  {
    var done := 0;
    while done < |bytes|
      invariant 0 <= done <= |bytes|
      invariant socket.outgoing == old(socket.outgoing) + bytes[..done]
    {
      var n := socket.Send(bytes[done..]);
      if n <= 0 { return false, done; }
      assert bytes[..done] + bytes[done..][..n] == bytes[..done + n];
      done := done + n;
    }
    return true, done;
  }

  /** A message goes out as its frame; a failed call leaves a proper beginning of the frame behind. */
  method SendFramed(socket: Socket, payload: seq<byte>) returns (ok: bool, ghost sent: nat)
    modifies socket`outgoing, socket`calls
    ensures sent <= |Frame(payload)| && (ok <==> sent == |Frame(payload)|)
    ensures socket.outgoing == old(socket.outgoing) + Frame(payload)[..sent]
    ensures socket.Reliable() ==> ok
  {
    var header := Header(|payload|);
    ok, sent := SendExact(socket, header);
    assert Frame(payload)[..sent] == header[..sent];
    if ok && payload != [] {
      ghost var more;
      ok, more := SendExact(socket, payload);
      assert Frame(payload)[..sent + more] == header + payload[..more];
      sent := sent + more;
    }
  }

  /** The length, one byte at a time, the most significant first. */
  method Header(length: nat) returns (header: seq<byte>)
    ensures header == ToBytes(length, HEADER_BYTES)
  {
    var bytes := new byte[HEADER_BYTES];
    for i := 0 to HEADER_BYTES
      invariant bytes[..i] == ToBytes(length, HEADER_BYTES)[..i]
    {
      bytes[i] := (length / Pow256(7 - i) % 256) as byte;
      ByteAt(length, HEADER_BYTES, i);
    }
    header := bytes[..];
  }

  /** The length back, shifting a 64-bit word. */
  method ReadHeader(header: array<byte>) returns (length: nat)
    requires header.Length == HEADER_BYTES
    ensures length == FromBytes(header[..])
  {
    length := 0;
    for i := 0 to HEADER_BYTES
      invariant length == FromBytes(header[..i])
    {
      HeaderPrefixFits(header[..i]);
      assert header[..i + 1][..i] == header[..i];
      length := length * 256 % WORD + header[i] as nat;
    }
    assert header[..HEADER_BYTES] == header[..];
  }

  /** Reads one message; a claim over the cap is refused before anything is allocated for it. */
  method RecvFramed(socket: Socket) returns (r: Received<seq<byte>>)
    modifies socket`incoming, socket`calls
    ensures r.Message? ==> Decode(old(socket.incoming), MAX_MESSAGE_BYTES) == Message((r.value, socket.incoming))
    ensures socket.Reliable() ==> (r.Message? <==> Decode(old(socket.incoming), MAX_MESSAGE_BYTES).Message?)
  {
    ghost var stream := socket.incoming;
    var header := new byte[HEADER_BYTES];
    var ok := RecvExact(socket, header);
    if !ok { return Nothing; }
    ghost var rest := socket.incoming;
    var length := ReadHeader(header);
    assert length == FromBytes(stream[..HEADER_BYTES]);
    if length > MAX_MESSAGE_BYTES { return Nothing; }
    var payload := new byte[length];
    if length > 0 {
      ok := RecvExact(socket, payload);
      if !ok { return Nothing; }
    }
    r := Message(payload[..]);
    assert payload[..] == rest[..length] == stream[HEADER_BYTES..HEADER_BYTES + length];
    assert socket.incoming == rest[length..] == stream[HEADER_BYTES + length..];
  }

  /** The messages somebody sent come out of repeated calls as they were, and nothing of what follows
      them is taken. */
  method ReceiveAll(socket: Socket, count: nat, ghost payloads: seq<seq<byte>>, ghost rest: seq<byte>)
    returns (got: seq<seq<byte>>)
    requires socket.Reliable() && socket.incoming == Frames(payloads) + rest && |payloads| == count
    requires forall p :: p in payloads ==> |p| <= MAX_MESSAGE_BYTES
    modifies socket`incoming, socket`calls
    ensures got == payloads && socket.incoming == rest
  {
    got := [];
    assert payloads[0..] == payloads;
    for i := 0 to count
      invariant got == payloads[..i] && socket.incoming == Frames(payloads[i..]) + rest
    {
      FirstOfFrames(payloads[i..], rest, MAX_MESSAGE_BYTES);
      var r := RecvFramed(socket);
      got := got + [r.value];
    }
  }

  /** Seven bytes shifted up by one more do not overflow a 64-bit word. */
  lemma HeaderPrefixFits(prefix: seq<byte>)
    requires |prefix| < HEADER_BYTES
    ensures FromBytes(prefix) * 256 < WORD
  {
    FromBytesBound(prefix);
    PowersGrow(|prefix|, 7);
    assert Pow256(7) * 256 == WORD by {
      assert Pow256(2) == 0x1_0000;
      assert Pow256(4) == 0x1_0000 * Pow256(2);
      assert Pow256(6) == 0x1_0000 * Pow256(4);
    }
  }

  lemma {:induction false} PowersGrow(a: nat, b: nat)
    requires a <= b
    ensures Pow256(a) <= Pow256(b)
  {
    if a < b { PowersGrow(a, b - 1); }
  }
}
