/**
 Deluge's RPC wire protocol, `transfer.py`: framed messages that arrive in chunks of any size, and the buffer that they
 are put together in. What the bodies mean (zlib, rencode) is left out.
 */
module Transfer {
  import opened Bytes

  const PROTOCOL_VERSION: Byte := 1

  const MESSAGE_HEADER_SIZE := 5

  const UINT32_LIMIT := 0x1_0000_0000

  /** The header `!BI`: the version, and the length as a big-endian number of 32 bits. */
  function Header(length: nat): (h: Bytes)
    requires length < UINT32_LIMIT
    ensures |h| == MESSAGE_HEADER_SIZE
  {
    [PROTOCOL_VERSION, length / 0x100_0000, length / 0x1_0000 % 0x100, length / 0x100 % 0x100, length % 0x100]
  }

  function HeaderLength(h: Bytes): (length: nat)
    requires |h| == MESSAGE_HEADER_SIZE
    ensures length < UINT32_LIMIT
  {
    var a: nat, b: nat, c: nat := h[1], h[2], h[3];
    0x100_0000 * a + 0x1_0000 * b + 0x100 * c + h[4]
  }

  lemma {:induction false} HeaderRoundTrip(length: nat)
    requires length < UINT32_LIMIT
    ensures HeaderLength(Header(length)) == length && Header(length)[0] == PROTOCOL_VERSION
  {
    var h := Header(length);
    HeaderBytes(length, h[1], h[2], h[3], h[4]);
  }

  lemma {:induction false} HeaderBytes(length: nat, a: nat, b: nat, c: nat, d: nat)
    requires a == length / 0x100_0000 && b == length / 0x1_0000 % 0x100 && c == length / 0x100 % 0x100
    requires d == length % 0x100
    ensures 0x100_0000 * a + 0x1_0000 * b + 0x100 * c + d == length
  {
    var p, q := length / 0x100, length / 0x1_0000;
    assert length == 0x100 * p + d;
    assert p / 0x100 == q && p == 0x100 * q + c;
    assert q / 0x100 == a && q == 0x100 * a + b;
  }

  function PowerOf256(k: nat): (p: nat)
    ensures p > 0
  {
    if k == 0 then 1 else 256 * PowerOf256(k - 1)
  }

  /** The most significant byte comes first. */
  lemma {:induction false} HeaderIsBigEndian(length: nat)
    requires length < UINT32_LIMIT
    ensures Header(length)[0] == 1
    ensures forall i :: 1 <= i <= 4 ==> Header(length)[i] == length / PowerOf256(4 - i) % 256
  {
    assert PowerOf256(1) == 256 && PowerOf256(2) == 65536 && PowerOf256(3) == 16777216;
  }

  /** So headers compare, byte by byte, as the lengths do. */
  lemma {:induction false} HeadersInOrder(n: nat, m: nat)
    requires n < UINT32_LIMIT && m < UINT32_LIMIT
    ensures n < m <==> Before(Header(n), Header(m))
  {
    if n < m {
      SmallerHeader(n, m);
    } else if m < n {
      SmallerHeader(m, n);
      LessIff(Header(n), Header(m));
      LessIff(Header(m), Header(n));
      LessIsTotal(Header(n), Header(m));
    } else {
      LessIff(Header(n), Header(m));
      LessIsIrreflexive(Header(n));
    }
  }

  lemma {:induction false} SmallerHeader(n: nat, m: nat)
    requires n < m < UINT32_LIMIT
    ensures Before(Header(n), Header(m))
  {
    var h, k := Header(n), Header(m);
    HeaderBytes(n, h[1], h[2], h[3], h[4]);
    HeaderBytes(m, k[1], k[2], k[3], k[4]);
    var i := if h[1] != k[1] then 1 else if h[2] != k[2] then 2 else if h[3] != k[3] then 3 else 4;
    assert h[..i] == k[..i];
    assert FirstSmaller(h, k, i);
  }

  predicate Sendable(bodies: seq<Bytes>) {
    forall i :: 0 <= i < |bodies| ==> |bodies[i]| < UINT32_LIMIT
  }

  function Frame(body: Bytes): Bytes
    requires |body| < UINT32_LIMIT
  {
    Header(|body|) + body
  }

  /** The stream of framed bodies. */
  function Frames(bodies: seq<Bytes>): Bytes
    requires Sendable(bodies)
  {
    if bodies == [] then [] else Frame(bodies[0]) + Frames(bodies[1..])
  }

  // ----- what a received chunk does

  /** The buffer, the length of the message that is being received, or 0, and the bodies that were delivered. */
  datatype Conn = Conn(buffer: Bytes, messageLength: nat, delivered: seq<Bytes>)

  const START := Conn([], 0, [])

  /** The start of a message: a header is taken off the buffer. After a header of another version nothing is left. */
  function NewMessage(c: Conn): Conn
    requires |c.buffer| >= MESSAGE_HEADER_SIZE
  {
    var header := c.buffer[..MESSAGE_HEADER_SIZE];
    if header[0] != PROTOCOL_VERSION then Conn([], 0, c.delivered)
    else Conn(c.buffer[MESSAGE_HEADER_SIZE..], HeaderLength(header), c.delivered)
  }

  /** Delivers what the buffer holds. */
  function Process(c: Conn): Conn
    decreases |c.buffer|
  {
    if |c.buffer| < MESSAGE_HEADER_SIZE then c else
    var d := if c.messageLength == 0 then NewMessage(c) else c;
    if |d.buffer| < d.messageLength then d else
    Process(Conn(d.buffer[d.messageLength..], 0, d.delivered + [d.buffer[..d.messageLength]]))
  }

  function Received(c: Conn, data: Bytes): Conn {
    Process(c.(buffer := c.buffer + data))
  }

  function ReceivedAll(c: Conn, chunks: seq<Bytes>): Conn {
    if chunks == [] then c else Received(ReceivedAll(c, chunks[..|chunks| - 1]), chunks[|chunks| - 1])
  }

  function Concat(chunks: seq<Bytes>): Bytes {
    if chunks == [] then [] else Concat(chunks[..|chunks| - 1]) + chunks[|chunks| - 1]
  }

  /** A message of another version: all that was received is dropped, and the decoder is handed an empty body. */
  lemma {:induction false} WrongVersion(c: Conn, data: Bytes)
    requires c.messageLength == 0 && |c.buffer + data| >= MESSAGE_HEADER_SIZE && (c.buffer + data)[0] != 1
    ensures Received(c, data) == Conn([], 0, c.delivered + [[]])
  {
    var d := NewMessage(c.(buffer := c.buffer + data));
    var after := Conn([], 0, c.delivered + [[]]);
    assert Conn(d.buffer[0..], 0, d.delivered + [d.buffer[..0]]) == after;
    assert Process(after) == after;
  }

  class DelugeTransferProtocol {
    var buffer: Bytes
    var messageLength: nat
    var bytesReceived: nat
    var bytesSent: nat
    // the bodies of the complete messages, and what was written to the transport
    var delivered: seq<Bytes>
    var written: Bytes

    constructor ()
      ensures View() == START && bytesReceived == 0 && bytesSent == 0 && written == []
    {
      buffer, messageLength, bytesReceived, bytesSent := [], 0, 0, 0;
      delivered, written := [], [];
    }

    function View(): Conn
      reads this
    {
      Conn(buffer, messageLength, delivered)
    }

    method TransferMessage(body: Bytes)
      requires |body| < UINT32_LIMIT
      modifies this`bytesSent, this`written
      ensures written == old(written) + Frame(body) && bytesSent == old(bytesSent) + MESSAGE_HEADER_SIZE + |body|
      ensures var message := written[|old(written)|..];
        && |message| == 5 + |body| && message[0] == 1 && message[5..] == body
        && forall i :: 1 <= i <= 4 ==> message[i] == |body| / PowerOf256(4 - i) % 256
    {
      HeaderIsBigEndian(|body|);
      var message := Header(|body|) + body;
      bytesSent := bytesSent + |message|;
      written := written + message;
    }

    method DataReceived(data: Bytes)
      modifies this`buffer, this`messageLength, this`bytesReceived, this`delivered
      ensures View() == Received(old(View()), data) && bytesReceived == old(bytesReceived) + |data|
    {
      buffer := buffer + data;
      bytesReceived := bytesReceived + |data|;
      while |buffer| >= MESSAGE_HEADER_SIZE
        invariant Process(View()) == Received(old(View()), data)
        invariant bytesReceived == old(bytesReceived) + |data|
        decreases |buffer|
      {
        ghost var before := View();
        if messageLength == 0 {
          HandleNewMessage();
        }
        // we have a complete packet
        if |buffer| >= messageLength {
          HandleCompleteMessage(buffer[..messageLength]);
          buffer := buffer[messageLength..];
          messageLength := 0;
        } else {
          assert View() == Process(before);
          return;
        }
      }
    }

    method HandleNewMessage()
      requires |buffer| >= MESSAGE_HEADER_SIZE
      modifies this`buffer, this`messageLength
      ensures View() == NewMessage(old(View()))
    {
      var header := buffer[..MESSAGE_HEADER_SIZE];
      var version := header[0];
      messageLength := HeaderLength(header);
      if version != PROTOCOL_VERSION {
        messageLength := 0;
        buffer := [];
        return;
      }
      buffer := buffer[MESSAGE_HEADER_SIZE..];
    }

    method HandleCompleteMessage(data: Bytes)
      modifies this`delivered
      ensures delivered == old(delivered) + [data]
    {
      delivered := delivered + [data];
    }
  }

  // ----- the frames of a stream are put together again

  /** The bodies `rest` are still to be delivered, of which `tail` is still to be received. */
  ghost predicate Represents(rest: seq<Bytes>, buffer: Bytes, messageLength: nat, tail: Bytes) {
    && Sendable(rest)
    && if messageLength == 0 then buffer + tail == Frames(rest)
       else rest != [] && messageLength == |rest[0]| && buffer + tail == rest[0] + Frames(rest[1..])
  }

  /** Nothing more can be delivered from the buffer. */
  predicate Settled(c: Conn) {
    |c.buffer| < MESSAGE_HEADER_SIZE || (c.messageLength > 0 && |c.buffer| < c.messageLength)
  }

  lemma {:induction false} HeaderAtFront(rest: seq<Bytes>, buffer: Bytes, tail: Bytes)
    requires Represents(rest, buffer, 0, tail) && |buffer| >= MESSAGE_HEADER_SIZE
    ensures rest != [] && buffer[..MESSAGE_HEADER_SIZE] == Header(|rest[0]|)
    ensures buffer[MESSAGE_HEADER_SIZE..] + tail == rest[0] + Frames(rest[1..])
  {
    var stream := buffer + tail;
    assert rest != [];
    assert stream == (Header(|rest[0]|) + rest[0]) + Frames(rest[1..]);
    assert stream[..MESSAGE_HEADER_SIZE] == Header(|rest[0]|);
    assert stream[MESSAGE_HEADER_SIZE..] == rest[0] + Frames(rest[1..]);
  }

  lemma {:induction false} BodyAtFront(body: Bytes, more: Bytes, buffer: Bytes, tail: Bytes)
    requires buffer + tail == body + more && |buffer| >= |body|
    ensures buffer[..|body|] == body && buffer[|body|..] + tail == more
  {
    assert (buffer + tail)[..|body|] == buffer[..|body|];
    assert (buffer + tail)[|body|..] == buffer[|body|..] + tail;
  }

  lemma {:induction false} HeadAndMore<T>(done: seq<T>, rest: seq<T>, m: nat)
    requires m < |rest|
    ensures (done + [rest[0]]) + rest[1..][..m] == done + rest[..m + 1]
    ensures rest[1..][m..] == rest[m + 1..]
  {}

  /** Processing delivers the next bodies, in order and unaltered, and represents the others. */
  lemma {:induction false} ProcessDelivers(c: Conn, rest: seq<Bytes>, tail: Bytes) returns (n: nat)
    requires Represents(rest, c.buffer, c.messageLength, tail)
    ensures n <= |rest| && Process(c).delivered == c.delivered + rest[..n]
    ensures Represents(rest[n..], Process(c).buffer, Process(c).messageLength, tail)
    ensures Settled(Process(c))
    decreases |c.buffer|
  {
    if |c.buffer| < MESSAGE_HEADER_SIZE {
      n := 0;
    } else {
      var d := if c.messageLength == 0 then NewMessage(c) else c;
      if c.messageLength == 0 {
        HeaderAtFront(rest, c.buffer, tail);
        HeaderRoundTrip(|rest[0]|);
      }
      assert d.messageLength == |rest[0]| && d.buffer + tail == rest[0] + Frames(rest[1..]);
      if |d.buffer| < d.messageLength {
        n := 0;
      } else {
        BodyAtFront(rest[0], Frames(rest[1..]), d.buffer, tail);
        var e := Conn(d.buffer[d.messageLength..], 0, d.delivered + [rest[0]]);
        var m := ProcessDelivers(e, rest[1..], tail);
        n := m + 1;
        HeadAndMore(c.delivered, rest, m);
      }
    }
  }

  /** The first `n` bytes of the stream complete the first `k` bodies, and no more. */
  ghost predicate Completes(bodies: seq<Bytes>, k: nat, n: nat)
    requires Sendable(bodies)
  {
    k <= |bodies| && |Frames(bodies[..k])| <= n && (k < |bodies| ==> n < |Frames(bodies[..k + 1])|)
  }

  lemma {:induction false} FramesOfPrefix(bodies: seq<Bytes>, k: nat)
    requires Sendable(bodies) && k <= |bodies|
    ensures Frames(bodies) == Frames(bodies[..k]) + Frames(bodies[k..])
    decreases k
  {
    if k == 0 {
      assert bodies[..0] == [] && bodies[0..] == bodies;
    } else {
      FramesOfPrefix(bodies[1..], k - 1);
      assert bodies[1..][..k - 1] == bodies[..k][1..] && bodies[1..][k - 1..] == bodies[k..];
      ConcatAssociative(Frame(bodies[0]), Frames(bodies[..k][1..]), Frames(bodies[k..]));
    }
  }

  lemma {:induction false} FramesOfOneMore(bodies: seq<Bytes>, k: nat)
    requires Sendable(bodies) && k < |bodies|
    ensures |Frames(bodies[..k + 1])| == |Frames(bodies[..k])| + MESSAGE_HEADER_SIZE + |bodies[k]|
  {
    FramesOfPrefix(bodies[..k + 1], k);
    assert bodies[..k + 1][..k] == bodies[..k] && bodies[..k + 1][k..] == [bodies[k]];
    var one: seq<Bytes> := [bodies[k]];
    var none := one[1..];
    assert |none| == 0;
    assert Frames(one) == Frame(bodies[k]) + Frames(none);
  }

  /** A connection that has received `received` of the stream, and delivered the first `k` bodies. */
  ghost predicate InStream(c: Conn, bodies: seq<Bytes>, received: Bytes, k: nat)
    requires Sendable(bodies)
  {
    && k <= |bodies| && c.delivered == bodies[..k] && received <= Frames(bodies) && Settled(c)
    && Represents(bodies[k..], c.buffer, c.messageLength, Frames(bodies)[|received|..])
  }

  /** However the stream is cut up: the first bodies have been delivered, in order, and the rest is represented. */
  lemma {:induction false} AlwaysInStream(bodies: seq<Bytes>, chunks: seq<Bytes>) returns (k: nat)
    requires Sendable(bodies) && Concat(chunks) <= Frames(bodies)
    ensures InStream(ReceivedAll(START, chunks), bodies, Concat(chunks), k)
    decreases |chunks|
  {
    hide Frames;
    var stream := Frames(bodies);
    if chunks == [] {
      k := 0;
      assert bodies[0..] == bodies && stream[0..] == stream && [] + stream == stream;
    } else {
      var init, last := chunks[..|chunks| - 1], chunks[|chunks| - 1];
      var before, all := Concat(init), Concat(chunks);
      assert before <= stream;
      var j := AlwaysInStream(bodies, init);
      var c := ReceivedAll(START, init);
      NextChunk(stream, before, last);
      ConcatAssociative(c.buffer, last, stream[|all|..]);
      assert Represents(bodies[j..], c.buffer + last, c.messageLength, stream[|all|..]);
      var m := ProcessDelivers(c.(buffer := c.buffer + last), bodies[j..], stream[|all|..]);
      k := j + m;
      assert bodies[..j] + bodies[j..][..m] == bodies[..k];
      assert bodies[j..][m..] == bodies[k..];
    }
  }

  lemma {:induction false} NextChunk(stream: Bytes, before: Bytes, chunk: Bytes)
    requires before + chunk <= stream
    ensures before <= stream && stream[|before|..] == chunk + stream[|before + chunk|..]
  {
    var all := before + chunk;
    assert stream[..|all|] == all;
    assert stream[|before|..|all|] == chunk;
  }

  /** What is not yet delivered is not yet complete, unless its body is shorter than a header. */
  lemma {:induction false} UndeliveredIsIncomplete(c: Conn, bodies: seq<Bytes>, received: Bytes, k: nat)
    requires Sendable(bodies) && InStream(c, bodies, received, k)
    requires k < |bodies| ==> |bodies[k]| == 0 || |bodies[k]| >= MESSAGE_HEADER_SIZE
    ensures Completes(bodies, k, |received|)
  {
    var stream := Frames(bodies);
    FramesOfPrefix(bodies, k);
    if k < |bodies| {
      FramesOfOneMore(bodies, k);
      assert bodies[k..][0] == bodies[k] && bodies[k..][1..] == bodies[k + 1..];
      // the stream is what was delivered, the next frame and the rest
      assert |stream| == |Frames(bodies[..k])| + MESSAGE_HEADER_SIZE + |bodies[k]| + |Frames(bodies[k + 1..])|;
    }
  }

  /** No body is shorter than a header without being empty. */
  predicate NoneShort(bodies: seq<Bytes>) {
    forall i :: 0 <= i < |bodies| ==> |bodies[i]| == 0 || |bodies[i]| >= MESSAGE_HEADER_SIZE
  }

  /** Whatever the chunks are, and at every moment: just the bodies have been delivered that are complete. */
  ghost predicate Timely(bodies: seq<Bytes>)
    requires Sendable(bodies)
  {
    forall chunks: seq<Bytes> :: Concat(chunks) <= Frames(bodies) ==>
      Completes(bodies, |ReceivedAll(START, chunks).delivered|, |Concat(chunks)|)
  }

  /** Fragmentation independence holds exactly when there is no body of one to four bytes. */
  lemma {:induction false} TimelyIffNoneShort(bodies: seq<Bytes>)
    requires Sendable(bodies)
    ensures Timely(bodies) <==> NoneShort(bodies)
  {
    if NoneShort(bodies) {
      forall chunks: seq<Bytes> | Concat(chunks) <= Frames(bodies)
        ensures Completes(bodies, |ReceivedAll(START, chunks).delivered|, |Concat(chunks)|)
      {
        var k := AlwaysInStream(bodies, chunks);
        UndeliveredIsIncomplete(ReceivedAll(START, chunks), bodies, Concat(chunks), k);
      }
    } else {
      var i :| 0 <= i < |bodies| && 0 < |bodies[i]| < MESSAGE_HEADER_SIZE;
      Late(bodies, i);
    }
  }

  lemma {:induction false} FramesMonotone(bodies: seq<Bytes>, j: nat, k: nat)
    requires Sendable(bodies) && j <= k <= |bodies|
    ensures |Frames(bodies[..j])| <= |Frames(bodies[..k])|
  {
    if j < k {
      FramesMonotone(bodies, j, k - 1);
      FramesOfOneMore(bodies, k - 1);
    }
  }

  lemma {:induction false} ConcatOfTwo(a: Bytes, b: Bytes)
    ensures Concat([a]) == a && Concat([a, b]) == a + b
    ensures [a, b][..1] == [a] && [a][..0] == []
  {
    assert [a][..0] == [] && [a, b][..1] == [a];
  }

  /** The header of body `i`, and the stream around it. */
  lemma {:induction false} HeaderInStream(bodies: seq<Bytes>, i: nat)
    requires Sendable(bodies) && i < |bodies|
    ensures var first := Frames(bodies[..i]) + Header(|bodies[i]|);
      && first + bodies[i] <= Frames(bodies) && first <= Frames(bodies)
      && |first + bodies[i]| == |Frames(bodies[..i + 1])|
      && Frames(bodies)[|first|..] == bodies[i] + Frames(bodies[i + 1..])
      && Frames(bodies[i..]) == Frame(bodies[i]) + Frames(bodies[i + 1..])
  {
    var a, h, b, rest := Frames(bodies[..i]), Header(|bodies[i]|), bodies[i], Frames(bodies[i + 1..]);
    FramesOfPrefix(bodies, i);
    FramesOfOneMore(bodies, i);
    assert bodies[i..][0] == b && bodies[i..][1..] == bodies[i + 1..];
    assert Frames(bodies) == a + ((h + b) + rest);
    Regroup(a, h, b, rest);
  }

  lemma {:induction false} Regroup(a: Bytes, h: Bytes, b: Bytes, rest: Bytes)
    ensures a + ((h + b) + rest) == (a + h) + (b + rest)
    ensures ((a + h) + (b + rest))[|a + h|..] == b + rest
    ensures (a + h) + b <= (a + h) + (b + rest)
  {
    assert (a + h) + (b + rest) == ((a + h) + b) + rest;
  }

  lemma {:induction false} SendableFront(bodies: seq<Bytes>, i: nat)
    requires Sendable(bodies) && i <= |bodies|
    ensures Sendable(bodies[..i])
  {}

  /** A short body that arrives apart from its header stays in the buffer, although it is complete. */
  lemma {:induction false} Late(bodies: seq<Bytes>, i: nat)
    requires Sendable(bodies) && i < |bodies| && 0 < |bodies[i]| < MESSAGE_HEADER_SIZE
    ensures !Timely(bodies)
  {
    SendableFront(bodies, i);
    hide Sendable;
    var first := Frames(bodies[..i]) + Header(|bodies[i]|);
    var chunks := [first, bodies[i]];
    HeaderInStream(bodies, i);
    ConcatOfTwo(first, bodies[i]);
    var c := ReceivedAll(START, [first]);
    assert ReceivedAll(START, chunks) == Received(c, bodies[i]);
    if Timely(bodies) {
      var k := AlwaysInStream(bodies, [first]);
      assert Completes(bodies, k, |first|);
      assert Completes(bodies, |ReceivedAll(START, chunks).delivered|, |first + bodies[i]|);
      SameCompleted(bodies, i, k, |first|);
      HeaderTaken(bodies, i, c, first);
    }
  }

  lemma {:induction false} SameCompleted(bodies: seq<Bytes>, i: nat, k: nat, n: nat)
    requires Sendable(bodies) && Completes(bodies, i, n) && Completes(bodies, k, n)
    ensures i == k
  {
    if i < k {
      FramesMonotone(bodies, i + 1, k);
    } else if k < i {
      FramesMonotone(bodies, k + 1, i);
    }
  }

  /** When all but a short body was received, the buffer is empty; and the body alone is not looked at. */
  lemma {:induction false} HeaderTaken(bodies: seq<Bytes>, i: nat, c: Conn, first: Bytes)
    requires Sendable(bodies) && i < |bodies| && 0 < |bodies[i]| < MESSAGE_HEADER_SIZE
    requires first == Frames(bodies[..i]) + Header(|bodies[i]|) && InStream(c, bodies, first, i)
    ensures Received(c, bodies[i]).delivered == bodies[..i]
  {
    HeaderInStream(bodies, i);
    assert bodies[i..][0] == bodies[i] && bodies[i..][1..] == bodies[i + 1..];
    assert |c.buffer| == 0;
  }

  /** For instance: a body of one byte, and its header in a chunk of its own. */
  lemma {:induction false} LateInstance()
    ensures Concat([Header(1), [7]]) == Frames([[7]])
    ensures ReceivedAll(START, [Header(1), [7]]).delivered == []
  {
    var body: Bytes := [7];
    var bodies, chunks: seq<Bytes> := [body], [Header(1), body];
    ConcatOfTwo(Header(1), body);
    assert bodies[0] == body && bodies[1..] == [];
    assert Frames(bodies) == Frame(body) + [];
    OnlyHeader();
    assert ReceivedAll(START, [Header(1)]) == Received(ReceivedAll(START, []), Header(1));
    assert ReceivedAll(START, chunks) == Received(Conn([], 1, []), body);
  }

  lemma {:induction false} OnlyHeader()
    ensures Received(START, Header(1)) == Conn([], 1, [])
  {
    HeaderRoundTrip(1);
    assert [] + Header(1) == Header(1);
    assert Header(1)[..MESSAGE_HEADER_SIZE] == Header(1) && Header(1)[MESSAGE_HEADER_SIZE..] == [];
  }
}
