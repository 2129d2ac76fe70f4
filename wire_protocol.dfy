/**
 * BinarySerializationProtocol: each message travels as a 4-byte big-endian
 * signed length followed by that many bytes of the serialized message. The
 * receiving side collects bytes across calls and cuts complete frames off the
 * front of what it has collected.
 */
module WireProtocol {
  import opened Wrappers
  import opened Numeric

  /** 128 MiB: the largest serialized message either side accepts. */
  const MaxMessageLength: int := 128 * 1024 * 1024

  /** The serializer the protocol is built on (BinaryFormatter), as a pair of functions. */
  datatype Codec<!M> = Codec(serialize: M -> seq<byte>, deserialize: seq<byte> -> M)

  ghost predicate RoundTrips<M(!new)>(codec: Codec<M>) {
    forall m: M :: codec.deserialize(codec.serialize(m)) == m
  }

  datatype ProtocolError =
    | MessageTooBig(length: int)   // header or payload above MaxMessageLength
    | NegativeLength(length: int)  // `new byte[length]` with a negative header
    | EndOfStream                  // the stream holds fewer bytes than asked for

  /** WriteInt32: the two's-complement bytes of `n`, most significant first. */
  function WriteInt32(n: int): (b: seq<byte>)
    requires IsInt32(n)
    ensures |b| == 4
  {
    var u := if n < 0 then n + 0x1_0000_0000 else n;
    var q1 := u / 256;
    var q2 := q1 / 256;
    var q3 := q2 / 256;
    [q3, q2 % 256, q1 % 256, u % 256]
  }

  /** ReadInt32: `(b0 << 24) | (b1 << 16) | (b2 << 8) | b3` as a signed 32-bit value. */
  function ReadInt32(b: seq<byte>): (n: int)
    requires |b| == 4
    ensures IsInt32(n)
    ensures n < 0 <==> b[0] >= 128
  {
    var u: int := ((b[0] as int * 256 + b[1]) * 256 + b[2]) * 256 + b[3];
    if u >= 0x8000_0000 then u - 0x1_0000_0000 else u
  }

  lemma ReadWriteInt32(n: int)
    requires IsInt32(n)
    ensures ReadInt32(WriteInt32(n)) == n
  {
    var u := if n < 0 then n + 0x1_0000_0000 else n;
    var q1 := u / 256;
    var q2 := q1 / 256;
    var q3 := q2 / 256;
    assert u == q1 * 256 + u % 256;
    assert q1 == q2 * 256 + q1 % 256;
    assert q2 == q3 * 256 + q2 % 256;
  }

  lemma WriteReadInt32(b: seq<byte>)
    requires |b| == 4
    ensures WriteInt32(ReadInt32(b)) == b
  {
    var u: int := ((b[0] as int * 256 + b[1]) * 256 + b[2]) * 256 + b[3];
    assert u / 256 == (b[0] as int * 256 + b[1]) * 256 + b[2];
    assert u / 256 / 256 == b[0] as int * 256 + b[1];
    assert u / 256 / 256 / 256 == b[0];
  }

  /** What GetBytes sends for a serialized message: its length, then the message. */
  function Framed(payload: seq<byte>): (f: seq<byte>)
    requires |payload| <= MaxMessageLength
    ensures |f| == 4 + |payload|
  {
    WriteInt32(|payload|) + payload
  }

  lemma FramedLayout(payload: seq<byte>)
    requires |payload| <= MaxMessageLength
    ensures ReadInt32(Framed(payload)[..4]) == |payload|
    ensures Framed(payload)[4..] == payload
  {
    assert Framed(payload)[..4] == WriteInt32(|payload|);
    ReadWriteInt32(|payload|);
  }

  /** How ReadSingleMessage classifies the bytes collected so far. */
  datatype Frame =
    | Short                                      // fewer than 4 bytes: not even a header
    | Oversized(length: int)                     // header above MaxMessageLength
    | ZeroOnly                                   // a zero header and nothing after it
    | ZeroThen(rest: seq<byte>)                  // a zero header followed by more bytes
    | Incomplete(length: int)                    // header fine, payload not all here
    | Negative(length: int)                      // header below zero
    | Complete(payload: seq<byte>, rest: seq<byte>)

  function Classify(buf: seq<byte>): (c: Frame)
    ensures c.Short? <==> |buf| < 4
    ensures c.ZeroThen? ==> |buf| > 4 && c.rest == buf[4..]
    ensures c.Complete? ==> 0 < |c.payload| <= MaxMessageLength && buf == buf[..4] + c.payload + c.rest
    ensures c.Complete? ==> ReadInt32(buf[..4]) == |c.payload|
  {
    if |buf| < 4 then Short
    else
      var n := ReadInt32(buf[..4]);
      if n > MaxMessageLength then Oversized(n)
      else if n == 0 then (if |buf| == 4 then ZeroOnly else ZeroThen(buf[4..]))
      else if |buf| < 4 + n then Incomplete(n)
      else if n < 0 then Negative(n)
      else
        assert buf == buf[..4] + buf[4..4 + n] + buf[4 + n..];
        Complete(buf[4..4 + n], buf[4 + n..])
  }

  /** The outcome of one CreateMessages call: payloads cut off and bytes kept, or an error. */
  datatype Decoding =
    | Decoded(payloads: seq<seq<byte>>, rest: seq<byte>)
    | Failed(error: ProtocolError, rest: seq<byte>)

  function Prepend(ps: seq<seq<byte>>, d: Decoding): Decoding {
    match d
    case Decoded(qs, rest) => Decoded(ps + qs, rest)
    case Failed(_, _) => d
  }

  /**
   * The loop `while (ReadSingleMessage(messages)) { }` over the collected
   * bytes. It stops after a frame that leaves 4 bytes or fewer, keeping them.
   * On an error the payloads of this call are lost and the bytes from the
   * failing header on stay collected.
   */
  function Decode(buf: seq<byte>): Decoding
    decreases |buf|
  {
    match Classify(buf)
    case Short => Decoded([], buf)
    case Oversized(n) => Failed(MessageTooBig(n), buf)
    case Negative(n) => Failed(NegativeLength(n), buf)
    case ZeroOnly => Decoded([], [])
    case ZeroThen(rest) => Decode(rest)
    case Incomplete(_) => Decoded([], buf)
    case Complete(p, rest) => if |rest| > 4 then Prepend([p], Decode(rest)) else Decoded([p], rest)
  }

  /** Successive CreateMessages calls, one per received chunk, until one fails. */
  function Feed(buf: seq<byte>, chunks: seq<seq<byte>>): Decoding
    decreases |chunks|
  {
    if chunks == [] then Decoded([], buf)
    else match Decode(buf + chunks[0])
      case Failed(e, rest) => Failed(e, rest)
      case Decoded(ps, rest) => Prepend(ps, Feed(rest, chunks[1..]))
  }

  function Flatten(chunks: seq<seq<byte>>): seq<byte>
    decreases |chunks|
  {
    if chunks == [] then [] else chunks[0] + Flatten(chunks[1..])
  }

  /** Serialized messages are never empty and never above the limit. */
  predicate ValidPayloads(ps: seq<seq<byte>>) {
    forall i :: 0 <= i < |ps| ==> 0 < |ps[i]| <= MaxMessageLength
  }

  /** The bytes a sender writes for a sequence of serialized messages. */
  function Frames(ps: seq<seq<byte>>): (f: seq<byte>)
    requires ValidPayloads(ps)
    ensures ps != [] ==> |f| >= |Framed(ps[0])|
    decreases |ps|
  {
    if ps == [] then [] else Framed(ps[0]) + Frames(ps[1..])
  }

  lemma {:induction false} FramesAppend(a: seq<seq<byte>>, b: seq<seq<byte>>)
    requires ValidPayloads(a) && ValidPayloads(b)
    ensures ValidPayloads(a + b) && Frames(a + b) == Frames(a) + Frames(b)
    decreases |a|
  {
    if a != [] {
      assert (a + b)[1..] == a[1..] + b;
      FramesAppend(a[1..], b);
    } else {
      assert a + b == b;
    }
  }

  lemma SplitOffChunk<T>(buf: seq<T>, chunk: seq<T>, tail: seq<T>, all: seq<T>)
    requires buf + (chunk + tail) == all
    ensures (buf + chunk) + tail == all && |buf + chunk| <= |all| && buf + chunk == all[..|buf + chunk|]
  {
    assert buf + (chunk + tail) == (buf + chunk) + tail;
  }

  lemma CancelLeft<T>(a: seq<T>, l: seq<T>, t: seq<T>, p: seq<T>, all: seq<T>)
    requires (a + l) + t == all && a + p == all
    ensures l + t == p
  {
    assert (a + l) + t == a + (l + t);
    assert all[|a|..] == l + t;
  }

  lemma ConsSplit<T>(s: seq<T>, a: seq<T>, b: seq<T>)
    requires s != [] && a + b == s[1..]
    ensures [s[0]] + a + b == s
  {
    assert [s[0]] + a + b == [s[0]] + (a + b);
  }

  lemma FramesConsPrefix(p: seq<byte>, d: seq<seq<byte>>, left: seq<byte>)
    requires 0 < |p| <= MaxMessageLength && ValidPayloads(d)
    ensures ValidPayloads([p] + d) && Framed(p) + (Frames(d) + left) == Frames([p] + d) + left
  {
    FramesCons(p, d);
  }

  lemma FramesCons(p: seq<byte>, d: seq<seq<byte>>)
    requires 0 < |p| <= MaxMessageLength && ValidPayloads(d)
    ensures ValidPayloads([p] + d) && Frames([p] + d) == Framed(p) + Frames(d)
  {
    assert ([p] + d)[1..] == d;
  }

  /**
   * Where a prefix `x` of the frames of `ps` stands: the payloads whose frames
   * lie wholly in it, the bytes left after them, and the payloads still to come.
   */
  datatype Progress = Progress(done: seq<seq<byte>>, left: seq<byte>, pending: seq<seq<byte>>)

  function ProgressOf(ps: seq<seq<byte>>, x: seq<byte>): Progress
    requires ValidPayloads(ps)
    decreases |ps|
  {
    if ps != [] && |x| >= |Framed(ps[0])| then
      var s := ProgressOf(ps[1..], x[|Framed(ps[0])|..]);
      Progress([ps[0]] + s.done, s.left, s.pending)
    else Progress([], x, ps)
  }

  /** `r` is what a receiver keeps while the next frame of `ps` is still on its way. */
  predicate Waiting(ps: seq<seq<byte>>, r: seq<byte>)
    requires ValidPayloads(ps)
  {
    (ps == [] && r == []) || (ps != [] && |r| < |Framed(ps[0])|)
  }

  /** A strict prefix of a frame holds no message and is kept whole. */
  lemma PartialFrameWaits(p: seq<byte>, x: seq<byte>)
    requires 0 < |p| <= MaxMessageLength
    requires |x| < |Framed(p)| && x == Framed(p)[..|x|]
    ensures Decode(x) == Decoded([], x)
  {
    if |x| >= 4 {
      assert x[..4] == Framed(p)[..4];
      FramedLayout(p);
    }
  }

  /** A whole frame at the front is cut off as one payload. */
  lemma ClassifyFramed(p: seq<byte>, y: seq<byte>)
    requires 0 < |p| <= MaxMessageLength
    ensures Classify(Framed(p) + y) == Complete(p, y)
  {
    var x := Framed(p) + y;
    FramedLayout(p);
    assert x[..4] == Framed(p)[..4];
    assert x[4..4 + |p|] == p;
    assert x[4 + |p|..] == y;
  }

  /**
   * What a receiver that has collected `x`, a prefix of the frames of `ps`,
   * is left with: the messages wholly inside `x` come out, and exactly the
   * bytes of the next, unfinished frame stay collected.
   */
  ghost predicate DecodesPrefix(ps: seq<seq<byte>>, x: seq<byte>)
    requires ValidPayloads(ps)
  {
    var s := ProgressOf(ps, x);
    ValidPayloads(s.done) && ValidPayloads(s.pending) && s.done + s.pending == ps
    && x == Frames(s.done) + s.left
    && Decode(x) == Decoded(s.done, s.left)
    && Waiting(s.pending, s.left)
  }

  lemma {:induction false} DecodeOfPrefix(ps: seq<seq<byte>>, x: seq<byte>)
    requires ValidPayloads(ps)
    requires |x| <= |Frames(ps)| && x == Frames(ps)[..|x|]
    ensures DecodesPrefix(ps, x)
    decreases |ps|, 1
  {
    if ps == [] {
      assert x == [];
    } else if |x| < |Framed(ps[0])| {
      assert Frames(ps)[..|Framed(ps[0])|] == Framed(ps[0]);
      PartialFrameWaits(ps[0], x);
      assert ProgressOf(ps, x) == Progress([], x, ps);
      assert Frames([]) + x == x;
    } else {
      DecodeOfPrefixStep(ps, x);
    }
  }

  /** The case of DecodeOfPrefix where the first frame is complete. */
  lemma {:induction false} DecodeOfPrefixStep(ps: seq<seq<byte>>, x: seq<byte>)
    requires ValidPayloads(ps) && ps != [] && |x| >= |Framed(ps[0])|
    requires |x| <= |Frames(ps)| && x == Frames(ps)[..|x|]
    ensures DecodesPrefix(ps, x)
    decreases |ps|, 0
  {
    var p, n := ps[0], |Framed(ps[0])|;
    var x' := x[n..];
    FirstFrameOfPrefix(ps, x);
    DecodeOfPrefix(ps[1..], x');
    var s' := ProgressOf(ps[1..], x');
    assert ProgressOf(ps, x) == Progress([p] + s'.done, s'.left, s'.pending);
    FramesConsPrefix(p, s'.done, s'.left);
    ConsSplit(ps, s'.done, s'.pending);
    DecodeFramedThenDecoded(p, x', s'.done, s'.left);
  }

  /** A whole frame, then bytes that decode to `d` leaving `left`, decode to `p` and `d`. */
  lemma DecodeFramedThenDecoded(p: seq<byte>, y: seq<byte>, d: seq<seq<byte>>, left: seq<byte>)
    requires 0 < |p| <= MaxMessageLength && ValidPayloads(d)
    requires y == Frames(d) + left && Decode(y) == Decoded(d, left)
    ensures Decode(Framed(p) + y) == Decoded([p] + d, left)
  {
    DecodeFramedThen(p, y);
  }

  /** A prefix that holds the first frame is that frame followed by a prefix of the other frames. */
  lemma FirstFrameOfPrefix(ps: seq<seq<byte>>, x: seq<byte>)
    requires ValidPayloads(ps) && ps != [] && |x| >= |Framed(ps[0])|
    requires |x| <= |Frames(ps)| && x == Frames(ps)[..|x|]
    ensures ValidPayloads(ps[1..])
    ensures x == Framed(ps[0]) + x[|Framed(ps[0])|..]
    ensures |x[|Framed(ps[0])|..]| <= |Frames(ps[1..])|
    ensures x[|Framed(ps[0])|..] == Frames(ps[1..])[..|x| - |Framed(ps[0])|]
  {
    assert Frames(ps) == Framed(ps[0]) + Frames(ps[1..]);
    PrefixOfConcat(Framed(ps[0]), Frames(ps[1..]), x);
  }

  lemma PrefixOfConcat<T>(a: seq<T>, b: seq<T>, x: seq<T>)
    requires |a| <= |x| <= |a + b| && x == (a + b)[..|x|]
    ensures x == a + x[|a|..] && x[|a|..] == b[..|x| - |a|]
  {
    assert x[..|a|] == a;
    assert x == x[..|a|] + x[|a|..];
  }

  /** One decoding step over a whole frame followed by `y`. */
  lemma DecodeFramedThen(p: seq<byte>, y: seq<byte>)
    requires 0 < |p| <= MaxMessageLength
    ensures Decode(Framed(p) + y) == if |y| > 4 then Prepend([p], Decode(y)) else Decoded([p], y)
  {
    ClassifyFramed(p, y);
  }

  /** The receiver's consumption is invariant under how the stream is cut into chunks. */
  lemma {:induction false} FeedFrames(ps: seq<seq<byte>>, buf: seq<byte>, chunks: seq<seq<byte>>)
    requires ValidPayloads(ps)
    requires buf + Flatten(chunks) == Frames(ps)
    requires Waiting(ps, buf)
    ensures Feed(buf, chunks) == Decoded(ps, [])
    decreases |chunks|
  {
    if chunks == [] {
      assert buf == Frames(ps);
      if ps != [] {
        assert false;
      }
    } else {
      var x, tail := buf + chunks[0], Flatten(chunks[1..]);
      SplitOffChunk(buf, chunks[0], tail, Frames(ps));
      DecodeOfPrefix(ps, x);
      var s := ProgressOf(ps, x);
      assert ValidPayloads(s.done) && ValidPayloads(s.pending);
      assert s.done + s.pending == ps && x == Frames(s.done) + s.left;
      FramesAppend(s.done, s.pending);
      CancelLeft(Frames(s.done), s.left, tail, Frames(s.pending), Frames(ps));
      FeedFrames(s.pending, s.left, chunks[1..]);
    }
  }

  /**
   * However the sender's frames are split into received chunks, the
   * successive CreateMessages calls yield every message, in order, and
   * leave nothing collected: the same as receiving all bytes in one call.
   */
  lemma ChunkingInvariance(ps: seq<seq<byte>>, chunks: seq<seq<byte>>)
    requires ValidPayloads(ps)
    requires Flatten(chunks) == Frames(ps)
    ensures Feed([], chunks) == Decoded(ps, [])
    ensures Feed([], chunks) == Feed([], [Frames(ps)])
  {
    assert [] + Flatten(chunks) == Frames(ps);
    FeedFrames(ps, [], chunks);
    assert Flatten([Frames(ps)]) == Frames(ps);
    assert [] + Flatten([Frames(ps)]) == Frames(ps);
    FeedFrames(ps, [], [Frames(ps)]);
  }

  /** One frame decodes to its own payload and leaves nothing behind. */
  lemma FrameRoundTrip(p: seq<byte>)
    requires 0 < |p| <= MaxMessageLength
    ensures Decode(Framed(p)) == Decoded([p], [])
  {
    assert ValidPayloads([p]);
    assert Frames([p]) == Framed(p);
    ChunkingInvariance([p], [Framed(p)]);
    assert Flatten([Framed(p)]) == Framed(p);
    assert Feed([], [Framed(p)]) == Prepend([p], Decoded([], []));
    assert [] + Framed(p) == Framed(p);
  }

  /** A zero-length header is dropped without producing a message. */
  lemma ZeroLengthHeaderDropped(rest: seq<byte>)
    ensures Decode(WriteInt32(0) + rest) == if rest == [] then Decoded([], []) else Decode(rest)
  {
    var b := WriteInt32(0) + rest;
    assert b[..4] == WriteInt32(0);
    ReadWriteInt32(0);
    assert b[4..] == rest;
  }

  /** A header above MaxMessageLength is an error, and the bytes stay collected. */
  lemma OversizedHeaderFails(n: int, rest: seq<byte>)
    requires MaxMessageLength < n <= Int32Max
    ensures Decode(WriteInt32(n) + rest) == Failed(MessageTooBig(n), WriteInt32(n) + rest)
  {
    assert (WriteInt32(n) + rest)[..4] == WriteInt32(n);
    ReadWriteInt32(n);
  }

  /** A header with the top bit set passes the size check and then fails allocating the payload. */
  lemma NegativeHeaderFails(n: int, rest: seq<byte>)
    requires Int32Min <= n < 0
    ensures Decode(WriteInt32(n) + rest) == Failed(NegativeLength(n), WriteInt32(n) + rest)
  {
    assert (WriteInt32(n) + rest)[..4] == WriteInt32(n);
    ReadWriteInt32(n);
  }

  /**
   * A frame followed by exactly a zero-length header: the frame's message
   * comes out but the 4 bytes stay collected (the loop stops once 4 bytes or
   * fewer remain), although the same header alone would have been cleared.
   */
  lemma TrailingEmptyHeaderKept(p: seq<byte>)
    requires 0 < |p| <= MaxMessageLength
    ensures Decode(Framed(p) + WriteInt32(0)) == Decoded([p], WriteInt32(0))
    ensures Decode(WriteInt32(0)) == Decoded([], [])
  {
    var b := Framed(p) + WriteInt32(0);
    FramedLayout(p);
    assert b[..4] == Framed(p)[..4];
    assert b[4..4 + |p|] == p;
    assert b[4 + |p|..] == WriteInt32(0);
    ZeroLengthHeaderDropped([]);
    assert WriteInt32(0) + [] == WriteInt32(0);
  }

  function DeserializeAll<M>(codec: Codec<M>, ps: seq<seq<byte>>): (ms: seq<M>)
    ensures |ms| == |ps|
    ensures forall i :: 0 <= i < |ps| ==> ms[i] == codec.deserialize(ps[i])
    decreases |ps|
  {
    if ps == [] then [] else [codec.deserialize(ps[0])] + DeserializeAll(codec, ps[1..])
  }

  lemma DeserializeAllAppend<M>(codec: Codec<M>, ps: seq<seq<byte>>, p: seq<byte>)
    ensures DeserializeAll(codec, ps + [p]) == DeserializeAll(codec, ps) + [codec.deserialize(p)]
  {
  }

  lemma PrependPrepend(a: seq<seq<byte>>, b: seq<seq<byte>>, d: Decoding)
    ensures Prepend(a, Prepend(b, d)) == Prepend(a + b, d)
  {
    if d.Decoded? {
      assert a + (b + d.payloads) == (a + b) + d.payloads;
    }
  }

  function SerializeAll<M>(codec: Codec<M>, ms: seq<M>): (ps: seq<seq<byte>>)
    ensures |ps| == |ms|
    ensures forall i :: 0 <= i < |ms| ==> ps[i] == codec.serialize(ms[i])
    decreases |ms|
  {
    if ms == [] then [] else [codec.serialize(ms[0])] + SerializeAll(codec, ms[1..])
  }

  /**
   * End to end: messages framed by GetBytes and received in any chunking
   * come out of the receiving protocol as the same messages, in order.
   */
  lemma MessagesSurviveAnyChunking<M(!new)>(codec: Codec<M>, ms: seq<M>, chunks: seq<seq<byte>>)
    requires RoundTrips(codec)
    requires ValidPayloads(SerializeAll(codec, ms))
    requires Flatten(chunks) == Frames(SerializeAll(codec, ms))
    ensures Feed([], chunks).Decoded?
    ensures DeserializeAll(codec, Feed([], chunks).payloads) == ms
  {
    ChunkingInvariance(SerializeAll(codec, ms), chunks);
  }

  /**
   * ReadByteArray on a MemoryStream holding `data` at position `pos`: a loop
   * of Read calls, each handing over what the stream still holds up to what
   * is missing, failing when a Read returns nothing.
   */
  method ReadByteArray(data: seq<byte>, pos: nat, length: int) returns (r: Result<seq<byte>, ProtocolError>, newPos: nat)
    requires pos <= |data|
    ensures length < 0 ==> r == Failure(NegativeLength(length)) && newPos == pos
    ensures 0 <= length && pos + length <= |data| ==> r == Success(data[pos..pos + length]) && newPos == pos + length
    ensures 0 <= length && pos + length > |data| ==> r == Failure(EndOfStream) && newPos == |data|
  {
    if length < 0 {
      return Failure(NegativeLength(length)), pos;
    }
    var buffer: seq<byte> := [];
    var totalRead := 0;
    newPos := pos;
    while totalRead < length
      invariant 0 <= totalRead <= length
      invariant newPos == pos + totalRead <= |data|
      invariant buffer == data[pos..newPos]
      decreases length - totalRead
    {
      var read := if length - totalRead <= |data| - newPos then length - totalRead else |data| - newPos;
      if read <= 0 {
        return Failure(EndOfStream), newPos;
      }
      buffer := buffer + data[newPos..newPos + read];
      newPos := newPos + read;
      totalRead := totalRead + read;
    }
    return Success(buffer), newPos;
  }

  /** BinarySerializationProtocol with its receive stream as the bytes collected so far. */
  class BinarySerializationProtocol<M> {
    const codec: Codec<M>
    var received: seq<byte>

    constructor (codec: Codec<M>)
      ensures this.codec == codec && received == []
    {
      this.codec := codec;
      received := [];
    }

    /** Serializes a message and prefixes its length; too big a message is refused. */
    method GetBytes(message: M) returns (r: Result<seq<byte>, ProtocolError>)
      ensures |codec.serialize(message)| > MaxMessageLength
              ==> r == Failure(MessageTooBig(|codec.serialize(message)|))
      ensures |codec.serialize(message)| <= MaxMessageLength
              ==> r.Success? && |r.value| == |codec.serialize(message)| + 4
                  && ReadInt32(r.value[..4]) == |codec.serialize(message)|
                  && r.value[4..] == codec.serialize(message)
    {
      var serialized := codec.serialize(message);
      var messageLength := |serialized|;
      if messageLength > MaxMessageLength {
        return Failure(MessageTooBig(messageLength));
      }
      var bytes := WriteInt32(messageLength) + serialized;
      FramedLayout(serialized);
      return Success(bytes);
    }

    /** One ReadSingleMessage call: cuts one frame off the collected bytes if it can. */
    method ReadSingleMessage(messages: seq<M>) returns (r: Result<bool, ProtocolError>, collected: seq<M>)
      modifies this
      ensures match Classify(old(received))
        case Short => r == Success(false) && collected == messages && received == old(received)
        case Oversized(n) => r == Failure(MessageTooBig(n)) && received == old(received)
        case Negative(n) => r == Failure(NegativeLength(n)) && received == old(received)
        case ZeroOnly => r == Success(false) && collected == messages && received == []
        case ZeroThen(rest) => r == Success(true) && collected == messages && received == rest
        case Incomplete(_) => r == Success(false) && collected == messages && received == old(received)
        case Complete(p, rest) =>
          r == Success(|rest| > 4) && collected == messages + [codec.deserialize(p)] && received == rest
    {
      collected := messages;
      if |received| < 4 {
        return Success(false), collected;
      }
      var header, position := ReadByteArray(received, 0, 4);
      var messageLength := ReadInt32(header.value);
      if messageLength > MaxMessageLength {
        return Failure(MessageTooBig(messageLength)), collected;
      }
      if messageLength == 0 {
        if |received| == 4 {
          received := [];
          return Success(false), collected;
        }
        received := received[4..];
        return Success(true), collected;
      }
      if |received| < 4 + messageLength {
        return Success(false), collected;
      }
      var payload;
      payload, position := ReadByteArray(received, position, messageLength);
      if payload.Failure? {
        return Failure(payload.error), collected;
      }
      collected := collected + [codec.deserialize(payload.value)];
      var remaining;
      remaining, position := ReadByteArray(received, position, |received| - (4 + messageLength));
      received := remaining.value;
      return Success(|remaining.value| > 4), collected;
    }

    /**
     * CreateMessages: adds the received bytes to those collected and cuts off
     * every message it can, as `Decode` describes.
     */
    method CreateMessages(receivedBytes: seq<byte>) returns (r: Result<seq<M>, ProtocolError>)
      modifies this
      ensures match Decode(old(received) + receivedBytes)
        case Decoded(ps, rest) => r == Success(DeserializeAll(codec, ps)) && received == rest
        case Failed(e, rest) => r == Failure(e) && received == rest
    {
      received := received + receivedBytes;
      ghost var start := received;
      ghost var payloads: seq<seq<byte>> := [];
      var messages: seq<M> := [];
      var more := true;
      while more
        invariant messages == DeserializeAll(codec, payloads)
        invariant more ==> Decode(start) == Prepend(payloads, Decode(received))
        invariant !more ==> Decode(start) == Decoded(payloads, received)
        decreases more, |received|
      {
        ghost var before := received;
        var step;
        step, messages := ReadSingleMessage(messages);
        if step.Failure? {
          return Failure(step.error);
        }
        if Classify(before).Complete? {
          var p := Classify(before).payload;
          DeserializeAllAppend(codec, payloads, p);
          PrependPrepend(payloads, [p], Decode(received));
          payloads := payloads + [p];
        }
        more := step.value;
      }
      return Success(messages);
    }

    /** Reset: forgets whatever was collected. */
    method Reset()
      modifies this
      ensures received == []
    {
      if |received| > 0 {
        received := [];
      }
    }
  }
}
