/**
 * BinarySerializationProtocol's receive side exactly as written, with the
 * MemoryStream's Position. ReadSingleMessage first sets Position to 0 and,
 * when fewer than 4 bytes are collected, returns without moving it back to
 * the end; the next CreateMessages then writes the new bytes over the ones
 * kept instead of after them.
 */
module WireProtocolAsWritten {
  import opened Numeric
  import opened WireProtocol

  /** A MemoryStream: its contents and its Position. */
  datatype MemoryStream = MemoryStream(bytes: seq<byte>, position: nat)

  predicate ValidStream(s: MemoryStream) {
    s.position <= |s.bytes|
  }

  /** MemoryStream.Write: overwrites from Position on, growing the stream past its end. */
  function Write(s: MemoryStream, data: seq<byte>): (r: MemoryStream)
    requires ValidStream(s)
    ensures ValidStream(r) && r.position == s.position + |data|
    ensures |r.bytes| == if s.position + |data| < |s.bytes| then |s.bytes| else s.position + |data|
    ensures r.bytes[..s.position] == s.bytes[..s.position]
    ensures r.bytes[s.position..r.position] == data
    ensures r.bytes[r.position..] == if r.position < |s.bytes| then s.bytes[r.position..] else []
  {
    var end := s.position + |data|;
    var bytes := s.bytes[..s.position] + data + (if end < |s.bytes| then s.bytes[end..] else []);
    assert bytes[..s.position] == s.bytes[..s.position];
    assert bytes[s.position..end] == data;
    MemoryStream(bytes, end)
  }

  /** What a CreateMessages call returns, and the stream it leaves. */
  datatype Outcome = Outcome(decoding: Decoding, stream: MemoryStream)

  function PrependOutcome(ps: seq<seq<byte>>, o: Outcome): Outcome {
    Outcome(Prepend(ps, o.decoding), o.stream)
  }

  /** The `while (ReadSingleMessage(messages)) { }` loop as written, tracking Position. */
  function ReadAll(bytes: seq<byte>): (o: Outcome)
    ensures ValidStream(o.stream) && o.stream.bytes == o.decoding.rest
    decreases |bytes|
  {
    match Classify(bytes)
    case Short => Outcome(Decoded([], bytes), MemoryStream(bytes, 0))
    case Oversized(n) => Outcome(Failed(MessageTooBig(n), bytes), MemoryStream(bytes, 4))
    case Negative(n) => Outcome(Failed(NegativeLength(n), bytes), MemoryStream(bytes, 4))
    case ZeroOnly => Outcome(Decoded([], []), MemoryStream([], 0))
    case ZeroThen(rest) => ReadAll(rest)
    case Incomplete(_) => Outcome(Decoded([], bytes), MemoryStream(bytes, |bytes|))
    case Complete(p, rest) =>
      if |rest| > 4 then PrependOutcome([p], ReadAll(rest))
      else Outcome(Decoded([p], rest), MemoryStream(rest, |rest|))
  }

  /** CreateMessages as written: Write at the current Position, then the loop. */
  function CreateMessages(s: MemoryStream, receivedBytes: seq<byte>): Outcome
    requires ValidStream(s)
  {
    ReadAll(Write(s, receivedBytes).bytes)
  }

  /** Successive CreateMessages calls as written, one per received chunk, until one fails. */
  function FeedAsWritten(s: MemoryStream, chunks: seq<seq<byte>>): Decoding
    requires ValidStream(s)
    decreases |chunks|
  {
    if chunks == [] then Decoded([], s.bytes)
    else
      var o := ReadAll(Write(s, chunks[0]).bytes);
      match o.decoding
      case Failed(_, _) => o.decoding
      case Decoded(ps, _) => Prepend(ps, FeedAsWritten(o.stream, chunks[1..]))
  }

  /**
   * The loop as written cuts the same messages and keeps the same bytes as
   * `Decode`; only Position differs: it is left at 0 when 1 to 3 bytes are kept.
   */
  lemma {:induction false} ReadAllKeepsDecode(bytes: seq<byte>)
    ensures ReadAll(bytes).decoding == Decode(bytes)
    ensures ReadAll(bytes).stream.bytes == Decode(bytes).rest
    ensures ReadAll(bytes).decoding.Decoded? && ReadAll(bytes).stream.position != |ReadAll(bytes).stream.bytes|
            ==> 0 < |ReadAll(bytes).stream.bytes| < 4 && ReadAll(bytes).stream.position == 0
    decreases |bytes|
  {
    match Classify(bytes)
    case ZeroThen(rest) => ReadAllKeepsDecode(rest);
    case Complete(p, rest) => if |rest| > 4 { ReadAllKeepsDecode(rest); }
    case _ =>
  }

  /** With Position at the end, Write appends, and the call behaves as the corrected protocol's. */
  lemma WriteAtEndAppends(bytes: seq<byte>, receivedBytes: seq<byte>)
    ensures Write(MemoryStream(bytes, |bytes|), receivedBytes).bytes == bytes + receivedBytes
    ensures CreateMessages(MemoryStream(bytes, |bytes|), receivedBytes).decoding == Decode(bytes + receivedBytes)
  {
    ReadAllKeepsDecode(bytes + receivedBytes);
  }

  /**
   * The discrepancy: a one-byte message whose header arrives split as
   * [0, 0] and then [0, 1, 7]. The corrected protocol delivers the message;
   * as written, the second chunk overwrites the kept bytes, the message is
   * lost and [0, 1, 7] stays collected as if it were the start of a header.
   */
  lemma SplitHeaderLosesMessage()
    ensures Feed([], [[0, 0], [0, 1, 7]]) == Decoded([[7]], [])
    ensures FeedAsWritten(MemoryStream([], 0), [[0, 0], [0, 1, 7]]) == Decoded([], [0, 1, 7])
  {
    SplitHeaderKeptByFeed();
    var s1 := Write(MemoryStream([], 0), [0, 0]);
    assert s1.bytes == [0, 0];
    var o1 := ReadAll(s1.bytes);
    assert o1 == Outcome(Decoded([], [0, 0]), MemoryStream([0, 0], 0));
    var s2 := Write(o1.stream, [0, 1, 7]);
    assert s2.bytes == [0, 1, 7];
    var o2 := ReadAll(s2.bytes);
    assert o2 == Outcome(Decoded([], [0, 1, 7]), MemoryStream([0, 1, 7], 0));
    assert [[0, 0], [0, 1, 7]][1..] == [[0, 1, 7]];
    assert FeedAsWritten(o1.stream, [[0, 1, 7]]) == Decoded([], [0, 1, 7]) by {
      assert [[0, 1, 7]][1..] == [];
    }
  }

  /** With the kept bytes appended to, the same two chunks give the message. */
  lemma SplitHeaderKeptByFeed()
    ensures Feed([], [[0, 0], [0, 1, 7]]) == Decoded([[7]], [])
  {
    var p: seq<byte> := [7];
    assert Framed(p) == [0, 0, 0, 1, 7];
    FrameRoundTrip(p);
    assert Decode([0, 0]) == Decoded([], [0, 0]);
    assert [0, 0] + [0, 1, 7] == Framed(p);
    assert Feed([0, 0], [[0, 1, 7]]) == Decoded([[7]], []) by {
      assert [[0, 1, 7]][1..] == [];
    }
    assert [] + [0, 0] == [0, 0];
    assert [[0, 0], [0, 1, 7]][1..] == [[0, 1, 7]];
  }
}
