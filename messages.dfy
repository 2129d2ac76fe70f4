/**
 * The message hierarchy: ScsMessage and its subclasses (text, raw data,
 * ping, remote invocation and its return) as one datatype whose `body` names
 * the subclass. Identifiers are GUID strings supplied by the caller.
 */
module Messages {
  import opened Wrappers
  import opened Numeric
  import opened Strings

  /** A boxed argument or return value of a remote call; `Null` is .NET's null. */
  datatype Value = Null | IntValue(i: int) | StringValue(s: string) | ListValue(items: seq<Value>)

  /** ScsRemoteException: the text of a failure carried back to the caller. */
  datatype RemoteException = RemoteException(message: string)

  datatype Body =
    | Plain
    | Text(text: Option<string>)
    | RawData(data: Option<seq<byte>>)
    | Ping
    | RemoteInvoke(serviceClassName: string, methodName: string, parameters: seq<Value>)
    | RemoteInvokeReturn(returnValue: Value, remoteException: Option<RemoteException>)

  /** IScsMessage: an id, the id of the message it answers (null when none) and the payload. */
  datatype Message = Message(messageId: string, repliedMessageId: Option<string>, body: Body)

  /** A message counts as a reply when its RepliedMessageId is neither null nor empty. */
  predicate IsReply(m: Message) {
    !IsNullOrEmpty(m.repliedMessageId)
  }

  /** `new ScsPingMessage { RepliedMessageId = request.MessageId }` with a fresh id. */
  function PingReply(freshId: string, request: Message): (r: Message)
    ensures r.body == Ping && r.repliedMessageId == Some(request.messageId) && r.messageId == freshId
  {
    Message(freshId, Some(request.messageId), Ping)
  }

  /** The parameterless constructors: a fresh id, the payload and no replied id. */
  function NewMessage(freshId: string, body: Body): (r: Message)
    ensures !IsReply(r)
  {
    Message(freshId, None, body)
  }

  /**
   * The reply constructors: their own fresh id, the payload and the id of the
   * message answered, which the caller may pass as null.
   */
  function NewReply(freshId: string, body: Body, repliedMessageId: Option<string>): (r: Message)
    ensures IsReply(r) <==> !IsNullOrEmpty(repliedMessageId)
  {
    Message(freshId, repliedMessageId, body)
  }

  /** The message classes, each of which derives from ScsMessage. */
  datatype MessageType =
    | ScsMessageType | ScsTextMessageType | ScsRawDataMessageType | ScsPingMessageType
    | ScsRemoteInvokeMessageType | ScsRemoteInvokeReturnMessageType

  /** The class a message of each kind is an instance of. */
  function TypeOf(b: Body): MessageType {
    match b
    case Plain => ScsMessageType
    case Text(_) => ScsTextMessageType
    case RawData(_) => ScsRawDataMessageType
    case Ping => ScsPingMessageType
    case RemoteInvoke(_, _, _) => ScsRemoteInvokeMessageType
    case RemoteInvokeReturn(_, _) => ScsRemoteInvokeReturnMessageType
  }

  /** The `is` test of C#: a message is an ScsMessage and an instance of its own class. */
  predicate IsInstanceOf(m: Message, t: MessageType) {
    t == ScsMessageType || t == TypeOf(m.body)
  }

  function ClassName(t: MessageType): string {
    match t
    case ScsMessageType => "ScsMessage"
    case ScsTextMessageType => "ScsTextMessage"
    case ScsRawDataMessageType => "ScsRawDataMessage"
    case ScsPingMessageType => "ScsPingMessage"
    case ScsRemoteInvokeMessageType => "ScsRemoteInvokeMessage"
    case ScsRemoteInvokeReturnMessageType => "ScsRemoteInvokeReturnMessage"
  }

  /** The kinds whose ToString the message classes define with an id header. */
  predicate HasHeaderFormat(b: Body) {
    b.Plain? || b.Text? || b.RawData? || b.Ping?
  }

  /** The class name each ToString starts with. */
  function Tag(b: Body): (r: string)
    requires HasHeaderFormat(b)
    ensures r == ClassName(TypeOf(b))
  {
    match b
    case Plain => "ScsMessage"
    case Text(_) => "ScsTextMessage"
    case RawData(_) => "ScsRawDataMessage"
    case Ping => "ScsPingMessage"
  }

  const RepliedMarker: string := " Replied To ["

  /** "<Tag> [<id>]" followed by " Replied To [<replied id>]" for a reply. */
  function Header(tag: string, m: Message): string {
    if IsReply(m) then tag + " [" + m.messageId + "]" + RepliedMarker + m.repliedMessageId.value + "]"
    else tag + " [" + m.messageId + "]"
  }

  /** What follows the header: the text (null prints as nothing) or the data length (null counts 0). */
  function Suffix(b: Body): string {
    match b
    case Text(t) => ": " + (if t.Some? then t.value else "")
    case RawData(d) => ": " + IntToString(if d.Some? then |d.value| else 0) + " bytes"
    case _ => ""
  }

  /** ToString of ScsMessage, ScsTextMessage, ScsRawDataMessage and ScsPingMessage. */
  function ToString(m: Message): string
    requires HasHeaderFormat(m.body)
  {
    Header(Tag(m.body), m) + Suffix(m.body)
  }

  /** The text before the first `c` and the text after it. */
  function TakeUntil(s: string, c: char): Option<(string, string)>
    decreases |s|
  {
    if s == [] then None
    else if s[0] == c then Some(([], s[1..]))
    else match TakeUntil(s[1..], c)
      case None => None
      case Some(p) => Some(([s[0]] + p.0, p.1))
  }

  lemma {:induction false} TakeUntilFirst(a: string, b: string, c: char)
    requires c !in a
    ensures TakeUntil(a + [c] + b, c) == Some((a, b))
    decreases |a|
  {
    if a == [] {
      assert a + [c] + b == [c] + b;
    } else {
      assert (a + [c] + b)[1..] == a[1..] + [c] + b;
      TakeUntilFirst(a[1..], b, c);
      assert [a[0]] + a[1..] == a;
    }
  }

  datatype ParsedHeader = ParsedHeader(messageId: string, repliedMessageId: Option<string>, rest: string)

  /** Reads the ids back out of a string that starts with a ToString header. */
  function ReadHeader(tag: string, s: string): Option<ParsedHeader> {
    var open := tag + " [";
    if !(open <= s) then None
    else match TakeUntil(s[|open|..], ']')
      case None => None
      case Some(p) =>
        var after := p.1;
        if RepliedMarker <= after then
          match TakeUntil(after[|RepliedMarker|..], ']')
          case None => None
          case Some(q) => Some(ParsedHeader(p.0, Some(q.0), q.1))
        else Some(ParsedHeader(p.0, None, after))
  }

  /** The id between the opening bracket and the first `]` is read back, and what follows it is kept. */
  lemma ReadHeaderOpens(tag: string, id: string, after: string)
    requires ']' !in id
    ensures var open := tag + " [";
      var s := tag + " [" + id + "]" + after;
      open <= s && TakeUntil(s[|open|..], ']') == Some((id, after))
  {
    var open := tag + " [";
    var s := tag + " [" + id + "]" + after;
    assert s == open + (id + [']'] + after);
    assert s[|open|..] == id + [']'] + after;
    TakeUntilFirst(id, after, ']');
  }

  lemma ReadHeaderOfPlain(tag: string, id: string, suffix: string)
    requires ']' !in id
    requires !(RepliedMarker <= suffix)
    ensures ReadHeader(tag, tag + " [" + id + "]" + suffix) == Some(ParsedHeader(id, None, suffix))
  {
    ReadHeaderOpens(tag, id, suffix);
  }

  lemma ReadHeaderOfReply(tag: string, id: string, rid: string, suffix: string)
    requires ']' !in id && ']' !in rid
    ensures ReadHeader(tag, tag + " [" + id + "]" + RepliedMarker + rid + "]" + suffix)
         == Some(ParsedHeader(id, Some(rid), suffix))
  {
    var after := RepliedMarker + rid + "]" + suffix;
    assert tag + " [" + id + "]" + RepliedMarker + rid + "]" + suffix == tag + " [" + id + "]" + after;
    ReadHeaderOpens(tag, id, after);
    assert RepliedMarker <= after;
    assert after[|RepliedMarker|..] == rid + [']'] + suffix;
    TakeUntilFirst(rid, suffix, ']');
  }

  /**
   * ToString loses nothing about the ids: the message id and, for a reply,
   * the replied id can be read back, and what follows is the kind's suffix.
   * A null or empty RepliedMessageId reads back as no reply.
   */
  lemma ToStringRecoversIds(m: Message)
    requires HasHeaderFormat(m.body)
    requires ']' !in m.messageId
    requires m.repliedMessageId.Some? ==> ']' !in m.repliedMessageId.value
    ensures ReadHeader(Tag(m.body), ToString(m))
         == Some(ParsedHeader(m.messageId, if IsReply(m) then m.repliedMessageId else None, Suffix(m.body)))
  {
    var tag, suffix := Tag(m.body), Suffix(m.body);
    if IsReply(m) {
      ReadHeaderOfReply(tag, m.messageId, m.repliedMessageId.value, suffix);
    } else {
      assert suffix == [] || suffix[0] == ':';
      ReadHeaderOfPlain(tag, m.messageId, suffix);
    }
  }

  /** What every constructor produces prints its own id and the id it answers, if any. */
  lemma ConstructedIdsReadBack(freshId: string, body: Body, repliedMessageId: Option<string>)
    requires HasHeaderFormat(body)
    requires ']' !in freshId
    requires repliedMessageId.Some? ==> ']' !in repliedMessageId.value
    ensures ReadHeader(Tag(body), ToString(NewMessage(freshId, body)))
         == Some(ParsedHeader(freshId, None, Suffix(body)))
    ensures ReadHeader(Tag(body), ToString(NewReply(freshId, body, repliedMessageId)))
         == Some(ParsedHeader(freshId, if IsNullOrEmpty(repliedMessageId) then None else repliedMessageId, Suffix(body)))
  {
    ToStringRecoversIds(NewMessage(freshId, body));
    ToStringRecoversIds(NewReply(freshId, body, repliedMessageId));
  }

  /** A raw data message reports the length of its data, and a null array as 0 bytes. */
  lemma RawDataSuffixReportsLength(data: Option<seq<byte>>)
    ensures var n := if data.Some? then |data.value| else 0;
      var s := Suffix(RawData(data));
      && |s| > 8 && s[..2] == ": " && s[|s| - 6..] == " bytes"
      && AllDigits(s[2..|s| - 6]) && DigitsValue(s[2..|s| - 6]) == n
  {
    var n := if data.Some? then |data.value| else 0;
    var digits := NatToString(n);
    var s := Suffix(RawData(data));
    assert s == ": " + digits + " bytes";
    assert s[2..|s| - 6] == digits;
    DigitsValueOfNatToString(n);
  }
}
