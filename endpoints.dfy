// End point addresses: parsing "protocol://address" strings into TCP end
// points, the TCP end point's own "host:port" parser and its string form,
// and the named-pipe end point's validation.
module EndPoints {
  import opened Wrappers
  import opened Numeric
  import opened Strings

  datatype EndPointError =
    | ArgumentNull(parameterName: string)
    | ArgumentError(message: string, parameterName: string)
    | ApplicationError(message: string)
      /** The address had no ':' part for the port. */
    | IndexOutOfRange
      /** Convert.ToInt32 refused the port text. */
    | PortError(error: NumberError)

  /** ScsTcpEndPoint: an IP address, which may be null, and a port. */
  datatype ScsTcpEndPoint = ScsTcpEndPoint(ipAddress: Option<string>, tcpPort: int)

  /** The port-only constructor: no IP address. */
  function FromPort(tcpPort: int): (ep: ScsTcpEndPoint)
    ensures ep.ipAddress.None? && ep.tcpPort == tcpPort
  {
    ScsTcpEndPoint(None, tcpPort)
  }

  /**
   * The constructor from an "IPAddress:Port" string: the trimmed text is
   * cut at every ':', the first piece, trimmed, is the address and the
   * second, trimmed, is parsed as the port; further pieces are ignored.
   */
  function ParseTcpEndPoint(address: string): (r: Result<ScsTcpEndPoint, EndPointError>)
    ensures r.Success? ==> r.value.ipAddress.Some? && IsInt32(r.value.tcpPort) && ':' !in r.value.ipAddress.value
    ensures r.Success? ==> IsTrimmed(r.value.ipAddress.value)
  {
    var parts := Split(Trim(address), ':');
    if |parts| < 2 then Failure(IndexOutOfRange)
    else
      match ParseInt32(Trim(parts[1]))
      case Failure(e) => Failure(PortError(e))
      case Success(port) => Success(ScsTcpEndPoint(Some(Trim(parts[0])), port))
  }

  /** Without a ':' there is no port, so the parse fails. */
  lemma ParseWithoutColon(address: string)
    requires ':' !in address
    ensures ParseTcpEndPoint(address) == Failure(IndexOutOfRange)
  {
    SplitWithoutSeparator(Trim(address), ':');
  }

  /** A plain address, a ':' and a port's text parse to that address and port. */
  lemma ParseHostPort(host: string, port: int)
    requires PlainHost(host) && IsInt32(port)
    ensures ParseTcpEndPoint(host + ":" + IntToString(port)) == Success(ScsTcpEndPoint(Some(host), port))
  {
    var digits := IntToString(port);
    var hostPort := host + ":" + digits;
    PortTextTrimmed(port);
    assert IsTrimmed(hostPort);
    TrimOfTrimmed(hostPort);
    SplitAtOnlySeparator(host, digits, ':');
    TrimOfTrimmed(host);
    TrimOfTrimmed(digits);
    IntToStringRoundTrip(port);
  }

  /** ToString: "tcp://" and the port, with the address and a ':' before the port when there is an address. */
  function TcpEndPointToString(ep: ScsTcpEndPoint): string {
    if IsNullOrEmpty(ep.ipAddress) then "tcp://" + IntToString(ep.tcpPort)
    else "tcp://" + ep.ipAddress.value + ":" + IntToString(ep.tcpPort)
  }

  /** The address with "tcp://" in front unless it names a protocol already. */
  function WithScheme(address: string): string {
    if Contains(address, "://") then address else "tcp://" + address
  }

  /**
   * ScsEndPoint.CreateEndPoint: a null or empty address is refused; "tcp://"
   * is put in front of an address without "://"; the address must then
   * split at "://" into exactly two non-empty parts, the first of which,
   * trimmed and lower-cased, must be "tcp".
   */
  function CreateEndPoint(endPointAddress: Option<string>): (r: Result<ScsTcpEndPoint, EndPointError>)
    ensures IsNullOrEmpty(endPointAddress) ==> r == Failure(ArgumentNull("endPointAddress"))
  {
    if IsNullOrEmpty(endPointAddress) then Failure(ArgumentNull("endPointAddress"))
    else
      var original := endPointAddress.value;
      var parts := RemoveEmpty(SplitOn(WithScheme(original), "://"));
      if |parts| != 2 then Failure(ApplicationError(original + " is not a valid endpoint address."))
      else
        var protocol := ToLower(Trim(parts[0]));
        var address := Trim(parts[1]);
        if protocol == "tcp" then ParseTcpEndPoint(address)
        else Failure(ApplicationError("Unsupported protocol " + protocol + " in end point " + original))
  }

  /** An address fit for the string form: non-empty, with no white space at its ends and no ':'. */
  predicate PlainHost(host: string) {
    host != [] && IsTrimmed(host) && ':' !in host
  }

  /** "tcp://" + rest splits at "://" into "tcp" and rest when rest holds no "://". */
  lemma SplitTcpPrefix(rest: string)
    requires rest != [] && !Contains(rest, "://")
    ensures RemoveEmpty(SplitOn("tcp://" + rest, "://")) == ["tcp", rest]
  {
    var s := "tcp" + "://" + rest;
    assert "tcp://" + rest == s;
    forall j | 0 <= j < |"tcp"|
      ensures !MatchAt(s, "://", j)
    {
      if MatchAt(s, "://", j) {
        assert s[j] == "tcp"[j];
        MatchAtChar(s, "://", j, 0);
      }
    }
    assert forall j :: 0 <= j < |rest| ==> !MatchAt(rest, "://", j);
    SplitOnOnce("tcp", "://", rest);
    assert RemoveEmpty(["tcp", rest]) == ["tcp"] + RemoveEmpty([rest]);
  }

  /** An address whose protocol part is "tcp" is parsed as a TCP end point from the rest, trimmed. */
  lemma CreateTcpEndPoint(original: string, rest: string)
    requires original != [] && WithScheme(original) == "tcp://" + rest
    requires rest != [] && !Contains(rest, "://")
    ensures CreateEndPoint(Some(original)) == ParseTcpEndPoint(Trim(rest))
  {
    SplitTcpPrefix(rest);
    assert Trim("tcp") == "tcp" by { TrimOfTrimmed("tcp"); }
    assert ToLower("tcp") == "tcp";
  }

  /** A port's digits followed by nothing else: trimmed, and the sign or a digit never white space. */
  lemma PortTextTrimmed(port: int)
    ensures IsTrimmed(IntToString(port)) && ':' !in IntToString(port) && '/' !in IntToString(port)
    ensures !Contains(IntToString(port), "://")
  {
    var t := IntToString(port);
    assert forall i :: 0 <= i < |t| ==> t[i] == '-' || IsDigit(t[i]) by {
      if port < 0 {
        forall i | 0 <= i < |t| ensures t[i] == '-' || IsDigit(t[i]) {
          if i > 0 { assert t[i] == t[1..][i - 1]; }
        }
      }
    }
    forall j | 0 <= j <= |t| - 3
      ensures !MatchAt(t, "://", j)
    {
      assert t[j..j + 3][0] == t[j];
    }
  }

  /**
   * The text of a plain address, a ':' and a port holds no "://": its only
   * ':' is followed by the port's sign or first digit.
   */
  lemma HostPortText(host: string, port: int)
    requires PlainHost(host)
    ensures var hostPort := host + ":" + IntToString(port);
      && IsTrimmed(hostPort) && !Contains(hostPort, "://")
  {
    var digits := IntToString(port);
    var hostPort := host + ":" + digits;
    PortTextTrimmed(port);
    assert hostPort == host + [':'] + digits;
    forall j | 0 <= j <= |hostPort| - 3
      ensures !MatchAt(hostPort, "://", j)
    {
      if j < |host| {
        assert hostPort[j] == host[j] != ':';
        assert hostPort[j..j + 3][0] == hostPort[j];
      } else if j == |host| {
        assert hostPort[j + 1] == digits[0] != '/';
        assert hostPort[j..j + 3][1] == hostPort[j + 1];
      } else {
        assert hostPort[j] == digits[j - |host| - 1] != ':';
        assert hostPort[j..j + 3][0] == hostPort[j];
      }
    }
  }

  /** The string form of an end point with a plain address parses back to the same end point. */
  lemma EndPointRoundTrip(host: string, port: int)
    requires PlainHost(host) && IsInt32(port)
    ensures CreateEndPoint(Some(TcpEndPointToString(ScsTcpEndPoint(Some(host), port)))) == Success(ScsTcpEndPoint(Some(host), port))
  {
    var hostPort := host + ":" + IntToString(port);
    HostPortText(host, port);
    ParseHostPort(host, port);
    TrimOfTrimmed(hostPort);
    var full := "tcp://" + hostPort;
    WithSchemeKeepsTcp(hostPort);
    CreateTcpEndPoint(full, hostPort);
    ToStringOfPlainHost(host, port);
  }

  lemma ToStringOfPlainHost(host: string, port: int)
    requires host != []
    ensures TcpEndPointToString(ScsTcpEndPoint(Some(host), port)) == "tcp://" + (host + ":" + IntToString(port))
  {
  }

  lemma WithSchemeKeepsTcp(rest: string)
    ensures WithScheme("tcp://" + rest) == "tcp://" + rest
  {
    assert MatchAt("tcp://" + rest, "://", 3);
  }

  /** So does that string form without its "tcp://" prefix, which CreateEndPoint puts back. */
  lemma HostPortParses(host: string, port: int)
    requires PlainHost(host) && IsInt32(port)
    ensures CreateEndPoint(Some(host + ":" + IntToString(port))) == Success(ScsTcpEndPoint(Some(host), port))
  {
    var hostPort := host + ":" + IntToString(port);
    HostPortText(host, port);
    ParseHostPort(host, port);
    TrimOfTrimmed(hostPort);
    CreateTcpEndPoint(hostPort, hostPort);
  }

  /** The string form of a port-only end point does not parse: the port is taken for the address and no port is found. */
  lemma PortOnlyDoesNotParse(port: int)
    ensures CreateEndPoint(Some(TcpEndPointToString(FromPort(port)))) == Failure(IndexOutOfRange)
  {
    var digits := IntToString(port);
    PortTextTrimmed(port);
    var full := "tcp://" + digits;
    assert TcpEndPointToString(FromPort(port)) == full;
    assert MatchAt(full, "://", 3);
    assert WithScheme(full) == full;
    CreateTcpEndPoint(full, digits);
    TrimOfTrimmed(digits);
    ParseWithoutColon(digits);
  }

  /** NamedPipeEndPoint's protocol name and default connection timeout, in seconds. */
  const PipeProtocol: string := "pipe"
  const DefaultConnectionTimeoutSeconds: int := 15

  /** NamedPipeEndPoint: a pipe name and a connection timeout in seconds. */
  datatype NamedPipeEndPoint = NamedPipeEndPoint(name: string, connectionTimeout: int)

  /** The constructor: a null, empty or all-white-space name is refused; the timeout starts at the default. */
  function NewNamedPipeEndPoint(name: Option<string>): (r: Result<NamedPipeEndPoint, EndPointError>)
    ensures r.Success? <==> !IsNullOrWhiteSpace(name)
    ensures r.Success? ==> r.value.name == name.value && r.value.connectionTimeout == DefaultConnectionTimeoutSeconds
    ensures r.Failure? ==> r.error == ArgumentError("Value is null or empty.", "name")
  {
    if IsNullOrWhiteSpace(name) then Failure(ArgumentError("Value is null or empty.", "name"))
    else Success(NamedPipeEndPoint(name.value, DefaultConnectionTimeoutSeconds))
  }
}
