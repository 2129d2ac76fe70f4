// The certificate acceptance rules of the TLS transport: the listener's
// default validation of a client certificate, and the client's default
// validation of the server certificate, its choice of local certificate and
// its refusal to attempt mutual authentication without a certificate.
// Certificates are their hash and public-key strings.
module Ssl {
  import opened Wrappers

  datatype SslScsAuthMode = ServerAuth | MutualAuth

  /** The mode a client uses unless told otherwise. */
  const DefaultAuthMode: SslScsAuthMode := ServerAuth

  /** SslPolicyErrors, a set of flags. */
  type SslPolicyErrors = x: int | 0 <= x < 8

  const PolicyNone: SslPolicyErrors := 0
  const RemoteCertificateNotAvailable: SslPolicyErrors := 1
  const RemoteCertificateNameMismatch: SslPolicyErrors := 2
  const RemoteCertificateChainErrors: SslPolicyErrors := 4

  /** An X.509 certificate, as GetCertHashString and GetPublicKeyString show it. */
  datatype Certificate = Certificate(hash: string, publicKey: string)

  /** A validation callback: accepts or refuses the presented certificate given the policy errors. */
  type Validator = (Certificate, SslPolicyErrors) -> bool

  /** Some certificate of the allow-list has the presented certificate's hash. */
  predicate HashListed(allowed: seq<Certificate>, presented: Certificate) {
    exists i :: 0 <= i < |allowed| && allowed[i].hash == presented.hash
  }

  /**
   * The rule MutualAuthentication applies: no allow-list refuses everything;
   * exactly the chain-errors flag is forgiven for a certificate whose hash
   * is listed; any other policy errors, combined flags included, refuse.
   */
  predicate AcceptsClient(clientCertificates: Option<seq<Certificate>>, presented: Certificate, errors: SslPolicyErrors) {
    if clientCertificates.None? then false
    else if errors == RemoteCertificateChainErrors then HashListed(clientCertificates.value, presented)
    else errors == PolicyNone
  }

  /** MutualAuthentication: the allow-list is searched in order for the presented hash. */
  method MutualAuthentication(clientCertificates: Option<seq<Certificate>>, presented: Certificate, errors: SslPolicyErrors)
    returns (accepted: bool)
    ensures accepted == AcceptsClient(clientCertificates, presented, errors)
  {
    if clientCertificates.None? {
      return false;
    }
    if errors == RemoteCertificateChainErrors {
      var allowed := clientCertificates.value;
      var i := 0;
      while i < |allowed|
        invariant 0 <= i <= |allowed|
        invariant forall k :: 0 <= k < i ==> allowed[k].hash != presented.hash
      {
        if allowed[i].hash == presented.hash {
          return true;
        }
        i := i + 1;
      }
      return false;
    }
    accepted := errors == PolicyNone;
  }

  /** TcpSslConnectionListener.ValidateCertificate: anything in server-only mode, the mutual rule otherwise. */
  predicate ListenerAccepts(mode: SslScsAuthMode, clientCertificates: Option<seq<Certificate>>,
                            presented: Certificate, errors: SslPolicyErrors) {
    match mode
    case ServerAuth => true
    case MutualAuth => AcceptsClient(clientCertificates, presented, errors)
  }

  /** The listener uses the caller's callback when one is given and its own rule otherwise. */
  function ListenerValidation(callback: Option<Validator>, mode: SslScsAuthMode,
                              clientCertificates: Option<seq<Certificate>>): (v: Validator)
    ensures callback.Some? ==> v == callback.value
  {
    if callback.Some? then callback.value
    else (c: Certificate, e: SslPolicyErrors) => ListenerAccepts(mode, clientCertificates, c, e)
  }

  /** The listener asks the client for its certificate only in mutual mode. */
  predicate RequestsClientCertificate(mode: SslScsAuthMode) {
    mode == MutualAuth
  }

  /**
   * In mutual mode a certificate is accepted exactly when it comes without
   * errors, or with only chain errors and a listed hash; a missing certificate
   * or a name mismatch is never forgiven, and no allow-list accepts nothing.
   */
  lemma MutualAcceptance(clientCertificates: Option<seq<Certificate>>, presented: Certificate, errors: SslPolicyErrors)
    ensures ListenerAccepts(MutualAuth, clientCertificates, presented, errors) <==>
              && clientCertificates.Some?
              && (errors == PolicyNone || (errors == RemoteCertificateChainErrors && HashListed(clientCertificates.value, presented)))
    ensures errors != PolicyNone && errors != RemoteCertificateChainErrors ==>
              !ListenerAccepts(MutualAuth, clientCertificates, presented, errors)
    ensures ListenerAccepts(ServerAuth, clientCertificates, presented, errors)
  {
  }

  /**
   * SslScsTcpClient.DefaultValidateCertificate: in server-only mode the
   * server's public key must match the configured one, in mutual mode its
   * hash; policy errors are not looked at.
   */
  predicate ClientAccepts(mode: SslScsAuthMode, serverCertificate: Certificate, presented: Certificate, errors: SslPolicyErrors) {
    match mode
    case ServerAuth => serverCertificate.publicKey == presented.publicKey
    case MutualAuth => serverCertificate.hash == presented.hash
  }

  /** The policy errors never change the client's verdict, and the configured certificate is always accepted. */
  lemma ClientIgnoresPolicyErrors(mode: SslScsAuthMode, serverCertificate: Certificate, presented: Certificate,
                                  e1: SslPolicyErrors, e2: SslPolicyErrors)
    ensures ClientAccepts(mode, serverCertificate, presented, e1) == ClientAccepts(mode, serverCertificate, presented, e2)
    ensures ClientAccepts(mode, serverCertificate, serverCertificate, e1)
  {
  }

  function ClientValidation(callback: Option<Validator>, mode: SslScsAuthMode, serverCertificate: Certificate): (v: Validator)
    ensures callback.Some? ==> v == callback.value
  {
    if callback.Some? then callback.value
    else (c: Certificate, e: SslPolicyErrors) => ClientAccepts(mode, serverCertificate, c, e)
  }

  /** SelectLocalCertificate: always the configured client certificate, which may be null. */
  function SelectLocalCertificate(clientCertificate: Option<Certificate>, remote: Option<Certificate>): (r: Option<Certificate>)
    ensures r == clientCertificate
  {
    clientCertificate
  }

  const MissingClientCertificateText: string := "Client certificate cannot be null for mutual authentication"

  /**
   * The certificates the client offers in the handshake: none in server-only
   * mode; in mutual mode its own certificate, without which it refuses to
   * start the handshake.
   */
  function HandshakeCertificates(mode: SslScsAuthMode, clientCertificate: Option<Certificate>)
    : (r: Result<Option<seq<Certificate>>, string>)
    ensures r.Failure? <==> mode == MutualAuth && clientCertificate.None?
    ensures r.Failure? ==> r.error == MissingClientCertificateText
    ensures r.Success? && mode == ServerAuth ==> r.value == None
    ensures r.Success? && mode == MutualAuth ==> r.value == Some([clientCertificate.value])
  {
    match mode
    case ServerAuth => Success(None)
    case MutualAuth =>
      if clientCertificate.None? then Failure(MissingClientCertificateText)
      else Success(Some([clientCertificate.value]))
  }

  /**
   * With default validation on both sides in mutual mode, a client whose
   * certificate is on the server's list and whose configured server
   * certificate is the server's own completes the check on both ends when
   * the only policy error is a chain error.
   */
  lemma MutualHandshakeAccepted(serverCert: Certificate, clientCert: Certificate, allowList: seq<Certificate>, i: int)
    requires 0 <= i < |allowList| && allowList[i] == clientCert
    ensures HandshakeCertificates(MutualAuth, Some(clientCert)) == Success(Some([clientCert]))
    ensures ListenerValidation(None, MutualAuth, Some(allowList))(clientCert, RemoteCertificateChainErrors)
    ensures ClientValidation(None, MutualAuth, serverCert)(serverCert, RemoteCertificateChainErrors)
  {
    assert allowList[i].hash == clientCert.hash;
  }
}
