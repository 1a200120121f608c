/** The client's error type and its conversions (src/error.rs). */
module Errors {
  import opened Wrappers
  import opened Io
  import Http
  import Curl

  /** Every kind of error the client reports. */
  datatype Error =
    | BadClientCertificate(detail: Option<string>)
    | BadServerCertificate(detail: Option<string>)
    | Canceled
    | ConnectFailed
    | CouldntResolveHost
    | CouldntResolveProxy
    | Curl(message: string)
    | Internal
    | InvalidContentEncoding(detail: Option<string>)
    | InvalidCredentials
    | InvalidHttpFormat(httpError: Http.HttpError)
    | InvalidJson
    | InvalidUtf8
    | Io(ioError: IoError)
    | NoResponse
    | RangeRequestUnsupported
    | RequestBodyError(detail: Option<string>)
    | ResponseBodyError(detail: Option<string>)
    | SSLConnectFailed(detail: Option<string>)
    | SSLEngineError(detail: Option<string>)
    | Timeout
    | TooManyConnections
    | TooManyRedirects

  const UNKNOWN: string := "unknown error"

  /** The variants that carry curl's optional extra description. */
  predicate CarriesDetail(e: Error) {
    e.BadClientCertificate? || e.BadServerCertificate? || e.InvalidContentEncoding?
    || e.RequestBodyError? || e.ResponseBodyError? || e.SSLConnectFailed? || e.SSLEngineError?
  }

  /** The variants without any payload. */
  predicate IsUnit(e: Error) {
    e.Canceled? || e.ConnectFailed? || e.CouldntResolveHost? || e.CouldntResolveProxy?
    || e.Internal? || e.InvalidCredentials? || e.InvalidJson? || e.InvalidUtf8?
    || e.NoResponse? || e.RangeRequestUnsupported? || e.Timeout?
    || e.TooManyConnections? || e.TooManyRedirects?
  }

  /** A carried description, or the fallback text when there is none. */
  function OrUnknown(d: Option<string>): string {
    if d.Some? then d.value else UNKNOWN
  }

  /** `Error::description`: a fixed text for each payload-free variant but
      `Canceled`, the carried text for the others, and "unknown error" for
      every case the table does not list. */
  function Description(e: Error): (r: string)
    ensures IsUnit(e) ==> (r == UNKNOWN <==> e.Canceled?)
    ensures CarriesDetail(e) ==> r == OrUnknown(e.detail)
  {
    match e
    case BadClientCertificate(d) => OrUnknown(d)
    case BadServerCertificate(d) => OrUnknown(d)
    case ConnectFailed => "failed to connect to the server"
    case CouldntResolveHost => "couldn't resolve host name"
    case CouldntResolveProxy => "couldn't resolve proxy host name"
    case Curl(m) => m
    case Internal => "internal error"
    case InvalidContentEncoding(d) => OrUnknown(d)
    case InvalidCredentials => "credentials were rejected by the server"
    case InvalidHttpFormat(h) => h.message
    case InvalidJson => "body is not valid JSON"
    case InvalidUtf8 => "bytes are not valid UTF-8"
    case Io(io) => io.message
    case NoResponse => "server did not send a response"
    case RangeRequestUnsupported => "server does not support or accept range requests"
    case RequestBodyError(d) => OrUnknown(d)
    case ResponseBodyError(d) => OrUnknown(d)
    case SSLConnectFailed(d) => OrUnknown(d)
    case SSLEngineError(d) => OrUnknown(d)
    case Timeout => "request took longer than the configured timeout"
    case TooManyConnections => "max connection limit exceeded"
    case TooManyRedirects => "max redirect limit exceeded"
    case Canceled => UNKNOWN
  }

  /** The fallback text is what `Canceled` and a detail-carrying variant
      without a detail describe themselves with; a detail-carrying variant
      with a detail, a curl error, a malformed-HTTP error and an I/O error
      give the text they carry. */
  lemma DescriptionFallback(e: Error)
    ensures e.Canceled? || (CarriesDetail(e) && e.detail.None?) ==> Description(e) == UNKNOWN
    ensures CarriesDetail(e) && e.detail.Some? ==> Description(e) == e.detail.value
    ensures e.Curl? ==> Description(e) == e.message
    ensures e.InvalidHttpFormat? ==> Description(e) == e.httpError.message
    ensures e.Io? ==> Description(e) == e.ioError.message
  {
  }

  /** Every payload-free variant but `Canceled` has a text of its own, never
      the fallback. */
  lemma FixedDescriptions(e: Error)
    requires IsUnit(e) && !e.Canceled?
    ensures |Description(e)| > |UNKNOWN|
  {
  }

  /** The underlying error `cause()` exposes. */
  datatype Underlying = HttpCause(httpError: Http.HttpError) | IoCause(ioError: IoError)

  /** `Error::cause`: only a malformed-HTTP error and an I/O error have one,
      and it is the error they wrap. */
  function Cause(e: Error): (r: Option<Underlying>)
    ensures r.Some? <==> e.InvalidHttpFormat? || e.Io?
    ensures e.InvalidHttpFormat? ==> r == Some(HttpCause(e.httpError))
    ensures e.Io? ==> r == Some(IoCause(e.ioError))
  {
    match e
    case InvalidHttpFormat(h) => Some(HttpCause(h))
    case Io(io) => Some(IoCause(io))
    case _ => None
  }

  /** `From<curl::Error>`: the first test that the error passes decides the
      variant; an error that passes none keeps curl's description. */
  function FromCurl(e: Curl.CurlError): (r: Error)
    ensures r.Curl? <==> e.conditions == {}
    ensures r.Curl? ==> r.message == e.description
    ensures CarriesDetail(r) ==> r.detail == e.extra
  {
    var c := e.conditions;
    if Curl.SslCertProblem in c || Curl.SslCacertBadfile in c then
      BadClientCertificate(e.extra)
    else if Curl.PeerFailedVerification in c || Curl.SslCacert in c then
      BadServerCertificate(e.extra)
    else if Curl.CouldntConnect in c then
      ConnectFailed
    else if Curl.CouldntResolveHost in c then
      CouldntResolveHost
    else if Curl.CouldntResolveProxy in c then
      CouldntResolveProxy
    else if Curl.BadContentEncoding in c || Curl.ConvFailed in c then
      InvalidContentEncoding(e.extra)
    else if Curl.LoginDenied in c then
      InvalidCredentials
    else if Curl.GotNothing in c then
      NoResponse
    else if Curl.RangeError in c then
      RangeRequestUnsupported
    else if Curl.ReadError in c || Curl.AbortedByCallback in c then
      RequestBodyError(e.extra)
    else if Curl.WriteError in c || Curl.PartialFile in c then
      ResponseBodyError(e.extra)
    else if Curl.SslConnectError in c then
      SSLConnectFailed(e.extra)
    else if Curl.SslEngineInitFailed in c || Curl.SslEngineNotFound in c || Curl.SslEngineSetFailed in c then
      SSLEngineError(e.extra)
    else if Curl.OperationTimedOut in c then
      Timeout
    else
      assert c == {} by {
        forall k: Curl.Condition ensures k !in c {
          assert k.SslCertProblem? || k.SslCacertBadfile? || k.PeerFailedVerification? || k.SslCacert?
            || k.CouldntConnect? || k.CouldntResolveHost? || k.CouldntResolveProxy?
            || k.BadContentEncoding? || k.ConvFailed? || k.LoginDenied? || k.GotNothing? || k.RangeError?
            || k.ReadError? || k.AbortedByCallback? || k.WriteError? || k.PartialFile?
            || k.SslConnectError? || k.SslEngineInitFailed? || k.SslEngineNotFound? || k.SslEngineSetFailed?
            || k.OperationTimedOut?;
        }
      }
      Curl(e.description)
  }

  /** What a row of the classification table makes of an error. */
  datatype Verdict =
    | ClientCert | ServerCert | Connect | ResolveHost | ResolveProxy | Encoding
    | Credentials | NothingSent | Range | RequestBody | ResponseBody
    | SslConnect | SslEngine | Expired

  /** The error a verdict stands for, given curl's extra description. */
  function Build(v: Verdict, extra: Option<string>): Error {
    match v
    case ClientCert => BadClientCertificate(extra)
    case ServerCert => BadServerCertificate(extra)
    case Connect => ConnectFailed
    case ResolveHost => CouldntResolveHost
    case ResolveProxy => CouldntResolveProxy
    case Encoding => InvalidContentEncoding(extra)
    case Credentials => InvalidCredentials
    case NothingSent => NoResponse
    case Range => RangeRequestUnsupported
    case RequestBody => RequestBodyError(extra)
    case ResponseBody => ResponseBodyError(extra)
    case SslConnect => SSLConnectFailed(extra)
    case SslEngine => SSLEngineError(extra)
    case Expired => Timeout
  }

  /** The classification table, in the order its rows are tried: each row
      holds the conditions that select it and its verdict. */
  datatype Table = End | Row(conditions: set<Curl.Condition>, verdict: Verdict, next: Table)

  function Rules(): Table {
    Row({Curl.SslCertProblem, Curl.SslCacertBadfile}, ClientCert,
    Row({Curl.PeerFailedVerification, Curl.SslCacert}, ServerCert,
    Row({Curl.CouldntConnect}, Connect,
    Row({Curl.CouldntResolveHost}, ResolveHost,
    Row({Curl.CouldntResolveProxy}, ResolveProxy,
    Row({Curl.BadContentEncoding, Curl.ConvFailed}, Encoding,
    Row({Curl.LoginDenied}, Credentials,
    LaterRules())))))))
  }

  /** The rows from "nothing received" on. */
  function LaterRules(): Table {
    Row({Curl.GotNothing}, NothingSent,
    Row({Curl.RangeError}, Range,
    Row({Curl.ReadError, Curl.AbortedByCallback}, RequestBody,
    Row({Curl.WriteError, Curl.PartialFile}, ResponseBody,
    Row({Curl.SslConnectError}, SslConnect,
    Row({Curl.SslEngineInitFailed, Curl.SslEngineNotFound, Curl.SslEngineSetFailed}, SslEngine,
    Row({Curl.OperationTimedOut}, Expired,
    End)))))))
  }

  /** Whether the error satisfies one of the conditions of a row. */
  predicate Meets(conds: set<Curl.Condition>, c: set<Curl.Condition>) {
    exists x :: x in conds && x in c
  }

  /** The verdict of the first row whose conditions the error meets. */
  function FirstMatch(t: Table, c: set<Curl.Condition>): Option<Verdict> {
    match t
    case End => None
    case Row(conds, v, next) => if Meets(conds, c) then Some(v) else FirstMatch(next, c)
  }

  /** Classification by the table. */
  function Classify(e: Curl.CurlError): Error {
    match FirstMatch(Rules(), e.conditions)
    case Some(v) => Build(v, e.extra)
    case None => Curl(e.description)
  }

  /** The chain of tests in `From<curl::Error>` is first-match-wins over the
      table: whenever an error meets the conditions of several rows, the
      earliest row decides, and an error that meets none keeps curl's
      description. */
  lemma FromCurlIsFirstMatch(e: Curl.CurlError)
    ensures FromCurl(e) == Classify(e)
  {
    var c := e.conditions;
    var t := Rules();
    if Curl.SslCertProblem in c || Curl.SslCacertBadfile in c {
      Hit(t, c, if Curl.SslCertProblem in c then Curl.SslCertProblem else Curl.SslCacertBadfile);
      return;
    }
    Miss(t, c);
    t := t.next;
    if Curl.PeerFailedVerification in c || Curl.SslCacert in c {
      Hit(t, c, if Curl.PeerFailedVerification in c then Curl.PeerFailedVerification else Curl.SslCacert);
      return;
    }
    Miss(t, c);
    t := t.next;
    if Curl.CouldntConnect in c {
      Hit(t, c, Curl.CouldntConnect);
      return;
    }
    Miss(t, c);
    t := t.next;
    if Curl.CouldntResolveHost in c {
      Hit(t, c, Curl.CouldntResolveHost);
      return;
    }
    Miss(t, c);
    t := t.next;
    if Curl.CouldntResolveProxy in c {
      Hit(t, c, Curl.CouldntResolveProxy);
      return;
    }
    Miss(t, c);
    t := t.next;
    if Curl.BadContentEncoding in c || Curl.ConvFailed in c {
      Hit(t, c, if Curl.BadContentEncoding in c then Curl.BadContentEncoding else Curl.ConvFailed);
      return;
    }
    Miss(t, c);
    t := t.next;
    if Curl.LoginDenied in c {
      Hit(t, c, Curl.LoginDenied);
      return;
    }
    Miss(t, c);
    t := t.next;
    FromCurlLaterRows(e);
  }

  /** The same for an error that meets none of the first seven rows, which
      the table hands on to its later rows. */
  lemma FromCurlLaterRows(e: Curl.CurlError)
    requires Curl.SslCertProblem !in e.conditions
    requires Curl.SslCacertBadfile !in e.conditions
    requires Curl.PeerFailedVerification !in e.conditions
    requires Curl.SslCacert !in e.conditions
    requires Curl.CouldntConnect !in e.conditions
    requires Curl.CouldntResolveHost !in e.conditions
    requires Curl.CouldntResolveProxy !in e.conditions
    requires Curl.BadContentEncoding !in e.conditions
    requires Curl.ConvFailed !in e.conditions
    requires Curl.LoginDenied !in e.conditions
    ensures FromCurl(e) == (match FirstMatch(LaterRules(), e.conditions)
                            case Some(v) => Build(v, e.extra)
                            case None => Curl(e.description))
  {
    var c := e.conditions;
    var t := LaterRules();
    if Curl.GotNothing in c {
      Hit(t, c, Curl.GotNothing);
      return;
    }
    Miss(t, c);
    t := t.next;
    if Curl.RangeError in c {
      Hit(t, c, Curl.RangeError);
      return;
    }
    Miss(t, c);
    t := t.next;
    if Curl.ReadError in c || Curl.AbortedByCallback in c {
      Hit(t, c, if Curl.ReadError in c then Curl.ReadError else Curl.AbortedByCallback);
      return;
    }
    Miss(t, c);
    t := t.next;
    if Curl.WriteError in c || Curl.PartialFile in c {
      Hit(t, c, if Curl.WriteError in c then Curl.WriteError else Curl.PartialFile);
      return;
    }
    Miss(t, c);
    t := t.next;
    if Curl.SslConnectError in c {
      Hit(t, c, Curl.SslConnectError);
      return;
    }
    Miss(t, c);
    t := t.next;
    if Curl.SslEngineInitFailed in c || Curl.SslEngineNotFound in c || Curl.SslEngineSetFailed in c {
      Hit(t, c, if Curl.SslEngineInitFailed in c then Curl.SslEngineInitFailed else if Curl.SslEngineNotFound in c then Curl.SslEngineNotFound else Curl.SslEngineSetFailed);
      return;
    }
    Miss(t, c);
    t := t.next;
    if Curl.OperationTimedOut in c {
      Hit(t, c, Curl.OperationTimedOut);
      return;
    }
    Miss(t, c);
    t := t.next;
    assert t == End;
  }

  /** A row the error does not meet passes the decision on. */
  lemma Miss(t: Table, c: set<Curl.Condition>)
    requires t.Row? && !Meets(t.conditions, c)
    ensures FirstMatch(t, c) == FirstMatch(t.next, c)
  {
  }

  /** A row the error meets decides its verdict. */
  lemma Hit(t: Table, c: set<Curl.Condition>, x: Curl.Condition)
    requires t.Row? && x in t.conditions && x in c
    ensures FirstMatch(t, c) == Some(t.verdict)
  {
    assert Meets(t.conditions, c);
  }

  /** An error that is both a certificate problem and a timeout is reported
      as a certificate problem. */
  lemma CertificateBeatsTimeout(extra: Option<string>, text: string)
    ensures FromCurl(Curl.CurlError({Curl.SslCertProblem, Curl.OperationTimedOut}, extra, text))
      == BadClientCertificate(extra)
  {
  }

  /** A failure to send or receive the body carries curl's extra
      description; a timeout that comes with a body failure is reported as
      the body failure; an error with no condition keeps curl's text. */
  lemma TransferErrors(extra: Option<string>, text: string)
    ensures FromCurl(Curl.CurlError({Curl.ReadError}, extra, text)) == RequestBodyError(extra)
    ensures FromCurl(Curl.CurlError({Curl.AbortedByCallback}, extra, text)) == RequestBodyError(extra)
    ensures FromCurl(Curl.CurlError({Curl.WriteError}, extra, text)) == ResponseBodyError(extra)
    ensures FromCurl(Curl.CurlError({Curl.PartialFile}, extra, text)) == ResponseBodyError(extra)
    ensures FromCurl(Curl.CurlError({Curl.OperationTimedOut}, extra, text)) == Timeout
    ensures FromCurl(Curl.CurlError({Curl.ReadError, Curl.OperationTimedOut}, extra, text)) == RequestBodyError(extra)
    ensures FromCurl(Curl.CurlError({}, extra, text)) == Curl(text)
  {
  }

  /** `From<io::Error>`: a refused connection and a timeout become their own
      variants; every other I/O error is wrapped unchanged. */
  function FromIo(e: IoError): (r: Error)
    ensures e.kind == ConnectionRefused <==> r == ConnectFailed
    ensures e.kind == TimedOut <==> r == Timeout
    ensures e.kind != ConnectionRefused && e.kind != TimedOut <==> r == Io(e)
  {
    match e.kind
    case ConnectionRefused => ConnectFailed
    case TimedOut => Timeout
    case _ => Io(e)
  }

  /** `From<Error> for io::Error`. */
  function ToIo(e: Error): (r: IoError)
    ensures e.ConnectFailed? ==> r.kind == ConnectionRefused
    ensures e.Timeout? ==> r.kind == TimedOut
    ensures e.Io? ==> r == e.ioError
    ensures !e.ConnectFailed? && !e.Timeout? && !e.Io? ==> r == FromKind(Other)
  {
    match e
    case ConnectFailed => FromKind(ConnectionRefused)
    case Io(io) => io
    case Timeout => FromKind(TimedOut)
    case _ => FromKind(Other)
  }

  /** The variants that survive a trip through `io::Error` and back. */
  predicate RoundTrips(e: Error) {
    e.ConnectFailed? || e.Timeout?
    || (e.Io? && e.ioError.kind != ConnectionRefused && e.ioError.kind != TimedOut)
  }

  /** Converting to an I/O error and back gives the same error exactly for
      `ConnectFailed`, `Timeout` and an I/O error of any other kind; every
      other variant comes back as a wrapped I/O error of kind `Other`. */
  lemma ErrorRoundTrip(e: Error)
    ensures FromIo(ToIo(e)) == e <==> RoundTrips(e)
    ensures !e.ConnectFailed? && !e.Timeout? && !e.Io? ==> FromIo(ToIo(e)) == Io(FromKind(Other))
  {
  }

  /** Converting an I/O error into an `Error` and back keeps its kind, and
      keeps the whole error when the kind is not one of the two that have
      their own variant. */
  lemma IoRoundTrip(e: IoError)
    ensures ToIo(FromIo(e)).kind == e.kind
    ensures e.kind != ConnectionRefused && e.kind != TimedOut ==> ToIo(FromIo(e)) == e
  {
  }

  /** `From<curl::MultiError>`. */
  function FromMulti(e: Curl.MultiError): (r: Error)
    ensures r.Curl? && Description(r) == e.description
  {
    Curl(e.description)
  }

  /** `From<http::Error>`. */
  function FromHttp(e: Http.HttpError): (r: Error)
    ensures r.InvalidHttpFormat? && Cause(r) == Some(HttpCause(e))
  {
    InvalidHttpFormat(e)
  }

  /** A `FromUtf8Error`, by the length of the valid prefix. */
  datatype Utf8Error = Utf8Error(validUpTo: nat)

  /** `From<FromUtf8Error>`. */
  function FromUtf8(e: Utf8Error): (r: Error)
    ensures r == InvalidUtf8
  {
    InvalidUtf8
  }

  /** The errors of the `json` crate. */
  datatype JsonError =
    | UnexpectedCharacter(ch: char, line: nat, column: nat)
    | UnexpectedEndOfJson
    | ExceedDepthLimit
    | FailedUtf8Parsing
    | WrongType(expected: string)

  /** `From<json::Error>`: a UTF-8 failure is an encoding error, anything
      else is malformed JSON. */
  function FromJson(e: JsonError): (r: Error)
    ensures r == InvalidUtf8 <==> e.FailedUtf8Parsing?
    ensures r == InvalidJson <==> !e.FailedUtf8Parsing?
  {
    match e
    case FailedUtf8Parsing => InvalidUtf8
    case _ => InvalidJson
  }
}
