/** The curl library as the client sees it. Its error (`curl::Error`) is
    known by the predicates it answers true; its easy handle is known by the
    calls made on it, each of which curl may accept or refuse. */
module Curl {
  import opened Wrappers
  import opened Io

  /** The `curl::Error` predicates that the client's error mapping asks. */
  datatype Condition =
    | SslCertProblem | SslCacertBadfile | PeerFailedVerification | SslCacert
    | CouldntConnect | CouldntResolveHost | CouldntResolveProxy
    | BadContentEncoding | ConvFailed | LoginDenied | GotNothing | RangeError
    | ReadError | AbortedByCallback | WriteError | PartialFile
    | SslConnectError | SslEngineInitFailed | SslEngineNotFound | SslEngineSetFailed
    | OperationTimedOut

  /** A `curl::Error`: the predicates it satisfies, `extra_description()`
      and `description()`. */
  datatype CurlError = CurlError(conditions: set<Condition>, extra: Option<string>, description: string)

  /** `curl::MultiError`, by its description. */
  datatype MultiError = MultiError(description: string)

  /** `easy::HttpVersion`. */
  datatype HttpVersion = Any | V10 | V11 | V2 | V2TLS | V2PriorKnowledge | V3

  /** Options whose `set_opt` implementations lie in files that are not part
      of this model; each is applied as one opaque call. */
  datatype ForeignOption =
    | Authentication | Credentials | PreferredHttpVersion
    | ProxyAuthentication | ProxyCredentials | DnsCache | DnsServers
    | SslCiphers | ClientCertificate | CaCertificate | SslOptions

  /** One setter call on a curl easy handle, with its argument. Durations
      are opaque numbers; `HttpHeaders` carries the header lines of the
      list handed over. */
  datatype EasyCall =
    | Verbose(on: bool) | Signal(on: bool)
    | Timeout(duration: nat) | ConnectTimeout(duration: nat)
    | TcpKeepalive(on: bool) | TcpKeepIntvl(duration: nat) | TcpNodelay(on: bool)
    | FollowLocation(on: bool) | MaxRedirections(limit: nat) | AutoReferer(on: bool)
    | MaxSendSpeed(rate: nat) | MaxRecvSpeed(rate: nat)
    | SetHttpVersion(version: HttpVersion)
    | Proxy(text: string) | NoProxy(text: string)
    | ForbidReuse(on: bool) | Progress(on: bool)
    | AcceptEncoding(encodings: Bytes)
    | Get(on: bool) | Upload(on: bool) | NoBody(on: bool) | Post(on: bool)
    | CustomRequest(text: string) | Url(text: string)
    | PostFieldSize(size: nat) | InFileSize(size: nat)
    | HttpHeaders(lines: seq<Bytes>)
    | ForeignSetting(option: ForeignOption, setting: string)

  /** A call as the client makes it: with `?`, so that a refusal aborts
      (strict), or with the refusal only logged (tolerant). */
  datatype Step = Step(call: EasyCall, tolerant: bool)

  function Strict(c: EasyCall): Step {
    Step(c, false)
  }

  /** Which calls this curl build refuses, and with what error. */
  type Refusals = map<EasyCall, CurlError>

  /** The configuration of an easy handle: the calls curl accepted, in
      order, and the error that stopped the configuration, if any. */
  datatype Run = Run(applied: seq<EasyCall>, failure: Option<CurlError>)

  /** Makes the calls of `steps` in order: an accepted call is recorded, a
      refused tolerant call is skipped, and a refused strict call ends the
      run with its error. */
  function Execute(steps: seq<Step>, refusals: Refusals): (r: Run)
    ensures |r.applied| <= |steps|
    ensures r.failure.None? ==> forall i | 0 <= i < |steps| :: steps[i].call !in refusals || steps[i].tolerant
  {
    if steps == [] then Run([], None)
    else
      var c := steps[0].call;
      if c in refusals && !steps[0].tolerant then Run([], Some(refusals[c]))
      else
        var rest := Execute(steps[1..], refusals);
        Run(if c in refusals then rest.applied else [c] + rest.applied, rest.failure)
  }

  /** Running two step lists one after the other is running their
      concatenation; the second list is not reached when the first fails. */
  lemma {:induction false} ExecuteAppend(a: seq<Step>, b: seq<Step>, refusals: Refusals)
    ensures Execute(a + b, refusals) ==
      var ra := Execute(a, refusals);
      if ra.failure.Some? then ra
      else var rb := Execute(b, refusals); Run(ra.applied + rb.applied, rb.failure)
  {
    if a == [] {
      assert a + b == b;
    } else {
      assert (a + b)[0] == a[0];
      assert (a + b)[1..] == a[1..] + b;
      ExecuteAppend(a[1..], b, refusals);
    }
  }

  /** With nothing refused, every call is made, in order. */
  lemma {:induction false} ExecuteAccepted(steps: seq<Step>)
    ensures Execute(steps, map[]) == Run(Calls(steps), None)
  {
    if steps != [] {
      ExecuteAccepted(steps[1..]);
    }
  }

  /** Whether every call of some steps is made with `?`. */
  predicate AllStrict(steps: seq<Step>) {
    forall i | 0 <= i < |steps| :: !steps[i].tolerant
  }

  /** Strict steps after strict steps are strict steps. */
  lemma StrictAppend(a: seq<Step>, b: seq<Step>)
    requires AllStrict(a) && AllStrict(b)
    ensures AllStrict(a + b)
  {
    forall i | 0 <= i < |a + b| ensures !(a + b)[i].tolerant {
      if i >= |a| { assert (a + b)[i] == b[i - |a|]; }
    }
  }

  /** When curl refuses none of the calls, every call is made, in order. */
  lemma {:induction false} ExecuteUnrefused(steps: seq<Step>, refusals: Refusals)
    requires forall i | 0 <= i < |steps| :: steps[i].call !in refusals
    ensures Execute(steps, refusals) == Run(Calls(steps), None)
  {
    if steps != [] {
      assert steps[0].call !in refusals;
      ExecuteUnrefused(steps[1..], refusals);
    }
  }

  /** A run fails exactly at the first refused strict call, with its error. */
  lemma {:induction false} ExecuteRefused(steps: seq<Step>, refusals: Refusals, j: nat)
    requires j < |steps| && steps[j].call in refusals && !steps[j].tolerant
    requires forall i | 0 <= i < j :: steps[i].call !in refusals || steps[i].tolerant
    ensures Execute(steps, refusals).failure == Some(refusals[steps[j].call])
  {
    if j > 0 {
      assert forall i | 0 <= i < j - 1 :: steps[1..][i] == steps[i + 1];
      ExecuteRefused(steps[1..], refusals, j - 1);
    }
  }

  function Calls(steps: seq<Step>): (r: seq<EasyCall>)
    ensures |r| == |steps|
    ensures forall i | 0 <= i < |steps| :: r[i] == steps[i].call
  {
    if steps == [] then [] else [steps[0].call] + Calls(steps[1..])
  }

  /** The error `List::append` reports for text holding a NUL byte, which
      cannot become a C string. */
  const NulError := CurlError({ConvFailed}, None, "Conversion failed")

  /** `curl::easy::List::append`: refuses a line holding a NUL byte. */
  function ListAppend(list: seq<Bytes>, line: Bytes): (r: Result<seq<Bytes>, CurlError>)
    ensures r.Success? <==> 0 !in line
    ensures r.Success? ==> r.value == list + [line]
  {
    if 0 in line then Failure(NulError) else Success(list + [line])
  }
}
