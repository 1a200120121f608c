/** The HTTP client (src/client.rs): the builder, the configuration of a
    curl easy handle for a request, and the send pipeline around it. The
    agent that runs transfers, the runtime's log level and the text of the
    default user agent are parameters. */
module Client {
  import opened Wrappers
  import opened Io
  import opened Http
  import Curl
  import Errors
  import opened Config
  import ResponseExt

  /** What `send_async_inner` can observe of a request body (`is_empty`,
      `len`); the bytes themselves go to the transfer handler, which is not
      part of this model. */
  datatype RequestBody = RequestBody(isEmpty: bool, length: Option<U64>)

  /** An `http::Request<Body>`. */
  datatype Request = Request(httpMethod: Method, uri: Uri, headers: HeaderMap, extensions: Extensions, body: RequestBody)

  /** A response body as the client hands it out: the reader of the
      transfer and the length it is marked with, if any. */
  datatype ResponseBody = ResponseBody(source: Source, length: Option<nat>)

  /** A middleware layer: its request filter and its response filter. */
  datatype Middleware = Middleware(
    filterRequest: Request -> Request,
    filterResponse: Response<ResponseBody> -> Response<ResponseBody>)

  /** The settings of the agent the client will spawn. */
  datatype AgentConfig = AgentConfig(maxConnections: nat, maxConnectionsPerHost: nat, connectionCacheSize: Option<nat>)

  datatype Builder = Builder(agent: AgentConfig, defaults: Extensions, middleware: seq<Middleware>)

  datatype HttpClient = HttpClient(agent: AgentConfig, defaults: Extensions, middleware: seq<Middleware>)

  /** `Authentication::default()`: the empty set of authentication
      methods, which erases curl's default of Basic. */
  const DEFAULT_AUTHENTICATION: Setting := Foreign(Curl.Authentication, "")

  /** `HttpClientBuilder::new`: default agent, no middleware, and as the
      only default the empty authentication set. */
  function NewBuilder(): (b: Builder)
    ensures b.defaults == map[ForeignType(Curl.Authentication) := DEFAULT_AUTHENTICATION]
    ensures b.middleware == [] && b.agent.connectionCacheSize.None?
  {
    Builder(AgentConfig(0, 0, None), map[ForeignType(Curl.Authentication) := DEFAULT_AUTHENTICATION], [])
  }

  /** The setters that store one client-wide default (`timeout`,
      `connect_timeout`, `redirect_policy`, `auto_referer`,
      `authentication`, `credentials`, `preferred_http_version`,
      `tcp_keepalive`, `tcp_nodelay`, `proxy`, `proxy_blacklist`,
      `proxy_authentication`, `proxy_credentials`, `max_upload_speed`,
      `max_download_speed`, `dns_cache`, `dns_servers`,
      `ssl_client_certificate`, `ssl_ca_certificate`, `ssl_ciphers`,
      `ssl_options`, `metrics`): the setting replaces the default of its
      type and nothing else changes. */
  function WithDefault(b: Builder, s: Setting): (r: Builder)
    ensures TypeOf(s) in r.defaults && r.defaults[TypeOf(s)] == s
    ensures forall k | k != TypeOf(s) :: (k in r.defaults <==> k in b.defaults)
                                         && (k in b.defaults ==> r.defaults[k] == b.defaults[k])
    ensures r.agent == b.agent && r.middleware == b.middleware
  {
    b.(defaults := Put(b.defaults, s))
  }

  /** `middleware_impl`: the new layer goes after the existing ones. */
  function WithMiddleware(b: Builder, m: Middleware): (r: Builder)
    ensures r.middleware == b.middleware + [m] && r.defaults == b.defaults && r.agent == b.agent
  {
    b.(middleware := b.middleware + [m])
  }

  /** `max_connections`: sets the agent's limit of open connections, and
      nothing else. */
  function MaxConnections(b: Builder, max: nat): (r: Builder)
    ensures r.agent.maxConnections == max && r.defaults == b.defaults && r.middleware == b.middleware
    ensures r.agent.maxConnectionsPerHost == b.agent.maxConnectionsPerHost
    ensures r.agent.connectionCacheSize == b.agent.connectionCacheSize
  {
    b.(agent := b.agent.(maxConnections := max))
  }

  /** `max_connections_per_host`: sets the agent's per-host limit, and
      nothing else. */
  function MaxConnectionsPerHost(b: Builder, max: nat): (r: Builder)
    ensures r.agent.maxConnectionsPerHost == max && r.defaults == b.defaults && r.middleware == b.middleware
    ensures r.agent.maxConnections == b.agent.maxConnections
    ensures r.agent.connectionCacheSize == b.agent.connectionCacheSize
  {
    b.(agent := b.agent.(maxConnectionsPerHost := max))
  }

  /** `connection_cache_size`: sizes the agent's cache, and a size of zero
      makes every request close its connection when done. */
  function ConnectionCacheSize(b: Builder, size: nat): (r: Builder)
    ensures r.agent.connectionCacheSize == Some(size)
    ensures r.agent.maxConnections == b.agent.maxConnections
    ensures r.agent.maxConnectionsPerHost == b.agent.maxConnectionsPerHost
    ensures CloseConnectionType in r.defaults && r.defaults[CloseConnectionType] == CloseConnection(size == 0)
    ensures forall k | k != CloseConnectionType :: (k in r.defaults <==> k in b.defaults)
                                                  && (k in b.defaults ==> r.defaults[k] == b.defaults[k])
    ensures r.middleware == b.middleware
  {
    b.(agent := b.agent.(connectionCacheSize := Some(size)), defaults := Put(b.defaults, CloseConnection(size == 0)))
  }

  /** `build`: spawning the agent can fail (`spawn` is its outcome); the
      client keeps the builder's defaults and middleware. */
  function Build(b: Builder, spawn: Outcome<Errors.Error>): (r: Result<HttpClient, Errors.Error>)
    ensures spawn.Fail? <==> r.Failure?
    ensures spawn.Fail? ==> r.error == spawn.error
    ensures r.Success? ==> r.value == HttpClient(b.agent, b.defaults, b.middleware)
  {
    if spawn.Fail? then Failure(spawn.error) else Success(HttpClient(b.agent, b.defaults, b.middleware))
  }

  /** The option types `create_easy_handle` applies, in the order it
      applies them. Version negotiation is not among them. */
  const OPTION_ORDER: seq<OptionType> := [
    TimeoutType, ConnectTimeoutType, TcpKeepAliveType, TcpNoDelayType,
    RedirectPolicyType, AutoRefererType,
    ForeignType(Curl.Authentication), ForeignType(Curl.Credentials),
    MaxUploadSpeedType, MaxDownloadSpeedType,
    ForeignType(Curl.PreferredHttpVersion),
    ProxyUriType, ProxyBlacklistType,
    ForeignType(Curl.ProxyAuthentication), ForeignType(Curl.ProxyCredentials),
    ForeignType(Curl.DnsCache), ForeignType(Curl.DnsServers),
    ForeignType(Curl.SslCiphers), ForeignType(Curl.ClientCertificate),
    ForeignType(Curl.CaCertificate), ForeignType(Curl.SslOptions),
    CloseConnectionType, EnableMetricsType ]

  /** The setting of one type that applies to a request: the request's own,
      else the client's default, else none. */
  function Effective(ext: Extensions, defaults: Extensions, k: OptionType): (r: Option<Setting>)
    ensures k in ext ==> r == Some(ext[k])
    ensures k !in ext && k in defaults ==> r == Some(defaults[k])
    ensures k !in ext && k !in defaults ==> r == None
    ensures r.Some? ==> TypeOf(r.value) == k
  {
    if k in ext then Some(ext[k]) else if k in defaults then Some(defaults[k]) else None
  }

  /** The setting of type `k` that applies, as a list of at most one. */
  function Pick(ext: Extensions, defaults: Extensions, k: OptionType): (r: seq<Setting>)
    ensures |r| <= 1 && (|r| == 1 <==> k in ext || k in defaults)
    ensures forall j | 0 <= j < |r| :: TypeOf(r[j]) == k
  {
    match Effective(ext, defaults, k)
    case Some(s) => [s]
    case None => []
  }

  /** The settings that apply to a request, type by type in `order`. */
  function Applied(order: seq<OptionType>, ext: Extensions, defaults: Extensions): (r: seq<Setting>)
    ensures forall j | 0 <= j < |r| :: TypeOf(r[j]) in order
  {
    if order == [] then [] else Pick(ext, defaults, order[0]) + Applied(order[1..], ext, defaults)
  }

  /** The handle calls of settings, one setting after the other. */
  function OptionSteps(settings: seq<Setting>): (r: seq<Curl.Step>)
    ensures (forall j | 0 <= j < |settings| :: !settings[j].Negotiation?) ==> forall i | 0 <= i < |r| :: !r[i].tolerant
  {
    if settings == [] then [] else SetOpt(settings[0]) + OptionSteps(settings[1..])
  }

  /** A setting in the request takes precedence over the client's default of
      the same type: changing that default changes nothing. */
  lemma {:induction false} RequestOverridesDefault(order: seq<OptionType>, ext: Extensions, defaults: Extensions, s: Setting)
    requires TypeOf(s) in ext
    ensures Applied(order, ext, Put(defaults, s)) == Applied(order, ext, defaults)
  {
    if order != [] {
      RequestOverridesDefault(order[1..], ext, defaults, s);
      assert Effective(ext, Put(defaults, s), order[0]) == Effective(ext, defaults, order[0]);
    }
  }

  /** The applied settings split around any position of the order. */
  lemma {:induction false} AppliedAt(order: seq<OptionType>, ext: Extensions, defaults: Extensions, i: nat)
    requires i < |order|
    ensures Applied(order, ext, defaults)
      == Applied(order[..i], ext, defaults) + Pick(ext, defaults, order[i]) + Applied(order[i + 1..], ext, defaults)
  {
    if i == 0 {
      assert order[..0] == [] && order[1..] == order[i + 1..];
    } else {
      var tail := order[1..];
      AppliedAt(tail, ext, defaults, i - 1);
      assert tail[..i - 1] == order[..i][1..] && tail[i - 1] == order[i] && tail[i..] == order[i + 1..];
      var head := Pick(ext, defaults, order[0]);
      var before := Applied(order[..i][1..], ext, defaults);
      var at := Pick(ext, defaults, order[i]);
      var after := Applied(order[i + 1..], ext, defaults);
      assert order[..i][0] == order[0];
      assert Applied(order[..i], ext, defaults) == head + before;
      assert Applied(order, ext, defaults) == head + (before + at + after);
      Regroup(head, before, at, after);
    }
  }

  lemma Regroup<T>(a: seq<T>, b: seq<T>, c: seq<T>, d: seq<T>)
    ensures a + (b + c + d) == (a + b) + c + d
  {
  }

  /** Without a request setting of its type, the client's default is what
      applies: the default `s` is applied at the place of its type, and the
      other settings are what they were. */
  lemma DefaultApplies(order: seq<OptionType>, ext: Extensions, defaults: Extensions, s: Setting, i: nat)
    requires TypeOf(s) !in ext
    requires i < |order| && order[i] == TypeOf(s)
    requires forall j | 0 <= j < |order| && j != i :: order[j] != TypeOf(s)
    ensures Applied(order, ext, Put(defaults, s))
      == Applied(order[..i], ext, defaults) + [s] + Applied(order[i + 1..], ext, defaults)
  {
    AppliedAt(order, ext, Put(defaults, s), i);
    var k := TypeOf(s);
    var prefix, suffix := order[..i], order[i + 1..];
    assert k !in prefix by {
      forall j | 0 <= j < |prefix| ensures prefix[j] != k {
        assert prefix[j] == order[j];
      }
    }
    assert k !in suffix by {
      forall j | 0 <= j < |suffix| ensures suffix[j] != k {
        assert suffix[j] == order[i + 1 + j];
      }
    }
    SettingsUnaffected(order[..i], ext, defaults, s);
    SettingsUnaffected(order[i + 1..], ext, defaults, s);
  }

  /** A setting whose type the order does not list has no effect, whether
      it sits in the request or among the defaults. */
  lemma SettingsUnaffected(order: seq<OptionType>, ext: Extensions, defaults: Extensions, s: Setting)
    requires TypeOf(s) !in order
    ensures Applied(order, ext, Put(defaults, s)) == Applied(order, ext, defaults)
    ensures Applied(order, Put(ext, s), defaults) == Applied(order, ext, defaults)
  {
    DefaultUnaffected(order, ext, defaults, s);
    RequestUnaffected(order, ext, defaults, s);
  }

  /** Storing a setting of another type changes nothing at type `k`. */
  lemma PickUnchanged(ext: Extensions, defaults: Extensions, s: Setting, k: OptionType)
    requires k != TypeOf(s)
    ensures Pick(ext, Put(defaults, s), k) == Pick(ext, defaults, k)
    ensures Pick(Put(ext, s), defaults, k) == Pick(ext, defaults, k)
  {
    assert Effective(ext, Put(defaults, s), k) == Effective(ext, defaults, k) by {
      assert k in Put(defaults, s) <==> k in defaults;
    }
    assert Effective(Put(ext, s), defaults, k) == Effective(ext, defaults, k) by {
      assert k in Put(ext, s) <==> k in ext;
    }
  }

  lemma {:induction false} DefaultUnaffected(order: seq<OptionType>, ext: Extensions, defaults: Extensions, s: Setting)
    requires TypeOf(s) !in order
    ensures Applied(order, ext, Put(defaults, s)) == Applied(order, ext, defaults)
  {
    if order != [] {
      assert TypeOf(s) !in order[1..] by {
        assert forall x | x in order[1..] :: x in order;
      }
      DefaultUnaffected(order[1..], ext, defaults, s);
      PickUnchanged(ext, defaults, s, order[0]);
    }
  }

  lemma {:induction false} RequestUnaffected(order: seq<OptionType>, ext: Extensions, defaults: Extensions, s: Setting)
    requires TypeOf(s) !in order
    ensures Applied(order, Put(ext, s), defaults) == Applied(order, ext, defaults)
  {
    if order != [] {
      assert TypeOf(s) !in order[1..] by {
        assert forall x | x in order[1..] :: x in order;
      }
      RequestUnaffected(order[1..], ext, defaults, s);
      PickUnchanged(ext, defaults, s, order[0]);
    }
  }

  /** A version negotiation strategy set on a request or as a default is not
      applied by this client. */
  lemma NegotiationIgnored(ext: Extensions, defaults: Extensions, v: VersionNegotiation)
    ensures Applied(OPTION_ORDER, Put(ext, Negotiation(v)), defaults) == Applied(OPTION_ORDER, ext, defaults)
    ensures Applied(OPTION_ORDER, ext, Put(defaults, Negotiation(v))) == Applied(OPTION_ORDER, ext, defaults)
  {
    SettingsUnaffected(OPTION_ORDER, ext, defaults, Negotiation(v));
  }

  /** Whether a call is among the calls of some steps. */
  predicate Makes(steps: seq<Curl.Step>, c: Curl.EasyCall) {
    exists i | 0 <= i < |steps| :: steps[i].call == c
  }

  /** The method table of `create_easy_handle`: the calls that select
      curl's mode for the request method, given whether there is a body. */
  function MethodSteps(m: Method, hasBody: bool): (r: seq<Curl.Step>)
    ensures 0 < |r| <= 3
    ensures forall i | 0 <= i < |r| :: !r[i].tolerant
  {
    if m == GET && !hasBody then
      [Curl.Strict(Curl.Get(true))]
    else if m == HEAD then
      [Curl.Strict(Curl.Upload(hasBody)), Curl.Strict(Curl.NoBody(true)), Curl.Strict(Curl.CustomRequest("HEAD"))]
    else if m == POST then
      [Curl.Strict(Curl.Post(true))]
    else if m == PUT then
      [Curl.Strict(Curl.Upload(true))]
    else
      [Curl.Strict(Curl.Upload(hasBody)), Curl.Strict(Curl.CustomRequest(MethodText(m)))]
  }

  /** What the method table means: curl's GET mode is used for a plain GET
      without a body, the no-body mode for HEAD, the POST mode for POST; the
      request uploads for PUT and for any other method with a body; and
      every method without a mode of its own (a GET with a body among them)
      is sent as a custom request named by the method. */
  lemma MethodTable(m: Method, hasBody: bool)
    ensures var r := MethodSteps(m, hasBody);
      && (Makes(r, Curl.Get(true)) <==> m == GET && !hasBody)
      && (Makes(r, Curl.NoBody(true)) <==> m == HEAD)
      && (Makes(r, Curl.Post(true)) <==> m == POST)
      && (Makes(r, Curl.Upload(true)) <==> m == PUT || (hasBody && m != POST))
      && (Makes(r, Curl.CustomRequest(MethodText(m))) <==> m != POST && m != PUT && !(m == GET && !hasBody))
      && (forall i | 0 <= i < |r| && r[i].call.CustomRequest? :: r[i].call.text == MethodText(m))
  {
    var r := MethodSteps(m, hasBody);
    if m == GET && !hasBody {
      assert r[0].call == Curl.Get(true);
    } else if m == HEAD {
      assert r[1].call == Curl.NoBody(true) && r[2].call == Curl.CustomRequest(MethodText(m));
      assert hasBody ==> r[0].call == Curl.Upload(true);
    } else if m == POST {
      assert r[0].call == Curl.Post(true);
    } else if m == PUT {
      assert r[0].call == Curl.Upload(true);
    } else {
      assert r[1].call == Curl.CustomRequest(MethodText(m));
      assert hasBody ==> r[0].call == Curl.Upload(true);
    }
  }

  const USER_AGENT_NAME: Bytes := [117, 115, 101, 114, 45, 97, 103, 101, 110, 116]

  const ACCEPT_ENCODING: Bytes := [97, 99, 99, 101, 112, 116, 45, 101, 110, 99, 111, 100, 105, 110, 103]

  const TRANSFER_ENCODING: Bytes := [116, 114, 97, 110, 115, 102, 101, 114, 45, 101, 110, 99, 111, 100, 105, 110, 103]

  const CHUNKED: Bytes := [99, 104, 117, 110, 107, 101, 100]

  /** The encodings given to curl: the request's own `Accept-Encoding` when
      it is visible ASCII, else the empty text, by which curl offers every
      encoding it supports. */
  function AcceptEncodingValue(headers: HeaderMap): (r: Bytes)
    ensures Get(headers, ACCEPT_ENCODING).None? ==> r == []
    ensures Get(headers, ACCEPT_ENCODING).Some? && ToStr(Get(headers, ACCEPT_ENCODING).value).Some?
            ==> r == Get(headers, ACCEPT_ENCODING).value
    ensures Get(headers, ACCEPT_ENCODING).Some? && ToStr(Get(headers, ACCEPT_ENCODING).value).None? ==> r == []
  {
    match Get(headers, ACCEPT_ENCODING)
    case None => []
    case Some(v) =>
      match ToStr(v)
      case None => []
      case Some(text) => text
  }

  /** The length curl is told for a request body: a `Content-Length`
      header that parses takes precedence over the length the body
      reports. */
  function BodyLength(headers: HeaderMap, body: RequestBody): (r: Option<nat>)
    ensures ResponseExt.ContentLength(headers).Some? ==> r == ResponseExt.ContentLength(headers)
    ensures ResponseExt.ContentLength(headers).None? ==> r == body.length
  {
    match ResponseExt.ContentLength(headers)
    case Some(n) => Some(n)
    case None => body.length
  }

  /** What the length handling of `create_easy_handle` does: the size calls
      it makes and the headers it leaves for the header list. */
  datatype LengthPlan = LengthPlan(steps: seq<Curl.Step>, headers: HeaderMap)

  /** A request with a body of known length tells curl that length (as the
      POST field size for POST, as the upload size otherwise); one of
      unknown length is sent chunked, replacing any `Transfer-Encoding`
      the request had; a request without a body is left alone. */
  function PlanLength(m: Method, headers: HeaderMap, body: RequestBody): (r: LengthPlan)
    ensures body.isEmpty ==> r == LengthPlan([], headers)
    ensures !body.isEmpty && BodyLength(headers, body).Some? ==>
      && r.headers == headers
      && r.steps == [Curl.Strict(if m == POST then Curl.PostFieldSize(BodyLength(headers, body).value)
                                 else Curl.InFileSize(BodyLength(headers, body).value))]
    ensures !body.isEmpty && BodyLength(headers, body).None? ==>
      && r.steps == []
      && Get(r.headers, TRANSFER_ENCODING) == Some(CHUNKED)
      && (forall i | 0 <= i < |r.headers| && r.headers[i].name == TRANSFER_ENCODING :: r.headers[i].values == [CHUNKED])
      && (forall e | e in headers && e.name != TRANSFER_ENCODING :: e in r.headers)
      && (forall e | e in r.headers && e.name != TRANSFER_ENCODING :: e in headers)
  {
    if body.isEmpty then LengthPlan([], headers)
    else
      match BodyLength(headers, body)
      case Some(len) =>
        LengthPlan([Curl.Strict(if m == POST then Curl.PostFieldSize(len) else Curl.InFileSize(len))], headers)
      case None =>
        var h := Insert(headers, TRANSFER_ENCODING, CHUNKED);
        ChunkedOnly(h);
        LengthPlan([], h)
  }

  /** In a valid map the key named `transfer-encoding` is unique, so the
      one holding `chunked` alone is the only one. */
  lemma ChunkedOnly(h: HeaderMap)
    requires exists i | 0 <= i < |h| :: h[i] == Entry(TRANSFER_ENCODING, [CHUNKED])
    ensures forall i | 0 <= i < |h| && h[i].name == TRANSFER_ENCODING :: h[i].values == [CHUNKED]
  {
  }

  /** The first calls `create_easy_handle` makes: debug logging as the
      runtime has it, and no signals. */
  function Setup(verbose: bool): (r: seq<Curl.Step>) {
    [Curl.Strict(Curl.Verbose(verbose)), Curl.Strict(Curl.Signal(false))]
  }

  /** The calls `create_easy_handle` makes for the request itself, in
      order: the options, the accepted encodings, the method, the URL, the
      body size, and the header list. */
  function RequestSteps(client: HttpClient, request: Request): (r: seq<Curl.Step>) {
    var lengths := PlanLength(request.httpMethod, request.headers, request.body);
    OptionSteps(Applied(OPTION_ORDER, request.extensions, client.defaults))
    + [Curl.Strict(Curl.AcceptEncoding(AcceptEncodingValue(request.headers)))]
    + MethodSteps(request.httpMethod, !request.body.isEmpty)
    + [Curl.Strict(Curl.Url(request.uri.text))]
    + lengths.steps
    + HeaderSetOpt(lengths.headers)
  }

  /** Every call `create_easy_handle` makes is made with `?`: the only
      setting applied leniently is the version negotiation, which is not
      among the options a request is configured with. */
  lemma HandleStrict(client: HttpClient, request: Request, verbose: bool)
    ensures Curl.AllStrict(Setup(verbose) + RequestSteps(client, request))
  {
    var lengths := PlanLength(request.httpMethod, request.headers, request.body);
    OptionsStrict(OPTION_ORDER, request.extensions, client.defaults);
    LengthsStrict(request.httpMethod, request.headers, request.body);
    StrictChain(Setup(verbose),
      OptionSteps(Applied(OPTION_ORDER, request.extensions, client.defaults)),
      [Curl.Strict(Curl.AcceptEncoding(AcceptEncodingValue(request.headers)))],
      MethodSteps(request.httpMethod, !request.body.isEmpty),
      [Curl.Strict(Curl.Url(request.uri.text))],
      lengths.steps,
      HeaderSetOpt(lengths.headers));
  }

  lemma StrictChain(a: seq<Curl.Step>, b: seq<Curl.Step>, c: seq<Curl.Step>, d: seq<Curl.Step>,
                    e: seq<Curl.Step>, f: seq<Curl.Step>, g: seq<Curl.Step>)
    requires Curl.AllStrict(a) && Curl.AllStrict(b) && Curl.AllStrict(c) && Curl.AllStrict(d)
    requires Curl.AllStrict(e) && Curl.AllStrict(f) && Curl.AllStrict(g)
    ensures Curl.AllStrict(a + (b + c + d + e + f + g))
  {
    Curl.StrictAppend(b, c);
    Curl.StrictAppend(b + c, d);
    Curl.StrictAppend(b + c + d, e);
    Curl.StrictAppend(b + c + d + e, f);
    Curl.StrictAppend(b + c + d + e + f, g);
    Curl.StrictAppend(a, b + c + d + e + f + g);
  }

  lemma {:induction false} OptionsStrict(order: seq<OptionType>, ext: Extensions, defaults: Extensions)
    requires VersionNegotiationType !in order
    ensures Curl.AllStrict(OptionSteps(Applied(order, ext, defaults)))
  {
    var settings := Applied(order, ext, defaults);
    forall j | 0 <= j < |settings| ensures !settings[j].Negotiation? {
      assert TypeOf(settings[j]) in order;
    }
  }

  lemma LengthsStrict(m: Method, headers: HeaderMap, body: RequestBody)
    ensures Curl.AllStrict(PlanLength(m, headers, body).steps)
  {
  }

  /** A configured handle, by the calls curl took. */
  datatype EasyHandle = EasyHandle(applied: seq<Curl.EasyCall>)

  /** `create_easy_handle`: makes the calls of the setup and of the request
      on a new handle; the first refusal of a call made with `?` ends the
      configuration with the converted curl error. */
  function CreateEasyHandle(client: HttpClient, request: Request, verbose: bool, refusals: Curl.Refusals)
    : (r: Result<EasyHandle, Errors.Error>)
    ensures var steps := Setup(verbose) + RequestSteps(client, request);
      && (r.Success? <==> forall i | 0 <= i < |steps| :: steps[i].call !in refusals)
      && (r.Success? ==> r.value.applied == Curl.Calls(steps))
  {
    var steps := Setup(verbose) + RequestSteps(client, request);
    var run := Curl.Execute(steps, refusals);
    HandleStrict(client, request, verbose);
    assert Curl.AllStrict(steps);
    if forall i | 0 <= i < |steps| :: steps[i].call !in refusals then
      Curl.ExecuteUnrefused(steps, refusals);
      Success(EasyHandle(run.applied))
    else
      Failure(Errors.FromCurl(run.failure.value))
  }

  /** With nothing refused, the handle is configured with every call, in
      order, starting with logging and signals. */
  lemma HandleAccepted(client: HttpClient, request: Request, verbose: bool)
    ensures var calls := Curl.Calls(Setup(verbose) + RequestSteps(client, request));
      && CreateEasyHandle(client, request, verbose, map[]) == Success(EasyHandle(calls))
      && calls[..2] == [Curl.Verbose(verbose), Curl.Signal(false)]
  {
    var steps := RequestSteps(client, request);
    SetupFirst(verbose, steps);
    Curl.ExecuteAccepted(Setup(verbose) + steps);
  }

  lemma SetupFirst(verbose: bool, steps: seq<Curl.Step>)
    ensures Curl.Calls(Setup(verbose) + steps)[..2] == [Curl.Verbose(verbose), Curl.Signal(false)]
  {
    var all := Setup(verbose) + steps;
    assert all[0] == Curl.Strict(Curl.Verbose(verbose)) && all[1] == Curl.Strict(Curl.Signal(false));
  }

  /** The first call made with `?` that curl refuses decides the error of
      `create_easy_handle`: it is that refusal's curl error, converted. */
  lemma HandleRefused(client: HttpClient, request: Request, verbose: bool, refusals: Curl.Refusals, j: nat)
    requires var steps := Setup(verbose) + RequestSteps(client, request);
      && j < |steps| && steps[j].call in refusals && !steps[j].tolerant
      && forall i | 0 <= i < j :: steps[i].call !in refusals || steps[i].tolerant
    ensures var steps := Setup(verbose) + RequestSteps(client, request);
      CreateEasyHandle(client, request, verbose, refusals) == Failure(Errors.FromCurl(refusals[steps[j].call]))
  {
    Curl.ExecuteRefused(Setup(verbose) + RequestSteps(client, request), refusals, j);
  }

  /** A setting carried by the request takes precedence over the client's
      default of the same type: whatever that default is, the handle gets
      the same calls. */
  lemma RequestPrecedence(client: HttpClient, request: Request, s: Setting)
    requires TypeOf(s) in request.extensions
    ensures RequestSteps(client.(defaults := Put(client.defaults, s)), request) == RequestSteps(client, request)
  {
    RequestOverridesDefault(OPTION_ORDER, request.extensions, client.defaults, s);
  }

  /** The request with the default user agent: a request that names its own
      user agent keeps it, any other gets `agent`. */
  function WithDefaultUserAgent(request: Request, agent: Bytes): (r: Request)
    requires ValidValue(agent)
    ensures Get(request.headers, USER_AGENT_NAME).Some? ==> r == request
    ensures Get(request.headers, USER_AGENT_NAME).None? ==>
      r == request.(headers := request.headers + [Entry(USER_AGENT_NAME, [agent])])
      && Get(r.headers, USER_AGENT_NAME) == Some(agent)
  {
    request.(headers := OrInsert(request.headers, USER_AGENT_NAME, agent))
  }

  /** The request filters: the layer added last sees the request first,
      and each earlier layer sees what the later ones made of it. */
  function FilterRequests(ms: seq<Middleware>, q: Request): Request {
    if ms == [] then q else ms[0].filterRequest(FilterRequests(ms[1..], q))
  }

  /** The response filters, in the order the layers were added: the first
      added sees the response first. */
  function FilterResponses(ms: seq<Middleware>, p: Response<ResponseBody>): Response<ResponseBody> {
    if ms == [] then p else FilterResponses(ms[1..], ms[0].filterResponse(p))
  }

  /** A layer added last is the outermost: its request filter runs first
      and its response filter last. */
  lemma {:induction false} NewestLayerOutermost(ms: seq<Middleware>, m: Middleware, q: Request, p: Response<ResponseBody>)
    ensures FilterRequests(ms + [m], q) == FilterRequests(ms, m.filterRequest(q))
    ensures FilterResponses(ms + [m], p) == m.filterResponse(FilterResponses(ms, p))
  {
    if ms != [] {
      assert (ms + [m])[1..] == ms[1..] + [m];
      NewestLayerOutermost(ms[1..], m, q, ms[0].filterResponse(p));
      NewestLayerOutermost(ms[1..], m, q, p);
    } else {
      assert [m][1..] == [];
    }
  }

  /** Applies the request middleware, starting with the outermost one. */
  method ApplyRequestMiddleware(ms: seq<Middleware>, request: Request) returns (r: Request)
    ensures r == FilterRequests(ms, request)
  {
    r := request;
    var i := |ms|;
    while i > 0
      invariant 0 <= i <= |ms|
      invariant r == FilterRequests(ms[i..], request)
    {
      i := i - 1;
      assert ms[i..][1..] == ms[i + 1..];
      r := ms[i].filterRequest(r);
    }
  }

  /** Applies the response middleware, starting with the innermost one. */
  method ApplyResponseMiddleware(ms: seq<Middleware>, response: Response<ResponseBody>) returns (r: Response<ResponseBody>)
    ensures r == FilterResponses(ms, response)
  {
    r := response;
    var i := 0;
    while i < |ms|
      invariant 0 <= i <= |ms|
      invariant FilterResponses(ms, response) == FilterResponses(ms[i..], r)
    {
      assert ms[i..][1..] == ms[i + 1..];
      r := ms[i].filterResponse(r);
      i := i + 1;
    }
    assert ms[i..] == [];
  }

  /** The response body: the transfer's reader, marked sized exactly when
      the response has a `Content-Length` that parses. */
  function WrapBody(response: Response<Source>): (r: Response<ResponseBody>)
    ensures r.body.length.Some? <==> ResponseExt.ContentLength(response.headers).Some?
    ensures r.body.length == ResponseExt.ContentLength(response.headers)
    ensures r.body.source == response.body
    ensures r.status == response.status && r.headers == response.headers && r.extensions == response.extensions
  {
    var len := ResponseExt.ContentLength(response.headers);
    Response(response.status, response.headers, response.extensions, ResponseBody(response.body, len))
  }

  /** What the world does with a request: the text of the default user
      agent, whether debug logging is on, which handle calls curl refuses,
      whether the agent takes the handle, and the response (or error) the
      transfer produces. */
  datatype World = World(
    userAgent: Bytes,
    verbose: bool,
    refusals: Curl.Refusals,
    submitted: Outcome<Errors.Error>,
    transfer: Result<Response<Source>, Errors.Error>)

  /** The request as it reaches `create_easy_handle`. */
  function Prepared(client: HttpClient, request: Request, world: World): Request
    requires ValidValue(world.userAgent)
  {
    FilterRequests(client.middleware, WithDefaultUserAgent(request, world.userAgent))
  }

  /** The result `send_async_inner` gives: the first failure among handle
      configuration, submission and transfer, or the transfer's response
      with its body marked and the response middleware applied. */
  function Sent(client: HttpClient, request: Request, world: World): (r: Result<Response<ResponseBody>, Errors.Error>)
    requires ValidValue(world.userAgent)
    ensures r.Success? <==>
      && CreateEasyHandle(client, Prepared(client, request, world), world.verbose, world.refusals).Success?
      && world.submitted.Pass? && world.transfer.Success?
    ensures world.transfer.Success? && r.Success? ==>
      r.value == FilterResponses(client.middleware, WrapBody(world.transfer.value))
  {
    match CreateEasyHandle(client, Prepared(client, request, world), world.verbose, world.refusals)
    case Failure(e) => Failure(e)
    case Success(_) =>
      if world.submitted.Fail? then Failure(world.submitted.error)
      else
        match world.transfer
        case Failure(e) => Failure(e)
        case Success(response) => Success(FilterResponses(client.middleware, WrapBody(response)))
  }

  /** `send_async_inner`. */
  method SendAsyncInner(client: HttpClient, request: Request, world: World)
    returns (r: Result<Response<ResponseBody>, Errors.Error>)
    requires ValidValue(world.userAgent)
    ensures r == Sent(client, request, world)
  {
    var q := WithDefaultUserAgent(request, world.userAgent);
    q := ApplyRequestMiddleware(client.middleware, q);
    var easy := CreateEasyHandle(client, q, world.verbose, world.refusals);
    if easy.Failure? {
      return Failure(easy.error);
    }
    if world.submitted.Fail? {
      return Failure(world.submitted.error);
    }
    if world.transfer.Failure? {
      return Failure(world.transfer.error);
    }
    var response := WrapBody(world.transfer.value);
    var filtered := ApplyResponseMiddleware(client.middleware, response);
    return Success(filtered);
  }

  /** Without middleware, a successful response is the transfer's own, with
      a body that is sized exactly when `Content-Length` parses, to that
      length. */
  lemma SizedBody(client: HttpClient, request: Request, world: World)
    requires ValidValue(world.userAgent)
    requires client.middleware == []
    requires Sent(client, request, world).Success?
    ensures world.transfer.Success?
    ensures Sent(client, request, world).value.body
      == ResponseBody(world.transfer.value.body, ResponseExt.ContentLength(world.transfer.value.headers))
  {
  }

  /** A handle that cannot be configured fails the request with the
      converted curl error of the first refused call, whatever the agent and
      the transfer would have done. */
  lemma ConfigurationFailureWins(client: HttpClient, request: Request, world: World,
                                 submitted: Outcome<Errors.Error>, transfer: Result<Response<Source>, Errors.Error>)
    requires ValidValue(world.userAgent)
    requires CreateEasyHandle(client, Prepared(client, request, world), world.verbose, world.refusals).Failure?
    ensures Sent(client, request, world) == Sent(client, request, world.(submitted := submitted, transfer := transfer))
  {
  }
}
