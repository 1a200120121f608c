/** Configuration options and how each is applied to a curl easy handle
    (src/config/mod.rs). Applying an option is a list of handle calls; see
    `Curl.Execute` for what refusals do to such a list. */
module Config {
  import opened Wrappers
  import opened Io
  import opened Http
  import Curl

  type U32 = n: nat | n < 0x1_0000_0000

  type U64 = n: nat | n < U64_LIMIT

  /** How redirect responses are treated. */
  datatype RedirectPolicy = NoFollow | Follow | Limit(max: U32)

  /** `RedirectPolicy::default()`: redirects are not followed. */
  const DEFAULT_REDIRECT_POLICY: RedirectPolicy := NoFollow

  /** A strategy for the HTTP version: the version flag handed to curl and
      whether curl's refusal of that flag fails the request. */
  datatype VersionNegotiation = VersionNegotiation(flag: Curl.HttpVersion, strict: bool)

  /** `VersionNegotiation::latest_compatible()`, which is also the default:
      ask for HTTP/2 and carry on with what curl supports when it refuses. */
  const LATEST_COMPATIBLE: VersionNegotiation := VersionNegotiation(Curl.V2, false)

  /** `VersionNegotiation::http10()`. */
  const HTTP10: VersionNegotiation := VersionNegotiation(Curl.V10, true)

  /** `VersionNegotiation::http11()`. */
  const HTTP11: VersionNegotiation := VersionNegotiation(Curl.V11, true)

  /** `VersionNegotiation::http2()`: HTTP/2 with prior knowledge. */
  const HTTP2: VersionNegotiation := VersionNegotiation(Curl.V2PriorKnowledge, true)

  const DEFAULT_VERSION_NEGOTIATION: VersionNegotiation := LATEST_COMPATIBLE

  /** One configuration value, as stored in the extensions of a request or
      among a client's defaults. Durations are opaque numbers. The options
      `Foreign` stands for are applied by code that is not part of this
      model. */
  datatype Setting =
    | Timeout(duration: nat)
    | ConnectTimeout(duration: nat)
    | TcpKeepAlive(interval: nat)
    | TcpNoDelay
    | Redirect(policy: RedirectPolicy)
    | AutoReferer
    | MaxUploadSpeed(rate: U64)
    | MaxDownloadSpeed(rate: U64)
    | ProxyUri(uri: Option<Uri>)
    | ProxyBlacklist(skip: string)
    | CloseConnection(close: bool)
    | EnableMetrics(enable: bool)
    | Negotiation(negotiation: VersionNegotiation)
    | Foreign(option: Curl.ForeignOption, setting: string)

  /** The type of a setting, by which extensions and defaults are keyed:
      there is at most one value per type. */
  datatype OptionType =
    | TimeoutType | ConnectTimeoutType | TcpKeepAliveType | TcpNoDelayType
    | RedirectPolicyType | AutoRefererType | MaxUploadSpeedType | MaxDownloadSpeedType
    | ProxyUriType | ProxyBlacklistType | CloseConnectionType | EnableMetricsType
    | VersionNegotiationType | ForeignType(option: Curl.ForeignOption)

  function TypeOf(s: Setting): OptionType {
    match s
    case Timeout(_) => TimeoutType
    case ConnectTimeout(_) => ConnectTimeoutType
    case TcpKeepAlive(_) => TcpKeepAliveType
    case TcpNoDelay => TcpNoDelayType
    case Redirect(_) => RedirectPolicyType
    case AutoReferer => AutoRefererType
    case MaxUploadSpeed(_) => MaxUploadSpeedType
    case MaxDownloadSpeed(_) => MaxDownloadSpeedType
    case ProxyUri(_) => ProxyUriType
    case ProxyBlacklist(_) => ProxyBlacklistType
    case CloseConnection(_) => CloseConnectionType
    case EnableMetrics(_) => EnableMetricsType
    case Negotiation(_) => VersionNegotiationType
    case Foreign(o, _) => ForeignType(o)
  }

  /** A type map: each stored setting under its own type. */
  type Extensions = m: map<OptionType, Setting> | forall k | k in m :: TypeOf(m[k]) == k witness map[]

  /** `extensions.insert(value)`: replaces the value of the same type. */
  function Put(m: Extensions, s: Setting): (r: Extensions)
    ensures TypeOf(s) in r && r[TypeOf(s)] == s
    ensures forall k | k != TypeOf(s) :: (k in r <==> k in m) && (k in m ==> r[k] == m[k])
  {
    m[TypeOf(s) := s]
  }

  /** `SetOpt::set_opt`: the handle calls each setting makes, in order. All
      are made with `?`, except the version flag of a lenient negotiation,
      whose refusal is only logged. */
  function SetOpt(s: Setting): (r: seq<Curl.Step>)
    ensures |r| > 0
    ensures forall i | 0 <= i < |r| :: r[i].tolerant <==> s.Negotiation? && !s.negotiation.strict
  {
    match s
    case Timeout(d) => [Curl.Strict(Curl.Timeout(d))]
    case ConnectTimeout(d) => [Curl.Strict(Curl.ConnectTimeout(d))]
    case TcpKeepAlive(d) => [Curl.Strict(Curl.TcpKeepalive(true)), Curl.Strict(Curl.TcpKeepIntvl(d))]
    case TcpNoDelay => [Curl.Strict(Curl.TcpNodelay(true))]
    case Redirect(p) =>
      (match p
       case Follow => [Curl.Strict(Curl.FollowLocation(true))]
       case Limit(n) => [Curl.Strict(Curl.FollowLocation(true)), Curl.Strict(Curl.MaxRedirections(n))]
       case NoFollow => [Curl.Strict(Curl.FollowLocation(false))])
    case AutoReferer => [Curl.Strict(Curl.AutoReferer(true))]
    case MaxUploadSpeed(n) => [Curl.Strict(Curl.MaxSendSpeed(n))]
    case MaxDownloadSpeed(n) => [Curl.Strict(Curl.MaxRecvSpeed(n))]
    case ProxyUri(u) =>
      (match u
       case Some(uri) => [Curl.Strict(Curl.Proxy(uri.text))]
       case None => [Curl.Strict(Curl.Proxy(""))])
    case ProxyBlacklist(skip) => [Curl.Strict(Curl.NoProxy(skip))]
    case CloseConnection(b) => [Curl.Strict(Curl.ForbidReuse(b))]
    case EnableMetrics(b) => [Curl.Strict(Curl.Progress(b))]
    case Negotiation(v) => [Curl.Step(Curl.SetHttpVersion(v.flag), !v.strict)]
    case Foreign(o, t) => [Curl.Strict(Curl.ForeignSetting(o, t))]
  }

  /** A redirect policy turns following on exactly when it is not
      `NoFollow`, and sets a redirect limit exactly when it is `Limit(n)`,
      after following has been turned on. */
  lemma RedirectPolicyApplied(p: RedirectPolicy)
    ensures var calls := Curl.Execute(SetOpt(Redirect(p)), map[]).applied;
      && (Curl.FollowLocation(true) in calls <==> p != NoFollow)
      && (Curl.FollowLocation(false) in calls <==> p == NoFollow)
      && ((exists i | 0 <= i < |calls| :: calls[i].MaxRedirections?) <==> p.Limit?)
      && (p.Limit? ==> calls == [Curl.FollowLocation(true), Curl.MaxRedirections(p.max)])
  {
    var steps := SetOpt(Redirect(p));
    Curl.ExecuteAccepted(steps);
    var calls := Curl.Calls(steps);
    match p
    case NoFollow =>
      assert calls == [Curl.FollowLocation(false)];
    case Follow =>
      assert calls == [Curl.FollowLocation(true)];
    case Limit(n) =>
      assert calls == [Curl.FollowLocation(true), Curl.MaxRedirections(n)];
      assert calls[1].MaxRedirections?;
  }

  /** By default redirects are not followed: applying the default policy
      turns following off and sets no limit. */
  lemma DefaultRedirectPolicy()
    ensures DEFAULT_REDIRECT_POLICY == NoFollow
    ensures Curl.Execute(SetOpt(Redirect(DEFAULT_REDIRECT_POLICY)), map[]).applied == [Curl.FollowLocation(false)]
  {
    RedirectPolicyApplied(DEFAULT_REDIRECT_POLICY);
  }

  /** When curl refuses to follow redirects, a limit of redirects is never
      set and applying the policy fails with curl's error. */
  lemma RedirectLimitNeedsFollow(n: U32, refusals: Curl.Refusals)
    requires Curl.FollowLocation(true) in refusals
    ensures Curl.Execute(SetOpt(Redirect(Limit(n))), refusals)
      == Curl.Run([], Some(refusals[Curl.FollowLocation(true)]))
  {
  }

  /** Keep-alive is switched on before its interval is set; if curl refuses
      to switch it on, the interval is never set. */
  lemma TcpKeepAliveApplied(d: nat, refusals: Curl.Refusals)
    ensures Curl.Execute(SetOpt(TcpKeepAlive(d)), map[]).applied
      == [Curl.TcpKeepalive(true), Curl.TcpKeepIntvl(d)]
    ensures Curl.TcpKeepalive(true) in refusals ==>
      Curl.Execute(SetOpt(TcpKeepAlive(d)), refusals).applied == []
  {
  }

  /** A strict version strategy fails exactly when curl refuses its flag; a
      lenient one never fails and then leaves the version alone. */
  lemma NegotiationOutcome(v: VersionNegotiation, refusals: Curl.Refusals)
    ensures var run := Curl.Execute(SetOpt(Negotiation(v)), refusals);
      && (run.failure.Some? <==> v.strict && Curl.SetHttpVersion(v.flag) in refusals)
      && (run.failure.None? ==>
            run.applied == if Curl.SetHttpVersion(v.flag) in refusals then [] else [Curl.SetHttpVersion(v.flag)])
  {
  }

  /** Of the predefined strategies only the default one is lenient, and
      `http2()` asks for HTTP/2 with prior knowledge rather than an upgrade. */
  lemma NegotiationStrategies()
    ensures !DEFAULT_VERSION_NEGOTIATION.strict && DEFAULT_VERSION_NEGOTIATION.flag == Curl.V2
    ensures DEFAULT_VERSION_NEGOTIATION == LATEST_COMPATIBLE
    ensures HTTP10.strict && HTTP11.strict && HTTP2.strict
    ensures HTTP10.flag == Curl.V10 && HTTP11.flag == Curl.V11 && HTTP2.flag == Curl.V2PriorKnowledge
    ensures HTTP2.flag != LATEST_COMPATIBLE.flag
  {
  }

  /** A proxy URI is handed to curl as its text, and no proxy is configured
      by clearing curl's proxy with an empty text. */
  lemma ProxyApplied(u: Option<Uri>)
    ensures SetOpt(ProxyUri(u)) == [Curl.Strict(Curl.Proxy(if u.Some? then u.value.text else ""))]
    ensures u.None? ==> Curl.Execute(SetOpt(ProxyUri(u)), map[]).applied == [Curl.Proxy("")]
  {
  }

  /** A blacklist built from host names hands curl one no-proxy list: the
      hosts joined by commas. */
  lemma BlacklistApplied(hosts: seq<string>)
    ensures SetOpt(FromHosts(hosts)) == [Curl.Strict(Curl.NoProxy(Join(hosts)))]
    ensures Curl.Execute(SetOpt(FromHosts(hosts)), map[]).applied == [Curl.NoProxy(Join(hosts))]
  {
  }

  /** The host names of a proxy blacklist joined by commas. */
  function Join(hosts: seq<string>): (r: string)
    ensures hosts == [] ==> r == ""
    ensures |hosts| == 1 ==> r == hosts[0]
  {
    if hosts == [] then ""
    else if |hosts| == 1 then hosts[0]
    else hosts[0] + "," + Join(hosts[1..])
  }

  /** `ProxyBlacklist::from_iter`. */
  function FromHosts(hosts: seq<string>): (r: Setting)
    ensures r.ProxyBlacklist? && r.skip == Join(hosts)
    ensures |hosts| > 0 && (forall i | 0 <= i < |hosts| :: NoComma(hosts[i])) ==> Split(r.skip) == hosts
  {
    assert |hosts| > 0 && (forall i | 0 <= i < |hosts| :: NoComma(hosts[i])) ==> Split(Join(hosts)) == hosts by {
      if |hosts| > 0 && (forall i | 0 <= i < |hosts| :: NoComma(hosts[i])) {
        SplitJoin(hosts);
      }
    }
    ProxyBlacklist(Join(hosts))
  }

  /** How curl reads a no-proxy list: the pieces between commas. */
  function Split(s: string): (r: seq<string>)
    ensures |r| > 0
  {
    if s == [] then [""]
    else
      var rest := Split(s[1..]);
      if s[0] == ',' then [""] + rest else [[s[0]] + rest[0]] + rest[1..]
  }

  predicate NoComma(h: string) {
    forall i | 0 <= i < |h| :: h[i] != ','
  }

  /** A non-empty blacklist of host names without commas is read back by
      curl as exactly those host names, in order. */
  lemma {:induction false} SplitJoin(hosts: seq<string>)
    requires |hosts| > 0
    requires forall i | 0 <= i < |hosts| :: NoComma(hosts[i])
    ensures Split(Join(hosts)) == hosts
  {
    if |hosts| == 1 {
      SplitPiece(hosts[0], []);
      assert hosts[0] + [] == hosts[0];
    } else {
      var rest := Join(hosts[1..]);
      SplitJoin(hosts[1..]);
      assert Join(hosts) == hosts[0] + ("," + rest);
      SplitPiece(hosts[0], "," + rest);
      assert ("," + rest)[1..] == rest;
      assert hosts == [hosts[0]] + hosts[1..];
    }
  }

  /** A piece without commas, in front of a comma or at the end of the
      text, is read as one host name followed by the pieces after the
      comma. */
  lemma {:induction false} SplitPiece(h: string, tail: string)
    requires NoComma(h)
    requires tail == [] || tail[0] == ','
    ensures Split(h + tail) == [h] + (if tail == [] then [] else Split(tail[1..]))
  {
    if h == [] {
      assert h + tail == tail;
    } else {
      assert NoComma(h[1..]) by {
        forall i | 0 <= i < |h[1..]| ensures h[1..][i] != ',' {
          assert h[1..][i] == h[i + 1];
        }
      }
      SplitPiece(h[1..], tail);
      SplitStep(h, tail, if tail == [] then [] else Split(tail[1..]));
    }
  }

  /** One character that is not a comma joins the first piece of the rest. */
  lemma SplitStep(h: string, tail: string, after: seq<string>)
    requires h != [] && h[0] != ','
    requires Split(h[1..] + tail) == [h[1..]] + after
    ensures Split(h + tail) == [h] + after
  {
    assert (h + tail)[1..] == h[1..] + tail;
    assert (h + tail)[0] == h[0];
    assert [h[0]] + h[1..] == h;
  }

  /** The text `name: value` of one header line. */
  function HeaderLine(name: Bytes, value: Bytes): (r: Bytes)
    ensures |r| == |name| + 2 + |value|
    ensures r[..|name|] == name && r[|name|..|name| + 2] == [58, 32] && r[|name| + 2..] == value
  {
    name + [58, 32] + value
  }

  /** The header lines for a sequence of name-value pairs, in order. */
  function HeaderLines(pairs: seq<(Bytes, Bytes)>): (r: seq<Bytes>)
    ensures |r| == |pairs|
    ensures forall i | 0 <= i < |pairs| :: r[i] == HeaderLine(pairs[i].0, pairs[i].1)
  {
    if pairs == [] then [] else [HeaderLine(pairs[0].0, pairs[0].1)] + HeaderLines(pairs[1..])
  }

  /** Every pair a header map yields has a valid name and a valid value. */
  lemma {:induction false} PairsValid(m: seq<Entry>)
    requires ValidMap(m)
    ensures forall i | 0 <= i < |Pairs(m)| :: ValidName(Pairs(m)[i].0) && ValidValue(Pairs(m)[i].1)
  {
    if m != [] {
      assert ValidMap(m[1..]);
      PairsValid(m[1..]);
      EntryPairsValid(m[0].name, m[0].values);
    }
  }

  lemma {:induction false} EntryPairsValid(name: Bytes, values: seq<Bytes>)
    requires ValidName(name) && forall j | 0 <= j < |values| :: ValidValue(values[j])
    ensures |EntryPairs(name, values)| == |values|
    ensures forall i | 0 <= i < |values| :: EntryPairs(name, values)[i] == (name, values[i])
  {
    if values != [] {
      EntryPairsValid(name, values[1..]);
    }
  }

  /** No header line of a valid map holds a NUL byte, so curl's list takes
      every one of them. */
  lemma HeaderLinesHaveNoNul(m: HeaderMap)
    ensures forall i | 0 <= i < |Pairs(m)| :: 0 !in HeaderLine(Pairs(m)[i].0, Pairs(m)[i].1)
  {
    PairsValid(m);
    forall i | 0 <= i < |Pairs(m)| ensures 0 !in HeaderLine(Pairs(m)[i].0, Pairs(m)[i].1) {
      var (n, v) := Pairs(m)[i];
      var line := HeaderLine(n, v);
      forall k | 0 <= k < |line| ensures line[k] != 0 {
        if k < |n| {
          assert line[k] == n[k];
        } else if k >= |n| + 2 {
          assert line[k] == v[k - |n| - 2];
        }
      }
    }
  }

  /** `HeaderMap::set_opt` as written: a value that is not all visible
      ASCII makes `to_str().unwrap()` panic (`None`). */
  function HeaderListAsWritten(m: HeaderMap): (r: Option<seq<Bytes>>)
    ensures r.None? <==> exists i | 0 <= i < |Pairs(m)| :: ToStr(Pairs(m)[i].1).None?
    ensures r.Some? ==> r.value == HeaderLines(Pairs(m))
  {
    if forall i | 0 <= i < |Pairs(m)| :: ToStr(Pairs(m)[i].1).Some? then Some(HeaderLines(Pairs(m)))
    else
      assert exists i | 0 <= i < |Pairs(m)| :: ToStr(Pairs(m)[i].1).None? by {
        var i :| 0 <= i < |Pairs(m)| && !ToStr(Pairs(m)[i].1).Some?;
        assert ToStr(Pairs(m)[i].1).None?;
      }
      None
  }

  /** A header map holding a valid obs-text value makes the as-written list
      builder panic. */
  lemma HeaderListPanics()
    ensures var m: HeaderMap := [Entry([120], [[0xE9]])];
      HeaderListAsWritten(m).None?
  {
    var m: HeaderMap := [Entry([120], [[0xE9]])];
    assert Pairs(m) == [([120], [0xE9])];
    assert !IsVisibleAscii(Pairs(m)[0].1[0]);
    assert ToStr(Pairs(m)[0].1).None?;
  }

  /** The header list, built by appending one line per pair with
      `List::append` and `?`: every pair of the map becomes a line, in
      iteration order, and the build never fails. */
  method BuildHeaderList(m: HeaderMap) returns (r: Result<seq<Bytes>, Curl.CurlError>)
    ensures r == Success(HeaderLines(Pairs(m)))
  {
    var pairs := Pairs(m);
    HeaderLinesHaveNoNul(m);
    var list: seq<Bytes> := [];
    var i := 0;
    while i < |pairs|
      invariant 0 <= i <= |pairs|
      invariant list == HeaderLines(pairs[..i])
    {
      var line := HeaderLine(pairs[i].0, pairs[i].1);
      match Curl.ListAppend(list, line)
      case Failure(_) =>
        assert false;
      case Success(extended) =>
        list := extended;
      assert pairs[..i + 1] == pairs[..i] + [pairs[i]];
      HeaderLinesSnoc(pairs[..i], pairs[i]);
      i := i + 1;
    }
    assert pairs[..i] == pairs;
    return Success(list);
  }

  lemma {:induction false} HeaderLinesSnoc(pairs: seq<(Bytes, Bytes)>, p: (Bytes, Bytes))
    ensures HeaderLines(pairs + [p]) == HeaderLines(pairs) + [HeaderLine(p.0, p.1)]
  {
  }

  /** The handle calls of `HeaderMap::set_opt` (corrected): hand curl the
      list of every header line. */
  function HeaderSetOpt(m: HeaderMap): (r: seq<Curl.Step>)
    ensures |r| == 1 && !r[0].tolerant && r[0].call.HttpHeaders?
    ensures r[0].call.lines == HeaderLines(Pairs(m))
    ensures |r[0].call.lines| == |Pairs(m)|
  {
    [Curl.Strict(Curl.HttpHeaders(HeaderLines(Pairs(m))))]
  }
}
