# A model of the isahc (chttp) HTTP client core

isahc is a Rust HTTP client built on libcurl. This project models its
deterministic core in Dafny and proves properties of that model:

- how a request and the client's defaults become the configuration calls on a
  curl easy handle (`src/client.rs`);
- how each configuration option is encoded as curl calls (`src/config/mod.rs`);
- the client's error type and its conversions (`src/error.rs`);
- the synchronous request body and the writer that copies it into a pipe
  (`src/body/sync.rs`);
- the interceptor chain dispatch (`src/interceptor/context.rs`);
- the response extension helpers (`src/response.rs`).

Modules:

| module | file | what it holds |
|---|---|---|
| `Wrappers` | wrappers.dfy | `Option`, `Result`, `Outcome` (a result without a value) |
| `Io` | io.dfy | bytes, `std::io` error kinds, a reader as the script of answers it gives (`Source`), one `read` call, and the copy loop `Drain` shared by `io::copy`, `read_to_end` and the body writer, with its buffer-free reference `Delivered` |
| `Http` | http.dfy | the `http` crate types used: header maps (insertion-ordered, one or more values per lower-case name), `HeaderValue::to_str`, `str::parse::<u64>`, methods, URIs, responses |
| `Curl` | curl.dfy | a curl error as the set of conditions it satisfies, the easy-handle calls the client makes, and `Execute`, which runs a list of calls against a curl build that refuses some of them |
| `Errors` | errors.dfy | `src/error.rs` |
| `Config` | config.dfy | `src/config/mod.rs` |
| `SyncBody` | sync_body.dfy | `src/body/sync.rs`: the classes `Body` and `Writer` |
| `Interceptor` | context.dfy | `src/interceptor/context.rs` |
| `ResponseExt` | response.dfy | `src/response.rs` |
| `Client` | client.dfy | `src/client.rs` |

The curl library is not modelled: every call the client makes on an easy
handle is a value of `Curl.EasyCall`, and a curl build is described by the
calls it refuses and the error each refusal gives (`Curl.Refusals`). A call
made with `?` is a strict step; the one call whose refusal is only logged
(the version flag of a lenient negotiation) is a tolerant step. A reader is
described by the finite script of answers it will give, so a copy loop is a
function of that script, and the properties of the loops hold for every reader
that stops after finitely many answers.

`create_easy_handle` has no loop of its own: it is a fixed sequence of calls,
each with `?`. It is modelled as the function `Client.CreateEasyHandle` over
the list of steps it makes. The loops of the source (`HeaderMap::set_opt`,
the middleware loops of `send_async_inner`, `Writer::write` and the read
loops of `io::copy`/`read_to_end` behind `copy_to`, `consume` and `bytes`)
are methods with loop invariants, proved against specification functions.

Where `src/client.rs` and `src/config/mod.rs` disagree, the model follows
`src/client.rs`: its list of options applied to a handle
(`src/client.rs:996-1024`) has no `VersionNegotiation`, so a version
negotiation strategy stored on a request or as a default is never applied.
`Client.NegotiationIgnored` states this; `Config.NegotiationOutcome` states
what applying one would do.

## Model

| member | source | states |
|---|---|---|
| Errors.Description | src/error.rs:67-94 | a payload-free variant is described by the fallback "unknown error" exactly when it is `Canceled`; a detail-carrying variant is described by its detail, or by the fallback without one; the per-variant texts are stated by `Errors.DescriptionFallback` and `Errors.FixedDescriptions` |
| Errors.DescriptionFallback | src/error.rs:67-94 | `Canceled` and a detail-carrying variant without its detail are described as "unknown error"; a variant carrying a detail, a curl message, an HTTP error or an I/O error is described by the text it carries |
| Errors.FixedDescriptions | src/error.rs:67-94 | every payload-free variant except `Canceled` has a text of its own, longer than the fallback |
| Errors.Cause | src/error.rs:96-102 | there is a cause exactly for `InvalidHttpFormat` and `Io`, and it is the wrapped error |
| Errors.FromCurl | src/error.rs:105-138 | the result is `Curl` exactly when the error satisfies none of curl's predicates, and then keeps curl's description; every detail-carrying result holds curl's extra description; which row decides is stated by `Errors.FromCurlIsFirstMatch` |
| Errors.FromCurlIsFirstMatch | src/error.rs:105-138 | the if-chain of `From<curl::Error>` equals a first-match search over the table of its rows, ending with `Curl(description)` when no row matches |
| Errors.FromCurlLaterRows | src/error.rs:121-136 | for an error that none of the certificate, connection, resolution, content-encoding and login tests match, the first match among the later tests (nothing received, range, body errors, SSL connect, SSL engine, timeout) decides, else `Curl` of curl's description |
| Errors.CertificateBeatsTimeout | src/error.rs:107-108 | an error that is both a certificate problem and a timeout becomes `BadClientCertificate` with curl's extra description |
| Errors.TransferErrors | src/error.rs:125-136 | read error and aborted-by-callback give `RequestBodyError`, write error and partial file give `ResponseBodyError`, both with the extra description; a timeout gives `Timeout`; a body failure wins over a timeout; an error with no condition gives `Curl` of curl's description |
| Errors.FromIo | src/error.rs:153-161 | a refused connection becomes `ConnectFailed`, a timeout `Timeout`, and exactly the other kinds stay a wrapped `Io` error |
| Errors.ToIo | src/error.rs:163-172 | `ConnectFailed` becomes a refused connection, `Timeout` a timed-out error, `Io(e)` gives back `e`, and every other variant an error of kind `Other` |
| Errors.ErrorRoundTrip | src/error.rs:153-172 | converting to an I/O error and back is the identity exactly for `ConnectFailed`, `Timeout` and `Io` errors of the other kinds; every other variant comes back as `Io` of kind `Other` |
| Errors.IoRoundTrip | src/error.rs:153-172 | converting an I/O error in and out keeps its kind, and keeps the whole error for the kinds without a variant of their own |
| Errors.FromMulti | src/error.rs:141-145 | a multi-handle error becomes a `Curl` error described by the multi error's text |
| Errors.FromHttp | src/error.rs:147-151 | an `http::Error` becomes `InvalidHttpFormat`, whose cause is that error |
| Errors.FromUtf8 | src/error.rs:174-178 | every UTF-8 decoding failure, wherever it occurs, is `InvalidUtf8` |
| Errors.FromJson | src/error.rs:180-189 | a JSON error is `InvalidUtf8` exactly when it is a UTF-8 failure, and `InvalidJson` otherwise |
| Config.Put | src/client.rs:163-167 | storing a setting in a type map replaces the value of its type and leaves every other type's entry as it was (present or absent) |
| Config.SetOpt | src/config/mod.rs:513-690 | every option makes at least one handle call, and a call's refusal is tolerated exactly for the version flag of a lenient negotiation |
| Config.DefaultRedirectPolicy | src/config/mod.rs:543-547 | the default policy is not to follow redirects, and applying it only turns following off |
| Config.RedirectPolicyApplied | src/config/mod.rs:549-566 | following is turned on exactly for `Follow` and `Limit`, turned off exactly for `None`, and a redirect maximum is set exactly for `Limit(n)`, to `n`, after following is on |
| Config.RedirectLimitNeedsFollow | src/config/mod.rs:555-558 | if curl refuses to follow redirects, applying `Limit(n)` fails with that refusal and sets no maximum |
| Config.TcpKeepAliveApplied | src/config/mod.rs:589-594 | keep-alive is turned on, then its interval set to the given duration; if turning it on is refused, no interval is set |
| Config.NegotiationOutcome | src/config/mod.rs:513-526 | a strict strategy fails exactly when curl refuses its version flag; a lenient one never fails and leaves the version unset when refused |
| Config.NegotiationStrategies | src/config/mod.rs:449-501 | the default is `latest_compatible` (HTTP/2 flag, lenient); `http10`, `http11` and `http2` are strict and ask for HTTP/1.0, HTTP/1.1 and HTTP/2 with prior knowledge |
| Config.ProxyApplied | src/config/mod.rs:638-645 | a proxy URI is handed to curl as its text with one strict call; no proxy sets curl's proxy to the empty text |
| Config.BlacklistApplied | src/config/mod.rs:666-670 | a blacklist built from hosts makes one strict no-proxy call with the hosts joined by commas |
| Config.Join | src/config/mod.rs:658-664 | an empty host list gives the empty text, one host gives itself |
| Config.FromHosts | src/config/mod.rs:658-664 | a blacklist built from hosts holds the hosts joined by commas, and for one or more hosts without commas curl's comma-split reading of it gives back exactly those hosts, in order |
| Config.SplitJoin | src/config/mod.rs:658-670 | curl's comma-split reading of the joined blacklist gives back exactly the hosts, in order, when none of them holds a comma |
| Config.HeaderLines | src/config/mod.rs:432-435 | one line per pair, in order, each the name, `: ` and the value |
| Config.HeaderLinesHaveNoNul | src/config/mod.rs:432-435 | no header line of a valid map holds a NUL byte, so curl's list accepts every line |
| Config.HeaderListAsWritten | src/config/mod.rs:428-439 | the code as written panics exactly when some value of the map is not visible ASCII, and otherwise builds the list of all header lines |
| Config.HeaderListPanics | src/config/mod.rs:433 | a map holding the valid obs-text value `0xE9` makes the as-written list builder panic |
| Config.BuildHeaderList | src/config/mod.rs:428-439 | the list-building loop gives one line per name-value pair of the map, in iteration order, and never fails |
| Config.HeaderSetOpt | src/config/mod.rs:428-439 | one strict call hands curl the header lines of the map: one `name: value` line per value, in iteration order |
| SyncBody.CursorRead | src/body/sync.rs:105 | a cursor read returns the next bytes after the position, as many as fit the buffer, and advances the position by that count |
| SyncBody.CursorIsReader | src/body/sync.rs:102-108 | reading a buffer is reading the reader of its remaining bytes |
| SyncBody.BufferDrains | src/body/sync.rs:102-108 | reading a buffer body to its end gives every byte after its cursor and ends cleanly |
| SyncBody.Body.FromReader | src/body/sync.rs:28-33 | a reader body of unknown length |
| SyncBody.Body.FromReaderSized | src/body/sync.rs:35-40 | a reader body whose length is the one given |
| SyncBody.Body.FromBytes | src/body/sync.rs:117-139 | the in-memory conversions give a buffer at position 0 whose length is the byte count |
| SyncBody.Body.Empty | src/body/sync.rs:111-115 | the unit conversion gives the empty buffer, of length 0 |
| SyncBody.Body.Len | src/body/sync.rs:55-60 | a buffer's length is its whole byte count, whatever the cursor; a reader's is its declared length |
| SyncBody.Body.Reset | src/body/sync.rs:62-70 | a buffer rewinds to 0 and answers true; a reader answers false and is unchanged; the length is unchanged |
| SyncBody.Body.Read | src/body/sync.rs:102-108 | the body answers as the reader of its remaining stream; a buffer never fails and advances by the count returned |
| SyncBody.Body.IntoAsync | src/body/sync.rs:83-99 | a buffer becomes an in-memory asynchronous body and no writer; a reader becomes a pipe of the same declared length and a new writer owning the reader |
| SyncBody.Writer.Write | src/body/sync.rs:180-196 | the pipe receives the bytes the copy loop delivers, in blocks of 1 to 16384 bytes appended after the earlier blocks; `Interrupted` is retried, any other error ends the loop and is returned, and a read of 0 bytes ends it with success |
| SyncBody.WriterDelivers | src/body/sync.rs:180-196 | what the writer delivers does not depend on its buffer size: the reader's chunks up to its end or first error other than `Interrupted` |
| Interceptor.Context.Send | src/interceptor/context.rs:17-34 | with no interceptor left the invoker answers; with interceptors, every failure is a `Curl` error (the interceptor's error text); the dispatch through the first interceptor is stated by `Interceptor.SendThroughFirst` and `Interceptor.TransparentChain` |
| Interceptor.Context.Inner | src/interceptor/context.rs:19-22 | the inner context keeps the invoker and holds the strictly shorter rest of the list |
| Interceptor.SendWithoutInterceptors | src/interceptor/context.rs:31-32 | with no interceptors, `send` is the invoker's answer for the unchanged request |
| Interceptor.SendThroughFirst | src/interceptor/context.rs:18-30 | the first interceptor decides, given the request and the inner context; its response is returned unchanged and its error becomes `Curl` of the error's text |
| Interceptor.TransparentChain | src/interceptor/context.rs:17-34 | a chain of interceptors that pass a successful inner response through gives the invoker's response |
| ResponseExt.ContentLength | src/response.rs:172-179 | there is a length exactly when the header is present, visible ASCII, and parses as a `u64`, and it is the parsed value, below 2^64 |
| ResponseExt.ContentLengthRoundTrip | src/response.rs:172-179 | a map given `Content-Length` set to the decimal text of a 64-bit number reports that number |
| ResponseExt.ContentLengthAbsent | src/response.rs:172-179 | without a `Content-Length` header there is no length |
| ResponseExt.EffectiveUri | src/response.rs:181-183 | the URI recorded in the response extensions, if any |
| ResponseExt.Pump | src/response.rs:189-194 | the read loop with any buffer size delivers the reader's bytes up to its end or first error other than `Interrupted`, and leaves the rest of the reader in the response |
| ResponseExt.CopyTo | src/response.rs:189-194 | the writer receives exactly the delivered bytes; the result is their count, or the error that stopped the copy |
| ResponseExt.Consume | src/response.rs:238-243 | the body is read to its end and the result is the number of bytes, or the error that stopped the read |
| ResponseExt.BytesAsWritten | src/response.rs:206-219 | the code as written panics exactly when the announced length exceeds `isize::MAX` |
| ResponseExt.BytesPanicsOnHugeLength | src/response.rs:212-213 | `Content-Length: 18446744073709551615`, a valid `u64`, makes the as-written `bytes` panic |
| ResponseExt.Bytes | src/response.rs:206-219 | the result is the whole remaining body, in order, or the first error other than `Interrupted`, whatever the announced length |
| ResponseExt.BytesAgree | src/response.rs:206-219 | where the as-written `bytes` does not panic, it gives what the corrected one gives |
| Http.Insert | src/client.rs:1092-1095 | after `insert` the name has the value given as its only value, and the entries of other names are exactly those before |
| Http.OrInsert | src/client.rs:916-920 | a present name leaves the map alone; an absent one is appended with the value given |
| Http.ParseU64Decimal | src/response.rs:172-179 | `parse::<u64>` reads back every 64-bit number from its decimal text, also with a `+` or a leading zero, and rejects a `-` |
| Http.ParseU64Overflow | src/response.rs:172-179 | a number of 2^64 or more does not parse, written plainly, with a `+` or with a leading zero |
| Http.MethodText | src/client.rs:1061-1064 | a method's name is never empty, and it is a standard name exactly for the standard methods: an extension method never takes the name of one |
| Http.MethodTextInjective | src/client.rs:1061-1064 | two methods have the same name exactly when they are the same method, so the custom request names the request's own method |
| Io.Drain | src/body/sync.rs:180-196 | the copy loop never stops on an `Interrupted` error, and what it leaves of the reader is no more than what was there; that it delivers the reader's chunks whatever the buffer size is stated by `Io.DrainIsDelivered` |
| Io.DrainIsDelivered | src/response.rs:189-194 | the copy loop's result does not depend on its buffer size |
| Curl.ExecuteAccepted | src/client.rs:970-1102 | when curl refuses nothing, every call is made, in order |
| Curl.ExecuteUnrefused | src/client.rs:970-1102 | when curl refuses none of the calls made, every call is made, in order, and configuration succeeds |
| Curl.ExecuteRefused | src/client.rs:970-1102 | configuration fails at the first refused strict call, with that refusal's error |
| Curl.ExecuteAppend | src/client.rs:985-1026 | making two lists of calls one after the other is making their concatenation; the second is not reached when the first fails |
| Client.NewBuilder | src/client.rs:74-85 | a new builder has no middleware, no cache size, and as its only default the empty set of authentication methods |
| Client.WithDefault | src/client.rs:172-535 | each default setter replaces the default of its setting's type and changes nothing else |
| Client.WithMiddleware | src/client.rs:104-107 | a new layer goes after the existing ones, and nothing else changes |
| Client.MaxConnections | src/client.rs:128-131 | sets the agent's connection limit; the per-host limit, the cache size, the defaults and the middleware are unchanged |
| Client.MaxConnectionsPerHost | src/client.rs:147-150 | sets the agent's per-host connection limit; the global limit, the cache size, the defaults and the middleware are unchanged |
| Client.ConnectionCacheSize | src/client.rs:163-167 | sizes the agent's cache and stores a close-connection default that is true exactly for size 0; the connection limits, the other defaults and the middleware are unchanged |
| Client.Build | src/client.rs:540-546 | the build fails exactly when spawning the agent fails, with that error; otherwise the client keeps the builder's agent, defaults and middleware |
| Client.Effective | src/client.rs:987-993 | for each option type, the request's value wins, else the client default, else nothing is applied |
| Client.Applied | src/client.rs:985-1026 | only settings of the types the option list names are applied; which one of each type is stated by `Client.Effective`, `Client.DefaultApplies` and `Client.RequestOverridesDefault` |
| Client.OptionSteps | src/client.rs:985-1026 | without a version negotiation among the settings, every option call is made with `?` |
| Client.RequestOverridesDefault | src/client.rs:987-993 | changing a default of a type the request sets changes none of the applied settings |
| Client.DefaultApplies | src/client.rs:987-993 | without a request value of its type, a stored default is applied at its type's place in the option order, and the other settings are unchanged |
| Client.SettingsUnaffected | src/client.rs:985-1026 | a setting of a type the option list does not name has no effect, in the request or among the defaults |
| Client.NegotiationIgnored | src/client.rs:996-1024 | a version negotiation strategy, on the request or as a default, changes none of the applied settings |
| Client.MethodSteps | src/client.rs:1041-1065 | the method table makes one to three calls, each with `?`; which calls, for which method and body, is stated by `Client.MethodTable` |
| Client.MethodTable | src/client.rs:1041-1065 | curl's GET mode exactly for GET without a body; no-body mode exactly for HEAD; POST mode exactly for POST; upload exactly for PUT or a body on any non-POST method; a custom request named by the method exactly for every other case |
| Client.AcceptEncodingValue | src/client.rs:1029-1036 | the request's `Accept-Encoding` when present and visible ASCII, else the empty text |
| Client.BodyLength | src/client.rs:1075-1080 | a parseable `Content-Length` header overrides the body's own length |
| Client.PlanLength | src/client.rs:1069-1097 | no body: no size call and headers unchanged; a known length: the POST field size for POST, the upload size otherwise; an unknown length: no size call, and `Transfer-Encoding` becomes exactly `chunked` with every other header kept |
| Client.CreateEasyHandle | src/client.rs:970-1102 | the handle is configured exactly when curl refuses none of the calls, and then with every call, in order; the error of a refusal is stated by `Client.HandleRefused` |
| Client.HandleStrict | src/client.rs:970-1102 | every call of handle creation is made with `?`, since the one lenient call (the version flag of a negotiation) is not among the options applied |
| Client.HandleAccepted | src/client.rs:970-1102 | with nothing refused the handle is configured with every call in order, starting with debug logging and no signals |
| Client.HandleRefused | src/client.rs:970-1102 | the first refused strict call makes handle creation fail with that refusal's converted error |
| Client.RequestPrecedence | src/client.rs:985-1026 | whatever the client's default of a type the request sets, the handle gets the same calls |
| Client.WithDefaultUserAgent | src/client.rs:916-920 | a request with a `User-Agent` is unchanged; any other gets the default agent as its only `User-Agent` |
| Client.NewestLayerOutermost | src/client.rs:922-925 | the layer added last filters the request first and the response last |
| Client.ApplyRequestMiddleware | src/client.rs:922-925 | the loop over the layers in reverse gives the composed request filters |
| Client.ApplyResponseMiddleware | src/client.rs:959-964 | the loop over the layers in order gives the composed response filters |
| Client.WrapBody | src/client.rs:936-957 | the response body is sized exactly when `Content-Length` parses, to that length, and keeps the transfer's reader, status, headers and extensions |
| Client.Sent | src/client.rs:914-965 | a request succeeds exactly when its handle is configured, the agent takes it and the transfer succeeds, and then the result is the transfer's response with its body marked and the response middleware applied |
| Client.SendAsyncInner | src/client.rs:914-965 | the result is the first failure among handle configuration, submission and transfer, else the transfer's response with its body marked and the response middleware applied |
| Client.SizedBody | src/client.rs:936-957 | without middleware, a successful response carries the transfer's reader, sized by its `Content-Length` when that parses |
| Client.ConfigurationFailureWins | src/client.rs:927-934 | a handle that cannot be configured fails the request whatever the agent and the transfer would do |

## Left out

- The agent, its reactor thread, futures, `.await`, `yield_now` and the pipe between a `Writer` and its asynchronous body. Submission and the transfer are parameters of `Client.World`; the pipe is the list of blocks written.
- The curl library: each easy-handle call is a recorded value, and the predicates of `curl::Error` are a set of condition flags.
- The options whose `set_opt` is defined in files that are not part of this model (authentication, credentials, DNS, SSL, preferred HTTP version): `Config.Foreign` names them and applies them as one call.
- `Writer::write`: writes into the pipe never fail; the model takes every block.
- `copy_to`: writers that refuse bytes are not modelled; the model's writer takes every byte.
- Allocation failure of `Vec::reserve` other than the capacity overflow shown under Findings.
- `text`, `json` and the other decoders: only the error split of `From<json::Error>` is modelled.
- `copy_to_file` and `From<File>`: filesystem I/O.
- `Debug` and `Display` formatting, `metrics`, and the cookie jar.
- The text of the default `User-Agent`, which depends on the curl version at runtime: `Client.World.userAgent` is a parameter.
- `Duration` values are opaque natural numbers.
- The convenience methods (`get`, `head`, `post`, `put`, `delete`, `send`) that build a request and call `send_async_inner`.
- The runtime's log level: `Client.World.verbose` is a parameter.
- Readers that never stop answering (an endless stream, or `Interrupted` forever): a reader is a finite script, so the copy loops of `io::copy`, `read_to_end` and `Writer::write` (`src/body/sync.rs:180-196`) always end in the model, where the source would loop forever.
- `Client.NegotiationIgnored`: follows `src/client.rs`, whose option list has no `VersionNegotiation`, so a strategy set with `Configurable::version_negotiation` (`src/config/mod.rs:72-74`) on a request is never applied. This revision adds `PreferredHttpVersion` to that list (`src/client.rs:238-239`, `src/client.rs:1011`), so whether the strategy was meant to be applied beside it or to be retired is not evident, and the model does not guess a corrected option order.
- `Client.CreateEasyHandle`, `Client.Sent`, `Client.SendAsyncInner`: the handle calls the corrected header list `Config.HeaderSetOpt` as their last step, not the as-written `HeaderMap::set_opt` (`src/client.rs:1100`). A request with a header value that is not visible ASCII is configured in the model, where the source panics at `src/config/mod.rs:433` (see Findings).
- `ResponseExt.BytesAsWritten`, `ResponseExt.ISIZE_MAX`: `usize` and `isize` are taken to be 64 bits wide. On a 32-bit target `length as usize` truncates the announced length, so the panicking lengths differ (2^32 truncates to 0 and does not panic).
- `SyncBody.Body.FromBytes`: text conversions are modelled by their UTF-8 bytes, with no text type of their own.

## Findings

| source | as written | input that shows it | evidently intended | confidence | as-written member | corrected member |
|---|---|---|---|---|---|---|
| src/config/mod.rs:433 | `value.to_str().unwrap()` panics for a header value that is valid but not visible ASCII (obs-text bytes 0x80-0xFF) | a header `x` with the one-byte value `0xE9` | every valid header value is sent as a header line; the modelled handle (`Client.CreateEasyHandle`, `Client.SendAsyncInner`) uses the corrected list | not executed | Config.HeaderListAsWritten | Config.BuildHeaderList |
| src/response.rs:212-213 | `buf.reserve(length as usize)` panics with a capacity overflow for an announced length above `isize::MAX` (on a 64-bit target) | a response with `Content-Length: 18446744073709551615` | the announced length is only a capacity hint and the body is read to its end | not executed | ResponseExt.BytesPanicsOnHugeLength | ResponseExt.Bytes |
