/** The response extension methods (src/response.rs) on a response whose
    body is a reader. */
module ResponseExt {
  import opened Wrappers
  import opened Io
  import opened Http

  /** The header name `content-length`. */
  const CONTENT_LENGTH: Bytes := [99, 111, 110, 116, 101, 110, 116, 45, 108, 101, 110, 103, 116, 104]

  /** `ResponseExt::content_length`: the first `Content-Length` value, when
      it is visible ASCII text that parses as a `u64`. */
  function ContentLength(headers: HeaderMap): (r: Option<nat>)
    ensures r.Some? <==>
      && Get(headers, CONTENT_LENGTH).Some?
      && ToStr(Get(headers, CONTENT_LENGTH).value).Some?
      && ParseU64(Get(headers, CONTENT_LENGTH).value).Some?
    ensures r.Some? ==> r.value < U64_LIMIT && r == ParseU64(Get(headers, CONTENT_LENGTH).value)
  {
    match Get(headers, CONTENT_LENGTH)
    case None => None
    case Some(v) =>
      match ToStr(v)
      case None => None
      case Some(text) => ParseU64(text)
  }

  /** A parsed length is always below 2^64. */
  lemma ParseU64Bound(s: Bytes)
    ensures ParseU64(s).Some? ==> ParseU64(s).value < U64_LIMIT
  {
  }

  /** Setting `Content-Length` to the decimal text of a 64-bit number makes
      `content_length` report that number, whatever else the map holds. */
  lemma ContentLengthRoundTrip(headers: HeaderMap, n: nat)
    requires n < U64_LIMIT
    ensures ContentLength(Insert(headers, CONTENT_LENGTH, Decimal(n))) == Some(n)
  {
    var d := Decimal(n);
    ParseU64Decimal(n);
    assert ValidValue(d) && forall i | 0 <= i < |d| :: IsVisibleAscii(d[i]);
  }

  /** Without a `Content-Length` header there is no length. */
  lemma ContentLengthAbsent(headers: HeaderMap)
    requires forall i | 0 <= i < |headers| :: headers[i].name != CONTENT_LENGTH
    ensures ContentLength(headers) == None
  {
  }

  /** `ResponseExt::effective_uri`: the URI recorded after redirects, if any. */
  function EffectiveUri<B>(response: Response<B>): (r: Option<Uri>)
    ensures r == response.extensions.effectiveUri
  {
    response.extensions.effectiveUri
  }

  /** The buffer size of `io::copy`. */
  const COPY_BUF_SIZE: nat := 8192

  /** The result of pumping a body: what was delivered, how it ended, and the
      response with what its body has left. */
  datatype Pumped = Pumped(delivered: Bytes, outcome: Outcome<IoError>, response: Response<Source>)

  /** The read-until-end loop of `io::copy` and `read_to_end` over the body
      of a response, reading at most `n` bytes at a time: the bytes the body
      delivers before its end of stream or first error other than
      `Interrupted`, whatever `n` is. */
  method Pump(response: Response<Source>, n: nat) returns (p: Pumped)
    requires n > 0
    ensures var d := Delivered(response.body);
      p == Pumped(d.bytes, d.outcome, response.(body := d.rest))
  {
    DrainIsDelivered(response.body, n);
    ghost var target := Drain(response.body, n);
    var body := response.body;
    var out: Bytes := [];
    while true
      invariant Drain(body, n).outcome == target.outcome && Drain(body, n).rest == target.rest
      invariant out + Drain(body, n).bytes == target.bytes
      decreases Size(body)
    {
      var (res, rest) := Io.Read(body, n);
      body := rest;
      match res
      case Success(b) =>
        if b == [] {
          assert out + [] == out;
          return Pumped(out, Pass, response.(body := body));
        }
        out := out + b;
      case Failure(e) =>
        if e.kind != Interrupted {
          assert out + [] == out;
          return Pumped(out, Fail(e), response.(body := body));
        }
    }
  }

  /** `ResponseExt::copy_to`: copies the body into a writer that takes every
      byte, and reports how many bytes were copied. */
  method CopyTo(response: Response<Source>) returns (r: Result<nat, IoError>, written: Bytes, after: Response<Source>)
    ensures var d := Delivered(response.body);
      && written == d.bytes && after == response.(body := d.rest)
      && (d.outcome.Pass? ==> r == Success(|d.bytes|))
      && (d.outcome.Fail? ==> r == Failure(d.outcome.error))
  {
    var p := Pump(response, COPY_BUF_SIZE);
    written, after := p.delivered, p.response;
    r := if p.outcome.Pass? then Success(|p.delivered|) else Failure(p.outcome.error);
  }

  /** `ResponseExt::consume`: reads the body to its end, dropping the bytes,
      and reports how many there were. */
  method Consume(response: Response<Source>) returns (r: Result<nat, IoError>, after: Response<Source>)
    ensures var d := Delivered(response.body);
      && after == response.(body := d.rest)
      && (d.outcome.Pass? ==> r == Success(|d.bytes|))
      && (d.outcome.Fail? ==> r == Failure(d.outcome.error))
  {
    var written;
    r, written, after := CopyTo(response);
  }

  /** The largest `isize`, beyond which `Vec::reserve` panics. */
  const ISIZE_MAX: nat := 0x7FFF_FFFF_FFFF_FFFF

  /** The read size `read_to_end` starts with when nothing is reserved. */
  const PROBE_SIZE: nat := 32

  /** `ResponseExt::bytes` as written: `Vec::reserve(content_length)` panics
      (`None`) when the server announces more than `isize::MAX` bytes;
      otherwise the body is read to its end. */
  function BytesAsWritten(response: Response<Source>): (r: Option<(Result<Bytes, IoError>, Response<Source>)>)
    ensures r.None? <==> ContentLength(response.headers).Some? && ContentLength(response.headers).value > ISIZE_MAX
  {
    var hint := ContentLength(response.headers);
    if hint.Some? && hint.value > ISIZE_MAX then None
    else
      var d := Delivered(response.body);
      Some((if d.outcome.Pass? then Success(d.bytes) else Failure(d.outcome.error), response.(body := d.rest)))
  }

  /** A server that announces `Content-Length: 18446744073709551615` (a valid
      `u64`) makes the as-written `bytes` panic, before a single byte is
      read. */
  lemma BytesPanicsOnHugeLength(body: Source)
    ensures var text := Decimal(U64_LIMIT - 1);
      var headers := Insert([], CONTENT_LENGTH, text);
      BytesAsWritten(Response(200, headers, ResponseExtensions(None), body)).None?
  {
    ContentLengthRoundTrip([], U64_LIMIT - 1);
  }

  /** `ResponseExt::bytes`, with the announced length used only as a hint:
      the read size starts at the announced length when it can be reserved
      and at `PROBE_SIZE` otherwise, and the result is the whole body read
      to its end or the first error other than `Interrupted`. */
  method Bytes(response: Response<Source>) returns (r: Result<Bytes, IoError>, after: Response<Source>)
    ensures var d := Delivered(response.body);
      && after == response.(body := d.rest)
      && (d.outcome.Pass? ==> r == Success(d.bytes))
      && (d.outcome.Fail? ==> r == Failure(d.outcome.error))
  {
    var hint := ContentLength(response.headers);
    var size := if hint.Some? && 0 < hint.value <= ISIZE_MAX then hint.value else PROBE_SIZE;
    var p := Pump(response, size);
    after := p.response;
    r := if p.outcome.Pass? then Success(p.delivered) else Failure(p.outcome.error);
  }

  /** Where the as-written `bytes` does not panic, it gives what the
      corrected one gives. */
  lemma BytesAgree(response: Response<Source>)
    requires BytesAsWritten(response).Some?
    ensures var d := Delivered(response.body);
      BytesAsWritten(response).value
        == (if d.outcome.Pass? then Success(d.bytes) else Failure(d.outcome.error), response.(body := d.rest))
  {
  }
}
