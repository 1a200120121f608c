/** The part of the `http` crate the client relies on: header names and
    values, the header multimap, request methods, URIs, and the `u64`
    parsing that the client applies to header text. */
module Http {
  import opened Wrappers
  import opened Io

  /** A byte an `http::HeaderValue` may hold: tab, space, visible ASCII and
      obs-text (0x80 and above), but no other control byte. */
  predicate IsValueByte(b: byte) {
    b == 9 || (32 <= b && b != 127)
  }

  /** A byte `HeaderValue::to_str` accepts: tab, space and visible ASCII. */
  predicate IsVisibleAscii(b: byte) {
    b == 9 || (32 <= b && b < 127)
  }

  /** A byte of a normalised header name: a lower-case token character. */
  predicate IsNameByte(b: byte) {
    (97 <= b <= 122) || (48 <= b <= 57)
    || b in {33, 35, 36, 37, 38, 39, 42, 43, 45, 46, 94, 95, 96, 124, 126}
  }

  predicate ValidName(n: Bytes) {
    |n| > 0 && forall i | 0 <= i < |n| :: IsNameByte(n[i])
  }

  predicate ValidValue(v: Bytes) {
    forall i | 0 <= i < |v| :: IsValueByte(v[i])
  }

  /** One key of a header map with all its values, in insertion order. */
  datatype Entry = Entry(name: Bytes, values: seq<Bytes>)

  predicate ValidEntry(e: Entry) {
    ValidName(e.name) && |e.values| > 0
    && forall j | 0 <= j < |e.values| :: ValidValue(e.values[j])
  }

  predicate ValidMap(m: seq<Entry>) {
    (forall i | 0 <= i < |m| :: ValidEntry(m[i]))
    && (forall i, j | 0 <= i < j < |m| :: m[i].name != m[j].name)
  }

  /** `http::HeaderMap`: keys in insertion order, each with one or more
      values. Names are kept normalised (lower case), so a lookup by a
      lower-case name is the case-insensitive lookup of the crate. */
  type HeaderMap = m: seq<Entry> | ValidMap(m) witness []

  function IndexOf(m: seq<Entry>, name: Bytes): (r: Option<nat>)
    ensures r.Some? ==> r.value < |m| && m[r.value].name == name
    ensures r.None? ==> forall i | 0 <= i < |m| :: m[i].name != name
  {
    if m == [] then None
    else if m[0].name == name then Some(0)
    else
      match IndexOf(m[1..], name)
      case None => None
      case Some(k) => Some(k + 1)
  }

  /** `headers.get(name)`: the first value stored under `name`. */
  function Get(m: HeaderMap, name: Bytes): (r: Option<Bytes>)
    ensures r.Some? <==> exists i | 0 <= i < |m| :: m[i].name == name
    ensures r.Some? ==> exists i | 0 <= i < |m| :: m[i].name == name && m[i].values[0] == r.value
  {
    match IndexOf(m, name)
    case None => None
    case Some(i) => Some(m[i].values[0])
  }

  /** `headers.insert(name, value)`: every value under `name` is replaced by
      the one given; a new key goes to the end. */
  function Insert(m: HeaderMap, name: Bytes, v: Bytes): (r: HeaderMap)
    requires ValidName(name) && ValidValue(v)
    ensures Get(r, name) == Some(v)
    ensures exists i | 0 <= i < |r| :: r[i] == Entry(name, [v])
    ensures forall e | e in m && e.name != name :: e in r
    ensures forall e | e in r && e.name != name :: e in m
  {
    match IndexOf(m, name)
    case Some(i) =>
      var r := m[i := Entry(name, [v])];
      assert r[i] == Entry(name, [v]);
      assert forall e | e in m && e.name != name :: e in r by {
        forall e | e in m && e.name != name ensures e in r {
          var j :| 0 <= j < |m| && m[j] == e;
          assert r[j] == e;
        }
      }
      r
    case None =>
      var r := m + [Entry(name, [v])];
      assert r[|m|] == Entry(name, [v]);
      r
  }

  /** `headers.entry(name).or_insert(value)`: the map is left alone when
      `name` is present, otherwise the value is added under `name`. */
  function OrInsert(m: HeaderMap, name: Bytes, v: Bytes): (r: HeaderMap)
    requires ValidName(name) && ValidValue(v)
    ensures Get(m, name).Some? ==> r == m
    ensures Get(m, name).None? ==> Get(r, name) == Some(v) && r == m + [Entry(name, [v])]
  {
    match IndexOf(m, name)
    case Some(_) => m
    case None =>
      var r := m + [Entry(name, [v])];
      assert r[|m|] == Entry(name, [v]);
      r
  }

  /** The pairs `headers.iter()` yields: key by key in insertion order, each
      key with every one of its values. */
  function Pairs(m: seq<Entry>): seq<(Bytes, Bytes)> {
    if m == [] then [] else EntryPairs(m[0].name, m[0].values) + Pairs(m[1..])
  }

  function EntryPairs(name: Bytes, values: seq<Bytes>): seq<(Bytes, Bytes)> {
    if values == [] then [] else [(name, values[0])] + EntryPairs(name, values[1..])
  }

  /** `HeaderValue::to_str`: the text of a value that is all visible ASCII. */
  function ToStr(v: Bytes): (r: Option<Bytes>)
    ensures r.Some? <==> forall i | 0 <= i < |v| :: IsVisibleAscii(v[i])
    ensures r.Some? ==> r.value == v
  {
    if forall i | 0 <= i < |v| :: IsVisibleAscii(v[i]) then Some(v) else None
  }

  predicate IsDigit(b: byte) {
    48 <= b <= 57
  }

  predicate AllDigits(s: Bytes) {
    forall i | 0 <= i < |s| :: IsDigit(s[i])
  }

  /** The number a string of decimal digits denotes. */
  function DigitsValue(s: Bytes): nat
    requires AllDigits(s)
  {
    if s == [] then 0 else DigitsValue(s[..|s| - 1]) * 10 + (s[|s| - 1] - 48) as nat
  }

  /** One more than the largest `u64`. */
  const U64_LIMIT: nat := 0x1_0000_0000_0000_0000

  /** `str::parse::<u64>`: an optional `+`, then one or more decimal digits,
      denoting a number that fits in 64 bits. */
  function ParseU64(s: Bytes): Option<nat> {
    var digits := if |s| > 0 && s[0] == 43 then s[1..] else s;
    if |digits| == 0 || !AllDigits(digits) then None
    else if DigitsValue(digits) < U64_LIMIT then Some(DigitsValue(digits))
    else None
  }

  /** The shortest decimal text of `n`. */
  function Decimal(n: nat): (r: Bytes)
    ensures |r| > 0 && AllDigits(r)
  {
    if n < 10 then [(48 + n) as byte] else Decimal(n / 10) + [(48 + n % 10) as byte]
  }

  lemma {:induction false} DecimalValue(n: nat)
    ensures DigitsValue(Decimal(n)) == n
  {
    if n >= 10 {
      var d := Decimal(n);
      assert d[..|d| - 1] == Decimal(n / 10);
      DecimalValue(n / 10);
    }
  }

  /** Parsing reads back every 64-bit number from its decimal text, also
      with a leading `+` or a leading zero, and rejects a sign of `-`. */
  lemma ParseU64Decimal(n: nat)
    requires n < U64_LIMIT
    ensures ParseU64(Decimal(n)) == Some(n)
    ensures ParseU64([43] + Decimal(n)) == Some(n)
    ensures ParseU64([48] + Decimal(n)) == Some(n)
    ensures ParseU64([45] + Decimal(n)) == None
  {
    DecimalValue(n);
    assert ([43] + Decimal(n))[1..] == Decimal(n);
    LeadingZero(Decimal(n));
    assert !IsDigit(([45] + Decimal(n))[0]);
  }

  lemma {:induction false} LeadingZero(s: Bytes)
    requires AllDigits(s)
    ensures AllDigits([48] + s) && DigitsValue([48] + s) == DigitsValue(s)
  {
    if s != [] {
      assert ([48] + s)[..|s|] == [48] + s[..|s| - 1];
      LeadingZero(s[..|s| - 1]);
    }
  }

  /** A number that does not fit in 64 bits is rejected, written plainly,
      with a leading `+` or with a leading zero. */
  lemma ParseU64Overflow(n: nat)
    requires n >= U64_LIMIT
    ensures ParseU64(Decimal(n)) == None
    ensures ParseU64([43] + Decimal(n)) == None
    ensures ParseU64([48] + Decimal(n)) == None
  {
    DecimalValue(n);
    assert ([43] + Decimal(n))[1..] == Decimal(n);
    LeadingZero(Decimal(n));
  }

  /** Converts ASCII text to its bytes. */
  function Ascii(s: string): (r: Bytes)
    requires forall i | 0 <= i < |s| :: s[i] < 128 as char
    ensures |r| == |s|
  {
    if s == [] then [] else [s[0] as int as byte] + Ascii(s[1..])
  }

  /** The names of the standard methods, which `http::Method` always parses
      to their own variants. */
  predicate IsStandardName(t: string) {
    t == "GET" || t == "HEAD" || t == "POST" || t == "PUT" || t == "DELETE"
    || t == "CONNECT" || t == "OPTIONS" || t == "PATCH" || t == "TRACE"
  }

  /** The name of an extension method: never empty and never a standard name. */
  type ExtensionToken = t: string | |t| > 0 && !IsStandardName(t) witness "PROPFIND"

  datatype Method =
    | GET | HEAD | POST | PUT | DELETE | CONNECT | OPTIONS | PATCH | TRACE
    | ExtensionMethod(token: ExtensionToken)

  /** `Method::as_str`. */
  function MethodText(m: Method): (r: string)
    ensures |r| > 0
    ensures IsStandardName(r) <==> !m.ExtensionMethod?
  {
    match m
    case GET => "GET"
    case HEAD => "HEAD"
    case POST => "POST"
    case PUT => "PUT"
    case DELETE => "DELETE"
    case CONNECT => "CONNECT"
    case OPTIONS => "OPTIONS"
    case PATCH => "PATCH"
    case TRACE => "TRACE"
    case ExtensionMethod(t) => t
  }

  /** Different methods have different names. */
  lemma MethodTextInjective(a: Method, b: Method)
    ensures MethodText(a) == MethodText(b) <==> a == b
  {
  }

  /** An `http::Uri`, by the text its `Display` gives. */
  datatype Uri = Uri(text: string)

  /** An `http::Error`, by its description. */
  datatype HttpError = HttpError(message: string)

  /** The response extensions the client reads: the effective URI it may
      record after following redirects. */
  datatype ResponseExtensions = ResponseExtensions(effectiveUri: Option<Uri>)

  /** An `http::Response<B>`. */
  datatype Response<B> = Response(status: nat, headers: HeaderMap, extensions: ResponseExtensions, body: B)
}
