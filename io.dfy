/** The part of Rust's `std::io` that the client relies on: error kinds,
    `io::Error`, and readers. A reader (`dyn Read`) is foreign code, so it is
    modelled by the script of answers it gives to successive `read` calls. */
module Io {
  import opened Wrappers

  newtype byte = x: int | 0 <= x < 256

  type Bytes = seq<byte>

  datatype ErrorKind =
    | NotFound | PermissionDenied | ConnectionRefused | ConnectionReset
    | ConnectionAborted | NotConnected | AddrInUse | AddrNotAvailable
    | BrokenPipe | AlreadyExists | WouldBlock | InvalidInput | InvalidData
    | TimedOut | WriteZero | Interrupted | Other | UnexpectedEof

  /** An `io::Error`: its kind and the text its `description()` gives. */
  datatype IoError = IoError(kind: ErrorKind, message: string)

  /** The text of an error built from a bare kind (`kind.into()`), as the
      standard library words it. */
  function KindText(kind: ErrorKind): string {
    match kind
    case NotFound => "entity not found"
    case PermissionDenied => "permission denied"
    case ConnectionRefused => "connection refused"
    case ConnectionReset => "connection reset"
    case ConnectionAborted => "connection aborted"
    case NotConnected => "not connected"
    case AddrInUse => "address in use"
    case AddrNotAvailable => "address not available"
    case BrokenPipe => "broken pipe"
    case AlreadyExists => "entity already exists"
    case WouldBlock => "operation would block"
    case InvalidInput => "invalid input parameter"
    case InvalidData => "invalid data"
    case TimedOut => "timed out"
    case WriteZero => "write zero"
    case Interrupted => "operation interrupted"
    case Other => "other os error"
    case UnexpectedEof => "unexpected end of file"
  }

  /** `io::Error::from(kind)`. */
  function FromKind(kind: ErrorKind): IoError {
    IoError(kind, KindText(kind))
  }

  /** One answer of a reader to a `read` call: some bytes (none at all is
      the reader's end-of-stream answer `Ok(0)`) or an error. */
  datatype ReadEvent = Data(bytes: Bytes) | Fault(error: IoError)

  /** The answers a reader will give, in order. A reader whose script is
      used up reports end of stream on every further call. */
  type Source = seq<ReadEvent>

  function Weight(e: ReadEvent): nat {
    match e
    case Data(b) => |b| + 1
    case Fault(_) => 1
  }

  /** A measure that every consuming `read` strictly decreases. */
  function Size(s: Source): nat {
    if s == [] then 0 else Weight(s[0]) + Size(s[1..])
  }

  /** `reader.read(&mut buf)` with a buffer of `n` bytes: the bytes placed in
      `buf` (their count is the `Ok` value) or the error, and what the
      reader still has to say. A reader hands over at most `n` bytes and
      keeps the rest of a longer chunk for the next call. */
  function Read(s: Source, n: nat): (r: (Result<Bytes, IoError>, Source))
    ensures r.0.Success? ==> |r.0.value| <= n
    ensures r.0.Failure? || r.0.value != [] ==> Size(r.1) < Size(s)
  {
    if n == 0 || s == [] then (Success([]), s)
    else
      match s[0]
      case Data(b) =>
        if |b| <= n then (Success(b), s[1..])
        else
          var rest := [Data(b[n..])] + s[1..];
          assert rest[1..] == s[1..];
          (Success(b[..n]), rest)
      case Fault(e) => (Failure(e), s[1..])
  }

  /** What a copy loop gets out of a reader: the bytes it passed on, how it
      ended, and what the reader still holds afterwards. */
  datatype Drained = Drained(bytes: Bytes, outcome: Outcome<IoError>, rest: Source)

  /** The copy loop shared by `io::copy`, `read_to_end` and the body writer:
      read with an `n`-byte buffer until a read returns 0 bytes,
      retrying a read that failed with `Interrupted` and stopping at any
      other error. */
  function Drain(s: Source, n: nat): (d: Drained)
    requires n > 0
    ensures d.outcome.Fail? ==> d.outcome.error.kind != Interrupted
    ensures Size(d.rest) <= Size(s)
    decreases Size(s)
  {
    var (res, s') := Read(s, n);
    match res
    case Success(b) =>
      if b == [] then Drained([], Pass, s')
      else
        var d := Drain(s', n);
        Drained(b + d.bytes, d.outcome, d.rest)
    case Failure(e) =>
      if e.kind == Interrupted then Drain(s', n) else Drained([], Fail(e), s')
  }

  /** The same stream read without any buffer: every chunk up to the first
      end-of-stream answer or error other than `Interrupted`, whole. */
  function Delivered(s: Source): (d: Drained)
  {
    if s == [] then Drained([], Pass, [])
    else
      match s[0]
      case Data(b) =>
        if b == [] then Drained([], Pass, s[1..])
        else
          var d := Delivered(s[1..]);
          Drained(b + d.bytes, d.outcome, d.rest)
      case Fault(e) =>
        if e.kind == Interrupted then Delivered(s[1..]) else Drained([], Fail(e), s[1..])
  }

  /** The buffer size of a copy loop does not change what it delivers, how
      it ends or what is left of the reader. */
  lemma {:induction false} DrainIsDelivered(s: Source, n: nat)
    requires n > 0
    ensures Drain(s, n) == Delivered(s)
    decreases Size(s)
  {
    if s != [] {
      match s[0]
      case Data(b) =>
        if b != [] {
          if |b| <= n {
            DrainIsDelivered(s[1..], n);
          } else {
            var rest := [Data(b[n..])] + s[1..];
            assert rest[1..] == s[1..];
            assert Read(s, n) == (Success(b[..n]), rest);
            DrainIsDelivered(rest, n);
            assert Delivered(rest).bytes == b[n..] + Delivered(s[1..]).bytes;
            assert b[..n] + (b[n..] + Delivered(s[1..]).bytes) == b + Delivered(s[1..]).bytes;
          }
        }
      case Fault(e) =>
        if e.kind == Interrupted {
          DrainIsDelivered(s[1..], n);
        }
    }
  }

  /** Concatenation of a list of byte blocks. */
  function Flatten(blocks: seq<Bytes>): Bytes {
    if blocks == [] then [] else Flatten(blocks[..|blocks| - 1]) + blocks[|blocks| - 1]
  }

  lemma FlattenSnoc(blocks: seq<Bytes>, b: Bytes)
    ensures Flatten(blocks + [b]) == Flatten(blocks) + b
  {
    assert (blocks + [b])[..|blocks|] == blocks;
  }
}
