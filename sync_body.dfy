/** The body of a synchronous request or response (src/body/sync.rs): an
    in-memory buffer read through a cursor, or a foreign reader with an
    optional known length. */
module SyncBody {
  import opened Wrappers
  import opened Io
  import Http

  type U64 = n: nat | n < Http.U64_LIMIT

  /** What a body holds: bytes and the cursor position into them, or a
      reader (by the answers it will give) and its length if known. */
  datatype Inner = Buffer(data: Bytes, position: nat) | Reader(source: Source, length: Option<U64>)

  /** The stream a body still has to deliver, seen as a reader: the bytes
      after the cursor of a buffer, or what the reader has left. */
  function Stream(inner: Inner): Source {
    match inner
    case Buffer(data, pos) => if pos < |data| then [Data(data[pos..])] else []
    case Reader(s, _) => s
  }

  /** `Cursor::read` on a buffer: the next bytes the buffer fits into `n`,
      and the new position. */
  function CursorRead(data: Bytes, pos: nat, n: nat): (r: (Bytes, nat))
    requires pos <= |data|
    ensures r.1 == pos + |r.0| <= |data|
    ensures r.0 == data[pos..r.1]
    ensures |r.0| == if |data| - pos < n then |data| - pos else n
  {
    var end := if |data| - pos < n then |data| else pos + n;
    (data[pos..end], end)
  }

  /** A buffer is read like a reader that hands over its remaining bytes:
      the bytes a cursor read returns are exactly what `io::Read::read` on
      the remaining stream returns, and what is left is the stream after
      the new position. */
  lemma CursorIsReader(data: Bytes, pos: nat, n: nat)
    requires pos <= |data|
    ensures var (b, p) := CursorRead(data, pos, n);
      Read(Stream(Buffer(data, pos)), n) == (Success(b), Stream(Buffer(data, p)))
  {
    var (b, p) := CursorRead(data, pos, n);
    if pos < |data| && n > 0 {
      var rest := data[pos..];
      assert Stream(Buffer(data, pos)) == [Data(rest)];
      if |rest| > n {
        assert rest[..n] == b;
        assert rest[n..] == data[p..];
        assert [Data(rest)][1..] == [];
        assert [Data(rest[n..])] + [] == Stream(Buffer(data, p));
      } else {
        assert b == rest && p == |data|;
      }
    }
  }

  /** Reading a buffer body until the end delivers every byte after its
      cursor, and ends cleanly. */
  lemma {:induction false} BufferDrains(data: Bytes, pos: nat, n: nat)
    requires pos <= |data| && n > 0
    ensures Drain(Stream(Buffer(data, pos)), n) == Drained(data[pos..], Pass, [])
  {
    DrainIsDelivered(Stream(Buffer(data, pos)), n);
    if pos < |data| {
      var s := [Data(data[pos..])];
      assert s[1..] == [];
      assert Delivered(s) == Drained(data[pos..] + [], Pass, []);
      assert data[pos..] + [] == data[pos..];
    }
  }

  class Body {
    var inner: Inner

    /** The cursor of a buffer never passes its end. */
    predicate Valid()
      reads this
    {
      inner.Buffer? ==> inner.position <= |inner.data|
    }

    /** `Body::from_reader`: a reader of unknown length. */
    constructor FromReader(s: Source)
      ensures Valid() && inner == Reader(s, None) && Len() == None
    {
      inner := Reader(s, None);
    }

    /** `Body::from_reader_sized`: a reader of the given length. */
    constructor FromReaderSized(s: Source, length: U64)
      ensures Valid() && inner == Reader(s, Some(length)) && Len() == Some(length)
    {
      inner := Reader(s, Some(length));
    }

    /** The in-memory conversions (`From<Vec<u8>>`, `From<&[u8]>`, and for
        text its UTF-8 bytes: `From<String>`, `From<&str>`; and
        `from_bytes_static` of anything but a cursor): a buffer holding the
        bytes, read from the start. `from_bytes_static` of a cursor keeps
        the cursor as given, position included, which is `Buffer(data, pos)`
        itself. */
    constructor FromBytes(data: Bytes)
      ensures Valid() && inner == Buffer(data, 0) && Len() == Some(|data|)
    {
      inner := Buffer(data, 0);
    }

    /** `From<()>`: the empty body. */
    constructor Empty()
      ensures Valid() && inner == Buffer([], 0) && Len() == Some(0)
    {
      inner := Buffer([], 0);
    }

    /** `Body::len`: the size of the whole buffer, wherever its cursor is,
        or the reader's declared length. */
    function Len(): (r: Option<nat>)
      reads this
      ensures inner.Buffer? ==> r == Some(|inner.data|)
      ensures inner.Reader? ==> r == inner.length
    {
      match inner
      case Buffer(data, _) => Some(|data|)
      case Reader(_, length) => length
    }

    /** `Body::reset`: a buffer rewinds to its start and says so; a reader
        cannot rewind and is left as it is. */
    method Reset() returns (r: bool)
      requires Valid()
      modifies this
      ensures Valid()
      ensures r <==> old(inner).Buffer?
      ensures r ==> inner == Buffer(old(inner).data, 0) && Stream(inner) == Stream(Buffer(inner.data, 0))
      ensures !r ==> inner == old(inner)
      ensures Len() == old(Len())
    {
      match inner
      case Buffer(data, _) =>
        inner := Buffer(data, 0);
        r := true;
      case Reader(_, _) =>
        r := false;
    }

    /** `Read::read` with a buffer of `n` bytes: a buffer body reads from its
        cursor and advances it, a reader body asks its reader. Either way
        the body behaves as the reader of its remaining stream. */
    method Read(n: nat) returns (r: Result<Bytes, IoError>)
      requires Valid()
      modifies this
      ensures Valid()
      ensures (r, Stream(inner)) == Io.Read(old(Stream(inner)), n)
      ensures inner.Buffer? == old(inner).Buffer?
      ensures inner.Buffer? ==> inner.data == old(inner).data && r.Success?
                                && inner.position == old(inner).position + |r.value|
      ensures Len() == old(Len())
    {
      match inner
      case Buffer(data, pos) =>
        var (b, p) := CursorRead(data, pos, n);
        CursorIsReader(data, pos, n);
        inner := Buffer(data, p);
        r := Success(b);
      case Reader(s, length) =>
        var (res, rest) := Io.Read(s, n);
        inner := Reader(rest, length);
        r := res;
    }

    /** `Body::into_async`: a buffer becomes an asynchronous body holding the
        whole buffer (the cursor position is dropped); a reader becomes a
        pipe of the same declared length, fed by a new writer that owns the
        reader. */
    method IntoAsync() returns (b: AsyncBody, w: Writer?)
      ensures old(inner).Buffer? ==> b == AsyncBytes(old(inner).data) && w == null
      ensures old(inner).Reader? ==>
        && b == AsyncPipe(old(inner).length)
        && w != null && fresh(w) && w.reader == old(inner).source && w.writes == []
    {
      match inner
      case Buffer(data, _) =>
        b := AsyncBytes(data);
        w := null;
      case Reader(s, length) =>
        b := AsyncPipe(length);
        w := new Writer(s);
    }
  }

  /** An asynchronous body as `into_async` makes it: in-memory bytes, or the
      reading end of a pipe with its declared length. */
  datatype AsyncBody = AsyncBytes(bytes: Bytes) | AsyncPipe(length: Option<U64>)

  /** `Writer::BUF_SIZE`. */
  const BUF_SIZE: nat := 16384

  /** Copies a synchronous reader into the writing end of a pipe. The pipe
      is modelled by the blocks written into it. */
  class Writer {
    var reader: Source
    var writes: seq<Bytes>

    constructor(s: Source)
      ensures reader == s && writes == []
    {
      reader := s;
      writes := [];
    }

    /** `Writer::write`: reads into a `BUF_SIZE` buffer until a read gives 0
        bytes, writing each non-empty read into the pipe, retrying an
        `Interrupted` read and stopping at any other error. The pipe receives
        what the copy loop delivers, in blocks of one to `BUF_SIZE` bytes. */
    method Write() returns (r: Outcome<IoError>)
      modifies this
      ensures var d := Drain(old(reader), BUF_SIZE);
        && Flatten(writes) == Flatten(old(writes)) + d.bytes
        && r == d.outcome && reader == d.rest
      ensures |writes| >= |old(writes)| && writes[..|old(writes)|] == old(writes)
      ensures forall i | |old(writes)| <= i < |writes| :: 0 < |writes[i]| <= BUF_SIZE
    {
      ghost var target := Drain(reader, BUF_SIZE);
      ghost var start := writes;
      var source, blocks := reader, writes;
      while true
        invariant Drain(source, BUF_SIZE).outcome == target.outcome
        invariant Drain(source, BUF_SIZE).rest == target.rest
        invariant Flatten(blocks) + Drain(source, BUF_SIZE).bytes == Flatten(start) + target.bytes
        invariant |blocks| >= |start| && blocks[..|start|] == start
        invariant forall i | |start| <= i < |blocks| :: 0 < |blocks[i]| <= BUF_SIZE
        decreases Size(source)
      {
        var (res, rest) := Io.Read(source, BUF_SIZE);
        source := rest;
        match res
        case Success(b) =>
          if b == [] {
            assert Flatten(blocks) + [] == Flatten(blocks);
            reader, writes := source, blocks;
            return Pass;
          }
          FlattenSnoc(blocks, b);
          blocks := blocks + [b];
        case Failure(e) =>
          if e.kind != Interrupted {
            assert Flatten(blocks) + [] == Flatten(blocks);
            reader, writes := source, blocks;
            return Fail(e);
          }
      }
    }
  }

  /** Everything a pipe writer delivers, whatever the buffer size: the
      stream's bytes up to its first end-of-stream answer or error. */
  lemma WriterDelivers(s: Source)
    ensures Drain(s, BUF_SIZE) == Delivered(s)
  {
    DrainIsDelivered(s, BUF_SIZE);
  }
}
