/** The stateful parts of the format base class: the in-memory byte stream that
    survives `close()`, where a format reads from, the strict check for unread
    input, and the class registry that subclass creation fills. */
module BaseIO {
  import opened Values

  type byte = bv8

  /** The outcome of a stream call: its result, or one of the two ValueErrors a
      `BytesIO` raises here (an operation on a closed file, a negative seek
      position). */
  datatype IOResult<T> = Ok(value: T) | ClosedFile | NegativeSeek

  // ---------------------------------------------------------------------------
  // The buffer arithmetic of `BytesIO`.

  /** What `read()` returns at position `pos`: the rest of the buffer, nothing
      when the position is at or past the end. */
  function Unread(buf: seq<byte>, pos: nat): (r: seq<byte>)
    ensures |r| == if pos < |buf| then |buf| - pos else 0
    ensures forall i :: 0 <= i < |r| ==> r[i] == buf[pos + i]
  {
    if pos < |buf| then buf[pos..] else []
  }

  /** The bytes before the position and the unread bytes make up the buffer. */
  lemma UnreadCompletes(buf: seq<byte>, pos: nat)
    requires pos <= |buf|
    ensures buf[..pos] + Unread(buf, pos) == buf
  {
  }

  function Zeros(n: nat): (r: seq<byte>)
    ensures |r| == n && forall i :: 0 <= i < n ==> r[i] == 0
  {
    seq(n, _ => 0)
  }

  /** The buffer after `write(data)` at `pos`: the bytes at `pos` are replaced,
      the buffer grows when the data runs past its end, and a gap between the
      old end and `pos` is filled with zero bytes. Writing nothing changes
      nothing, even past the end. */
  function Overwrite(buf: seq<byte>, pos: nat, data: seq<byte>): (r: seq<byte>)
    ensures data == [] ==> r == buf
    ensures data != [] ==> |r| == if pos + |data| > |buf| then pos + |data| else |buf|
    ensures data != [] ==> r[pos..pos + |data|] == data
    ensures forall i :: 0 <= i < |buf| && (i < pos || i >= pos + |data|) ==> r[i] == buf[i]
    ensures data != [] ==> forall i :: |buf| <= i < pos ==> r[i] == 0
  {
    if data == [] then buf
    else if pos <= |buf| then
      buf[..pos] + data + (if pos + |data| < |buf| then buf[pos + |data|..] else [])
    else buf + Zeros(pos - |buf|) + data
  }

  /** Reading back from where a write started yields the written bytes, then
      whatever of the old buffer lies beyond them. */
  lemma WriteThenRead(buf: seq<byte>, pos: nat, data: seq<byte>)
    requires data != []
    ensures Unread(Overwrite(buf, pos, data), pos) == data + Unread(buf, pos + |data|)
  {
    var r := Overwrite(buf, pos, data);
    var u := Unread(r, pos);
    var w := data + Unread(buf, pos + |data|);
    assert |u| == |w|;
    forall i | 0 <= i < |u| ensures u[i] == w[i] {
      if i < |data| {
        assert u[i] == r[pos..pos + |data|][i];
      }
    }
  }

  // ---------------------------------------------------------------------------
  // `PersistentBytesIO`.

  /** A `BytesIO` whose `close()` only rewinds, so a codec that closes the
      stream it wrote leaves the bytes readable. */
  class PersistentBytesIO {
    var buf: seq<byte>
    var pos: nat
    var closed: bool

    constructor (initial: seq<byte>)
      ensures buf == initial && pos == 0 && !closed
    {
      buf := initial;
      pos := 0;
      closed := false;
    }

    /** `read()`: the unread bytes; the position moves to the end unless it is
        already past it. */
    method Read() returns (r: IOResult<seq<byte>>)
      modifies this
      ensures old(closed) ==> r == ClosedFile && unchanged(this)
      ensures !old(closed) ==> r == Ok(Unread(old(buf), old(pos)))
      ensures !old(closed) ==> buf == old(buf) && !closed
      ensures !old(closed) ==> pos == if old(pos) < |old(buf)| then |old(buf)| else old(pos)
    {
      if closed {
        return ClosedFile;
      }
      r := Ok(Unread(buf, pos));
      if pos < |buf| {
        pos := |buf|;
      }
    }

    /** `write(data)`: returns the number of bytes written. */
    method Write(data: seq<byte>) returns (r: IOResult<nat>)
      modifies this
      ensures old(closed) ==> r == ClosedFile && unchanged(this)
      ensures !old(closed) ==> r == Ok(|data|) && !closed
      ensures !old(closed) ==> buf == Overwrite(old(buf), old(pos), data)
      ensures !old(closed) ==> pos == old(pos) + |data|
    {
      if closed {
        return ClosedFile;
      }
      buf := Overwrite(buf, pos, data);
      pos := pos + |data|;
      r := Ok(|data|);
    }

    /** `seek(offset)` from the start; any position, also past the end, is
        allowed, a negative one is refused after the closed check. */
    method Seek(offset: int) returns (r: IOResult<nat>)
      modifies this
      ensures old(closed) ==> r == ClosedFile && unchanged(this)
      ensures !old(closed) && offset < 0 ==> r == NegativeSeek && unchanged(this)
      ensures !old(closed) && offset >= 0 ==> r == Ok(offset) && pos == offset && buf == old(buf) && !closed
    {
      if closed {
        return ClosedFile;
      }
      if offset < 0 {
        return NegativeSeek;
      }
      pos := offset;
      r := Ok(offset);
    }

    /** The overriding `close()`: `seek(0)`. The stream stays open and keeps its
        contents. */
    method Close() returns (r: IOResult<()>)
      modifies this
      ensures old(closed) ==> r == ClosedFile && unchanged(this)
      ensures !old(closed) ==> r == Ok(()) && pos == 0 && buf == old(buf) && !closed
    {
      var s := Seek(0);
      if s.ClosedFile? {
        return ClosedFile;
      }
      r := Ok(());
    }

    /** `getvalue()`: the whole buffer, whatever the position; then `seek(0)`. */
    method GetValue() returns (r: IOResult<seq<byte>>)
      modifies this
      ensures old(closed) ==> r == ClosedFile && unchanged(this)
      ensures !old(closed) ==> r == Ok(old(buf)) && buf == old(buf) && pos == 0 && !closed
    {
      if closed {
        return ClosedFile;
      }
      r := Ok(buf);
      var s := Seek(0);
    }

    /** `__enter__`, inherited from the I/O base class: refused on a closed
        stream. */
    method Enter() returns (r: IOResult<()>)
      ensures r == if closed then ClosedFile else Ok(())
    {
      r := if closed then ClosedFile else Ok(());
    }

    /** `__exit__` as written: the `BytesIO` close marks the stream closed, then
        the inherited `__exit__` calls the overriding `close()`, whose
        `seek(0)` fails on the stream just closed. */
    method ExitAsWritten() returns (r: IOResult<()>)
      modifies this
      ensures r == ClosedFile && closed
      ensures buf == old(buf) && pos == old(pos)
    {
      closed := true;
      r := Close();
    }

    /** `__exit__` as intended: the stream is really closed and the block ends
        without an error. */
    method Exit() returns (r: IOResult<()>)
      modifies this
      ensures r == Ok(()) && closed
      ensures buf == old(buf) && pos == old(pos)
    {
      closed := true;
      r := Ok(());
    }
  }

  /** `with PersistentBytesIO(initial) as s: ...` as written: leaving the block
      always raises. */
  method WithBlockAsWritten(initial: seq<byte>) returns (r: IOResult<()>)
    ensures r == ClosedFile
  {
    var s := new PersistentBytesIO(initial);
    var entered := s.Enter();
    r := s.ExitAsWritten();
  }

  /** The same block with the intended `__exit__`: it ends cleanly and the
      stream is closed. */
  method WithBlock(initial: seq<byte>) returns (r: IOResult<()>, closed: bool)
    ensures r == Ok(()) && closed
  {
    var s := new PersistentBytesIO(initial);
    var entered := s.Enter();
    r := s.Exit();
    closed := s.closed;
  }

  /** Writing, closing and reading again returns what was written: the bytes
      survive the codec's `close()`. */
  method WriteCloseRead(s: PersistentBytesIO, data: seq<byte>) returns (r: IOResult<seq<byte>>)
    requires !s.closed && s.buf == [] && s.pos == 0
    modifies s
    ensures r == Ok(data)
  {
    var w := s.Write(data);
    var c := s.Close();
    r := s.Read();
    if data != [] {
      WriteThenRead([], 0, data);
      assert Unread([], |data|) == [];
      assert data + [] == data;
    }
  }

  // ---------------------------------------------------------------------------
  // `Format` instances.

  /** The argument of `Format(path, strict)`: None, a `Path`, or any other
      object, which is taken as the stream. */
  datatype Source = NoSource | PathSource(path: string) | StreamSource(stream: PersistentBytesIO)

  /** `RemainingDataError(remainder, format)`. */
  datatype RemainingDataError = RemainingDataError(remainder: seq<byte>, format: Format)

  /** The outcome of `check_remainder`: nothing, the error it raises, or the
      ValueError of reading a closed stream, which it does not catch. */
  datatype Checked = Clean | Remaining(error: RemainingDataError) | StreamClosed

  class Format {
    const name: string
    var useStdinout: bool
    var path: Option<string>
    var stream: Option<PersistentBytesIO>
    var strict: bool

    /** Exactly one of stdin/stdout, a path and a stream is the source. */
    predicate OneSource()
      reads this
    {
      (if useStdinout then 1 else 0) + (if path.Some? then 1 else 0) + (if stream.Some? then 1 else 0) == 1
    }

    /** `__init__(path, strict)`: no argument means stdin/stdout, a `Path`
        is read from and written to, anything else is the stream. */
    constructor (name: string, source: Source, strict: bool)
      ensures this.name == name && this.strict == strict
      ensures useStdinout <==> source.NoSource?
      ensures path == if source.PathSource? then Some(source.path) else None
      ensures stream == if source.StreamSource? then Some(source.stream) else None
      ensures OneSource()
    {
      this.name := name;
      useStdinout := false;
      path := None;
      stream := None;
      if source.NoSource? {
        useStdinout := true;
      } else if source.PathSource? {
        path := Some(source.path);
      } else {
        stream := Some(source.stream);
      }
      this.strict := strict;
    }

    /** `check_remainder(stream, force)`: only in strict mode or when forced,
        read to the end and raise with exactly the bytes found there, if any. */
    method CheckRemainder(s: PersistentBytesIO, force: bool) returns (r: Checked)
      modifies s
      ensures !(strict || force) ==> r == Clean && unchanged(s)
      ensures (strict || force) && old(s.closed) ==> r == StreamClosed && unchanged(s)
      ensures (strict || force) && !old(s.closed) ==>
                r == if Unread(old(s.buf), old(s.pos)) == [] then Clean
                     else Remaining(RemainingDataError(Unread(old(s.buf), old(s.pos)), this))
      ensures (strict || force) && !old(s.closed) ==>
                s.buf == old(s.buf) && !s.closed && Unread(s.buf, s.pos) == []
      ensures (strict || force) && !old(s.closed) ==>
                s.pos == if old(s.pos) < |old(s.buf)| then |old(s.buf)| else old(s.pos)
    {
      if !(strict || force) {
        return Clean;
      }
      var remainder := s.Read();
      if remainder.ClosedFile? {
        return StreamClosed;
      }
      if |remainder.value| > 0 {
        r := Remaining(RemainingDataError(remainder.value, this));
      } else {
        r := Clean;
      }
    }
  }

  // ---------------------------------------------------------------------------
  // The registry.

  /** A `Format` subclass as registration sees it (`displayName` is its
      `label`). `highlight` is None when
      neither the class nor a base class defines the attribute. */
  datatype FormatClass = FormatClass(name: string, suffixes: seq<string>, displayName: string, highlight: Option<string>)

  /** The class after `__init_subclass__`: a missing `highlight` becomes the
      name, everything else stays. */
  function WithHighlight(cls: FormatClass): (r: FormatClass)
    ensures r.highlight.Some?
    ensures cls.highlight.Some? ==> r == cls
    ensures cls.highlight.None? ==> r == cls.(highlight := Some(cls.name))
  {
    if cls.highlight.Some? then cls else cls.(highlight := Some(cls.name))
  }

  /** `Format.registry`, in insertion order. */
  class Registry {
    var classes: seq<(string, FormatClass)>

    constructor ()
      ensures classes == []
    {
      classes := [];
    }

    /** `__init_subclass__(cls)`: the class is registered under its name,
        replacing one registered earlier under the same name. */
    method Register(cls: FormatClass) returns (registered: FormatClass)
      modifies this
      ensures registered == WithHighlight(cls)
      ensures classes == Put(old(classes), cls.name, registered)
      ensures Lookup(classes, cls.name) == Some(registered)
      ensures forall n :: n != cls.name ==> Lookup(classes, n) == Lookup(old(classes), n)
      ensures KeySet(classes) == KeySet(old(classes)) + {cls.name}
    {
      registered := WithHighlight(cls);
      forall n {
        PutLookup(classes, cls.name, registered, n);
      }
      PutKeySet(classes, cls.name, registered);
      classes := Put(classes, cls.name, registered);
    }
  }
}
