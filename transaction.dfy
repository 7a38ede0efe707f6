/**
  The per-transfer context and the two loops that move a chunk between a
  file and memory.

  A file stream is a byte sequence with a position, an end-of-file flag and
  a bad flag. `GetStep` and `PutStep` give one `get()` and one `put()`;
  `ReadLoop` and `WriteLoop` unfold the two chunk loops one step at a
  time, and the lemmas below give their closed forms.
 */
module Transactions {
  import opened Types

  // ------------------------------------------------------------ Constants

  const TidDud: u16 := 0
  const RwDoneN: nat := 0
  const ChunkSize: nat := 512
  const OpcodeSize: nat := 2
  const DelimSize: nat := 1
  const MaxPathLength: nat := 64
  const MaxModeLength: nat := 16
  /** The largest request: opcode, path, NUL, mode, NUL, and one chunk. */
  const MsgSizeLimit: nat :=
    OpcodeSize + MaxPathLength + DelimSize + MaxModeLength + DelimSize + ChunkSize

  lemma MsgSizeLimitValue()
    ensures MsgSizeLimit == 596
    ensures ChunkSize == 512 && TidDud == 0
  {
  }

  // ------------------------------------------------------------ Streams

  /** The value of a file stream at one moment. */
  datatype StreamState = StreamState(
    isOpen: bool,
    writable: bool,
    content: seq<u8>,
    cursor: nat,
    eof: bool,
    bad: bool)
  {
    predicate Valid() {
      cursor <= |content|
    }

    /** Neither end-of-file nor a failed write has happened. */
    predicate Good() {
      !eof && !bad
    }

    function Remaining(): nat
      requires Valid()
    {
      |content| - cursor
    }
  }

  /** `std::fstream {}`: no file attached; the first read reaches end of file. */
  const Unattached: StreamState := StreamState(false, false, [], 0, false, false)

  /** A file opened for binary input, positioned at its first byte. */
  function OpenedForInput(bytes: seq<u8>): (s: StreamState)
    ensures s.Valid() && s.Good() && s.Remaining() == |bytes|
    ensures s.isOpen && !s.writable && s.content == bytes && s.cursor == 0
  {
    StreamState(true, false, bytes, 0, false, false)
  }

  /** `bytes` written over `content` from `at`, extending it where they run past the end. */
  function Overwritten(content: seq<u8>, at: nat, bytes: seq<u8>): (r: seq<u8>)
    requires at <= |content|
    ensures |r| == if at + |bytes| <= |content| then |content| else at + |bytes|
  {
    content[..at] + bytes + content[Min(at + |bytes|, |content|)..]
  }

  /**
    What an overwrite keeps and what it replaces: the bytes before `at` stay,
    `bytes` follow them, and whatever lay past the written span stays.
   */
  lemma OverwrittenParts(content: seq<u8>, at: nat, bytes: seq<u8>)
    requires at <= |content|
    ensures Overwritten(content, at, bytes)[..at] == content[..at]
    ensures Overwritten(content, at, bytes)[at..at + |bytes|] == bytes
    ensures at + |bytes| <= |content| ==>
      Overwritten(content, at, bytes)[at + |bytes|..] == content[at + |bytes|..]
    ensures bytes == [] ==> Overwritten(content, at, bytes) == content
  {
    if bytes == [] {
      assert content[..at] + content[at..] == content;
    }
  }

  /** `n` copies of `b`. */
  function Repeat(b: u8, n: nat): (r: seq<u8>)
    ensures |r| == n
    ensures forall i :: 0 <= i < n ==> r[i] == b
  {
    seq(n, _ => b)
  }

  /** What `get()` returns, and the stream after it. */
  datatype Got = Got(c: int, after: StreamState)

  /**
    `get()`: on a good stream, the byte at the position, or -1 with eof set
    at the end; a stream that is not good yields -1 and stays as it is.
   */
  function GetStep(s: StreamState): (g: Got)
    requires s.Valid()
    ensures g.after.Valid()
    ensures g.c == -1 || (0 <= g.c < 256)
  {
    if !s.Good() then Got(-1, s)
    else if s.cursor < |s.content| then Got(s.content[s.cursor] as int, s.(cursor := s.cursor + 1))
    else Got(-1, s.(eof := true))
  }

  /**
    `put(b)`: on a good writable stream, writes `b` at the position and
    advances it; on a good stream opened for input only, the write fails and
    sets the bad flag; a stream that is not good stays as it is.
   */
  function PutStep(s: StreamState, b: u8): (r: StreamState)
    requires s.Valid()
    ensures r.Valid()
  {
    if !s.Good() then s
    else if !s.writable then s.(bad := true)
    else s.(content := Overwritten(s.content, s.cursor, [b]), cursor := s.cursor + 1)
  }

  /** `static_cast<tftp_u8>` of what `get()` returned: -1 becomes 0xFF. */
  function Byte(c: int): (b: u8)
    ensures 0 <= c < 256 ==> b == c
    ensures c == -1 ==> b == 0xFF
  {
    c % 256
  }

  class FileStream {
    var isOpen: bool
    var writable: bool
    var content: seq<u8>
    var cursor: nat
    var eof: bool
    var bad: bool

    function State(): StreamState
      reads this
    {
      StreamState(isOpen, writable, content, cursor, eof, bad)
    }

    ghost predicate Valid()
      reads this
    {
      State().Valid()
    }

    /** `std::fstream {}`. */
    constructor ()
      ensures State() == Unattached
    {
      isOpen, writable, content, cursor, eof, bad := false, false, [], 0, false, false;
    }

    /** `std::fstream {name, binary | in}` on a file whose bytes are `bytes`. */
    constructor OpenForInput(bytes: seq<u8>)
      ensures State() == OpenedForInput(bytes)
    {
      isOpen, writable, content, cursor, eof, bad := true, false, bytes, 0, false, false;
    }

    method Get() returns (c: int)
      requires Valid()
      modifies this
      ensures Got(c, State()) == GetStep(old(State()))
    {
      if eof || bad {
        c := -1;
      } else if cursor < |content| {
        c := content[cursor] as int;
        cursor := cursor + 1;
      } else {
        c := -1;
        eof := true;
      }
    }

    method Put(b: u8)
      requires Valid()
      modifies this
      ensures State() == PutStep(old(State()), b)
    {
      if eof || bad {
      } else if !writable {
        bad := true;
      } else {
        content := Overwritten(content, cursor, [b]);
        cursor := cursor + 1;
      }
    }
  }

  // ------------------------------------------------------------ Reading a chunk

  /** The bytes a chunk read collects, and the stream after it. */
  datatype Chunk = Chunk(bytes: seq<u8>, after: StreamState)

  /**
    The read loop with `pending` gets left: it stops at eof or when none are
    left. (The position in the measure keeps the verifier from unfolding a
    call with a literal count all the way down.)
   */
  function ReadLoop(s: StreamState, pending: nat): (r: Chunk)
    requires s.Valid()
    ensures r.after.Valid()
    ensures |r.bytes| <= pending
    ensures r.after.content == s.content && r.after.isOpen == s.isOpen && r.after.writable == s.writable
    ensures s.cursor <= r.after.cursor
    decreases pending, s.cursor
  {
    if s.eof || pending == 0 then Chunk([], s)
    else
      var g := GetStep(s);
      var rest := ReadLoop(g.after, pending - 1);
      Chunk([Byte(g.c)] + rest.bytes, rest.after)
  }

  /** `readOctetChunk`: the read loop with a full chunk pending. */
  function ReadChunk(s: StreamState): Chunk
    requires s.Valid()
  {
    ReadLoop(s, ChunkSize)
  }

  /** `rest` with `prefix` collected before it. */
  function After(prefix: seq<u8>, rest: Chunk): Chunk {
    Chunk(prefix + rest.bytes, rest.after)
  }

  /** One turn of the read loop: the byte of one get, then the loop with one get fewer. */
  lemma ReadLoopStep(s: StreamState, pending: nat, c: int, next: StreamState)
    requires s.Valid() && !s.eof && pending > 0
    requires GetStep(s) == Got(c, next)
    ensures next.Valid()
    ensures ReadLoop(s, pending) == After([Byte(c)], ReadLoop(next, pending - 1))
  {
  }

  /** On a good stream with at least `pending` bytes left, the loop takes the next `pending` bytes. */
  lemma {:induction false} ReadLoopTakesBytes(s: StreamState, pending: nat)
    requires s.Valid() && s.Good() && pending <= s.Remaining()
    ensures ReadLoop(s, pending) == Chunk(s.content[s.cursor..s.cursor + pending], s.(cursor := s.cursor + pending))
    decreases pending
  {
    if pending > 0 {
      var next := s.(cursor := s.cursor + 1);
      ReadLoopStep(s, pending, s.content[s.cursor] as int, next);
      ReadLoopTakesBytes(next, pending - 1);
      assert s.content[s.cursor..s.cursor + pending]
        == [s.content[s.cursor]] + next.content[next.cursor..next.cursor + (pending - 1)];
    }
  }

  /**
    On a good stream with fewer than `pending` bytes left, the loop takes the
    rest, then one 0xFF for the -1 of the get that reached the end, and eof
    is set.
   */
  lemma {:induction false} ReadLoopRunsOut(s: StreamState, pending: nat)
    requires s.Valid() && s.Good() && pending > s.Remaining()
    ensures ReadLoop(s, pending) == Chunk(s.content[s.cursor..] + [0xFF], s.(cursor := |s.content|, eof := true))
    decreases pending
  {
    if s.cursor < |s.content| {
      var next := s.(cursor := s.cursor + 1);
      ReadLoopStep(s, pending, s.content[s.cursor] as int, next);
      ReadLoopRunsOut(next, pending - 1);
      assert s.content[s.cursor..] == [s.content[s.cursor]] + next.content[next.cursor..];
    } else {
      var ended := s.(eof := true);
      ReadLoopStep(s, pending, -1, ended);
      assert ReadLoop(ended, pending - 1) == Chunk([], ended);
      assert s.content[s.cursor..] == [];
    }
  }

  /** Once eof is set the loop does not run: the chunk is empty and the stream unchanged. */
  lemma ReadLoopAtEof(s: StreamState, pending: nat)
    requires s.Valid() && s.eof
    ensures ReadLoop(s, pending) == Chunk([], s)
  {
  }

  /**
    A stream with a failed write but no eof never reaches eof: every get
    yields -1, so the loop collects `pending` bytes 0xFF.
   */
  lemma {:induction false} ReadLoopOnBadStream(s: StreamState, pending: nat)
    requires s.Valid() && !s.eof && s.bad
    ensures ReadLoop(s, pending) == Chunk(Repeat(0xFF, pending), s)
    decreases pending
  {
    if pending > 0 {
      ReadLoopOnBadStream(s, pending - 1);
      assert Repeat(0xFF, pending) == [0xFF] + Repeat(0xFF, pending - 1);
    }
  }

  /**
    A chunk is never longer than 512 bytes. On a good stream it is a full
    512 bytes exactly when at least 511 bytes remain (511 real bytes and the
    0xFF), and eof is set afterwards exactly when fewer than 512 remained.
   */
  lemma ReadChunkShape(s: StreamState)
    requires s.Valid()
    ensures |ReadChunk(s).bytes| <= ChunkSize
    ensures s.Good() ==> (|ReadChunk(s).bytes| == ChunkSize <==> s.Remaining() >= ChunkSize - 1)
    ensures s.Good() ==> (ReadChunk(s).after.eof <==> s.Remaining() < ChunkSize)
  {
    if s.eof {
      ReadLoopAtEof(s, ChunkSize);
    } else if s.bad {
      ReadLoopOnBadStream(s, ChunkSize);
    } else if ChunkSize <= s.Remaining() {
      ReadLoopTakesBytes(s, ChunkSize);
    } else {
      ReadLoopRunsOut(s, ChunkSize);
    }
  }

  /** `readOctetChunk`: gets bytes until eof or until 512 have been taken. */
  method ReadOctetChunk(fs: FileStream) returns (chunk: seq<u8>)
    requires fs.Valid()
    modifies fs
    ensures Chunk(chunk, fs.State()) == ReadChunk(old(fs.State()))
  {
    ghost var whole := ReadChunk(fs.State());
    chunk := [];
    var pendingRc: nat := ChunkSize;
    while !fs.eof && pendingRc > 0
      invariant fs.Valid()
      invariant whole == After(chunk, ReadLoop(fs.State(), pendingRc))
      decreases pendingRc
    {
      ghost var before := fs.State();
      var c := fs.Get();
      ReadLoopStep(before, pendingRc, c, fs.State());
      assert chunk + [Byte(c)] + ReadLoop(fs.State(), pendingRc - 1).bytes
        == chunk + ([Byte(c)] + ReadLoop(fs.State(), pendingRc - 1).bytes);
      chunk := chunk + [Byte(c)];
      pendingRc := pendingRc - 1;
    }
  }

  // ------------------------------------------------------------ Writing a chunk

  /** The puts still pending when the write loop stopped, and the stream then. */
  datatype Spilled = Spilled(left: nat, after: StreamState)

  /** The write loop putting `b` with `pending` puts left: it stops at eof, bad or none left. */
  function WriteLoop(s: StreamState, b: u8, pending: nat): (r: Spilled)
    requires s.Valid()
    ensures r.after.Valid()
    ensures r.left <= pending
    decreases pending
  {
    if s.eof || s.bad || pending == 0 then Spilled(pending, s)
    else WriteLoop(PutStep(s, b), b, pending - 1)
  }

  /** Whether every put ran, and the stream after the chunk write. */
  datatype ChunkWritten = ChunkWritten(ok: bool, after: StreamState)

  /**
    `writeOctetChunk`: the source pointer is read on every put but never
    advanced, so every put writes the first byte.
   */
  function WriteChunk(s: StreamState, data: seq<u8>): ChunkWritten
    requires s.Valid()
  {
    if |data| == 0 then ChunkWritten(true, s)
    else
      var w := WriteLoop(s, data[0], |data|);
      ChunkWritten(w.left == RwDoneN, w.after)
  }

  /** Writing `xs` then `ys` right after it is writing `xs + ys`. */
  lemma OverwrittenTwice(content: seq<u8>, at: nat, xs: seq<u8>, ys: seq<u8>)
    requires at <= |content|
    ensures Overwritten(Overwritten(content, at, xs), at + |xs|, ys) == Overwritten(content, at, xs + ys)
  {
    var once := Overwritten(content, at, xs);
    var lhs := Overwritten(once, at + |xs|, ys);
    var rhs := Overwritten(content, at, xs + ys);
    OverwrittenParts(content, at, xs);
    OverwrittenParts(once, at + |xs|, ys);
    OverwrittenParts(content, at, xs + ys);
    assert |lhs| == |rhs|;
    forall i | 0 <= i < |lhs|
      ensures lhs[i] == rhs[i]
    {
      if i < at {
        assert lhs[i] == lhs[..at][i] == once[..at][i];
        assert rhs[i] == rhs[..at][i];
      } else if i < at + |xs| {
        assert lhs[i] == lhs[..at + |xs|][i] == once[i] == once[at..at + |xs|][i - at];
        assert rhs[i] == rhs[at..at + |xs| + |ys|][i - at];
      } else if i < at + |xs| + |ys| {
        assert lhs[i] == lhs[at + |xs|..at + |xs| + |ys|][i - at - |xs|];
        assert rhs[i] == rhs[at..at + |xs| + |ys|][i - at];
      } else {
        assert lhs[i] == lhs[at + |xs| + |ys|..][i - at - |xs| - |ys|];
        assert once[at + |xs|..] == content[at + |xs|..];
        assert once[i] == once[at + |xs|..][i - at - |xs|];
        assert rhs[i] == rhs[at + |xs| + |ys|..][i - at - |xs| - |ys|];
      }
    }
  }

  /** One copy of `b` followed by `n` more. */
  lemma RepeatOneMore(b: u8, n: nat)
    ensures [b] + Repeat(b, n) == Repeat(b, n + 1)
  {
    assert forall i :: 0 <= i < n + 1 ==> ([b] + Repeat(b, n))[i] == b;
  }

  /** On a good writable stream all puts run and write `pending` copies of `b` from the position. */
  lemma {:induction false} WriteLoopOnWritableStream(s: StreamState, b: u8, pending: nat)
    requires s.Valid() && s.Good() && s.writable
    ensures WriteLoop(s, b, pending) == Spilled(0,
      s.(content := Overwritten(s.content, s.cursor, Repeat(b, pending)), cursor := s.cursor + pending))
    decreases pending
  {
    if pending == 0 {
      OverwrittenParts(s.content, s.cursor, []);
    } else {
      var next := PutStep(s, b);
      WriteLoopOnWritableStream(next, b, pending - 1);
      OverwrittenTwice(s.content, s.cursor, [b], Repeat(b, pending - 1));
      RepeatOneMore(b, pending - 1);
    }
  }

  /**
    `writeOctetChunk` succeeds exactly when the data is empty, or the stream
    is good and either writable or asked for a single put (the put that
    fails is the last one, so none is left pending). On a good writable
    stream it writes the first byte |data| times.
   */
  lemma WriteChunkOutcome(s: StreamState, data: seq<u8>)
    requires s.Valid()
    ensures WriteChunk(s, data).ok <==> |data| == 0 || (s.Good() && (s.writable || |data| == 1))
    ensures |data| == 0 ==> WriteChunk(s, data).after == s
    ensures |data| > 0 && s.Good() && s.writable ==>
      WriteChunk(s, data).after.content == Overwritten(s.content, s.cursor, Repeat(data[0], |data|))
    ensures |data| > 0 && s.Good() && !s.writable ==> WriteChunk(s, data).after == s.(bad := true)
  {
    if |data| > 0 && s.Good() {
      if s.writable {
        WriteLoopOnWritableStream(s, data[0], |data|);
      } else {
        assert WriteLoop(s.(bad := true), data[0], |data| - 1).left == |data| - 1;
      }
    }
  }

  /** The bytes written are not the data: [1, 2] is written as [1, 1]. */
  lemma WriteChunkRepeatsFirstByte()
    ensures WriteChunk(StreamState(true, true, [], 0, false, false), [1, 2]).after.content == [1, 1]
    ensures WriteChunk(StreamState(true, true, [], 0, false, false), [1, 2]).ok
  {
    var s := StreamState(true, true, [], 0, false, false);
    WriteChunkOutcome(s, [1, 2]);
    assert Repeat(1, 2) == [1, 1];
  }

  /** `writeOctetChunk`: puts the first byte once per byte of data, until eof or bad. */
  method WriteOctetChunk(fs: FileStream, data: seq<u8>) returns (ok: bool)
    requires fs.Valid()
    modifies fs
    ensures ChunkWritten(ok, fs.State()) == WriteChunk(old(fs.State()), data)
  {
    var pendingWc: nat := |data|;
    while !fs.eof && !fs.bad && pendingWc > 0
      invariant fs.Valid()
      invariant pendingWc <= |data|
      invariant |data| == 0 ==> fs.State() == old(fs.State())
      invariant |data| > 0 ==> WriteLoop(old(fs.State()), data[0], |data|) == WriteLoop(fs.State(), data[0], pendingWc)
      decreases pendingWc
    {
      fs.Put(data[0]);
      pendingWc := pendingWc - 1;
    }
    ok := pendingWc == RwDoneN;
  }

  // ------------------------------------------------------------ Transaction

  /** The context of one transfer: the file, the peer's port, the block number, the mode. */
  datatype Transaction = Transaction(fs: FileStream, tid: u16, block: u16, mode: DataMode)

  /** The value `{}` gives a Transaction: no file attached, tid 0, block 0, mode dud. */
  predicate IsDefault(t: Transaction)
    reads t.fs
  {
    t.fs.State() == Unattached && t.tid == TidDud && t.block == 0 && t.mode == Dud
  }

  /** `transactionReady`: a file is open, a peer is bound and the mode is known. */
  predicate TransactionReady(t: Transaction)
    reads t.fs
  {
    t.fs.isOpen && t.tid != TidDud && t.mode != Dud
  }

  /** A default context is never ready, and neither is one whose tid is still 0. */
  lemma DefaultNeverReady(t: Transaction)
    ensures IsDefault(t) ==> !TransactionReady(t)
    ensures t.tid == TidDud ==> !TransactionReady(t)
  {
  }
}
