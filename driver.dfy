/**
  The server: its five states, the two transition rules, the error-message
  table, and the MyServer object with one method per state and the service
  loop that dispatches on the state.

  The socket is not modelled. A receive is an input `Arrival` (status, peer
  port, bytes); a send appends the datagram to the `outbox` field. The file
  a read request names is an input too: its bytes come from a function of
  the file name.
 */
module Driver {
  import opened Types
  import opened Buffers
  import opened Messaging
  import opened Transactions

  datatype ServerState = Decode | Download | Done | Error | Stop

  datatype IOStatus = StatusOk | InvalidArgs | PipeClosed

  /** `IOResult`: the peer's port and the status of the socket call. */
  datatype IOResult = IOResult(port: u16, status: IOStatus)

  /** What one receive delivered: its status, the peer's port and the datagram's bytes. */
  datatype Arrival = Arrival(status: IOStatus, port: u16, bytes: seq<u8>)

  /** A datagram handed to the socket: the peer's port and the bytes sent. */
  datatype Datagram = Datagram(port: u16, bytes: seq<u8>)

  /** The used part of a buffer, which is what `sendTo(buffer, getLength(), …)` sends. */
  function Frame(s: BufferState): (bytes: seq<u8>)
    requires s.length <= |s.octets|
    ensures |bytes| == s.length
    ensures bytes == s.octets[..s.length]
    ensures s.length == 0 ==> bytes == []
  {
    s.octets[..s.length]
  }

  // ------------------------------------------------------------ error messages

  const ErrorMessages: seq<Text> := [
    "OK",
    "Server error",
    "File not found",
    "Access violation",
    "Memory / storage error",
    "Bad opcode",
    "Unknown TID",
    "File already exists",
    "Invalid user"
  ]

  /** `toErrorMsg`: the table entry at the code's number; the table has 9 entries, one per code. */
  function ErrorMsg(code: ErrorCode): (msg: Text)
    requires code <= LastErrorCode
    ensures |msg| > 0
  {
    ErrorMessages[code as int]
  }

  /** The table has one entry per error code and no two codes share a message. */
  lemma ErrorMessagesDistinct(a: ErrorCode, b: ErrorCode)
    requires a <= LastErrorCode && b <= LastErrorCode
    ensures |ErrorMessages| == LastErrorCode as int + 1
    ensures a != b ==> ErrorMsg(a) != ErrorMsg(b)
  {
  }

  /** The three messages the server can put in an ERROR reply. */
  lemma ErrorMessagesUsed()
    ensures ErrorMsg(NotDefined) == "Server error"
    ensures ErrorMsg(StorageIssue) == "Memory / storage error"
    ensures ErrorMsg(BadOperation) == "Bad opcode"
  {
  }

  // ------------------------------------------------------------ transitions

  /** The unconditional `transition(next)`: the next state is the one named. */
  function TransitionTo(next: ServerState): (r: ServerState)
    ensures r == next
  {
    next
  }

  /**
    The conditional `transition`: a failed socket call or file operation
    gives error; a request or acknowledgement with a full chunk count gives
    download and with a short count done; an ERROR message gives error; any
    other opcode, or a count above a chunk, gives decode.
   */
  function Transition(status: IOStatus, fileIoOk: bool, rwCount: nat, op: Opcode): (next: ServerState)
    ensures next != Stop
    ensures next == Error <==> status != StatusOk || !fileIoOk || op == Err
    ensures next == Download <==> status == StatusOk && fileIoOk && (op == Rrq || op == Ack) && rwCount == ChunkSize
    ensures next == Done <==> status == StatusOk && fileIoOk && (op == Rrq || op == Ack) && rwCount < ChunkSize
  {
    if status != StatusOk || !fileIoOk then Error
    else if op == Rrq && rwCount == ChunkSize then Download
    else if op == Rrq && rwCount < ChunkSize then Done
    else if op == Ack && rwCount == ChunkSize then Download
    else if op == Ack && rwCount < ChunkSize then Done
    else if op == Err then Error
    else Decode
  }

  /**
    Decoding always passes a full chunk count, so it never reaches done:
    a request or acknowledgement goes to download, everything else that was
    received goes back to decode or to error.
   */
  lemma DecodeNeverDone(status: IOStatus, op: Opcode)
    ensures Transition(status, true, ChunkSize, op) != Done
    ensures Transition(status, true, ChunkSize, op) == Download <==> status == StatusOk && (op == Rrq || op == Ack)
  {
  }

  /**
    After a DATA reply is sent the opcode passed is none, so whatever the
    chunk size the next state is decode (or error after a failed receive),
    while the same short count with the request's own opcode would give done.
   */
  lemma DownloadNeverDone(status: IOStatus, rwCount: nat)
    ensures Transition(status, true, rwCount, None) == (if status == StatusOk then Decode else Error)
    ensures rwCount < ChunkSize ==> Transition(StatusOk, true, rwCount, Rrq) == Done
    ensures rwCount < ChunkSize ==> Transition(StatusOk, true, rwCount, Ack) == Done
  {
  }

  /**
    The error classification of `stateError`: storage_issue after a socket
    error, else bad_operation for an opcode outside rrq..err, else not_defined.
   */
  function ErrorClass(hadSioError: bool, op: Opcode): (code: ErrorCode)
    ensures code == StorageIssue || code == BadOperation || code == NotDefined
    ensures code == StorageIssue <==> hadSioError
    ensures code == BadOperation <==> !hadSioError && !IsMessageOpcode(op)
  {
    if hadSioError then StorageIssue
    else if op < Rrq || op >= LastOpcode then BadOperation
    else NotDefined
  }

  // ------------------------------------------------------------ receiving

  /**
    The in-buffer after a receive: a successful one resets the buffer and
    leaves at most 596 bytes of the datagram at the front with the used length
    set to their count; a failed one leaves the buffer reset.
   */
  function ReceivedState(rx: Arrival): (s: BufferState)
    ensures |s.octets| == MsgSizeLimit && s.length <= MsgSizeLimit
    ensures Received(rx) ==> s.length == Min(|rx.bytes|, MsgSizeLimit)
    ensures Received(rx) ==> s.octets[..s.length] == rx.bytes[..s.length]
    ensures forall k :: s.length <= k < MsgSizeLimit ==> s.octets[k] == 0
    ensures !Received(rx) ==> s == BufferState(Zeroes(MsgSizeLimit), 0)
  {
    if Received(rx) then
      var count := Min(|rx.bytes|, MsgSizeLimit);
      BufferState(rx.bytes[..count] + Zeroes(MsgSizeLimit - count), count)
    else BufferState(Zeroes(MsgSizeLimit), 0)
  }

  /**
    Whether the receive delivered a datagram: `recvfrom` must succeed and
    return a positive count; a count of 0 is reported as pipe_closed.
   */
  predicate Received(rx: Arrival) {
    rx.status == StatusOk && |rx.bytes| > 0
  }

  /** The result a receive reports: the peer's port only when it delivered a datagram. */
  function ReceivedIo(rx: Arrival): (io: IOResult)
    ensures io.status == StatusOk <==> Received(rx)
    ensures io.status == StatusOk ==> io.port == rx.port
    ensures rx.status == StatusOk && |rx.bytes| == 0 ==> io.status == PipeClosed
  {
    if Received(rx) then IOResult(rx.port, StatusOk)
    else if rx.status == StatusOk then IOResult(0, PipeClosed)
    else IOResult(0, rx.status)
  }

  /** The message that decoding the arrival gives. */
  function Decoded(rx: Arrival): Message {
    ParseMessage(ReceivedState(rx))
  }

  /** The state decoding the arrival moves to. */
  function DecodeOutcome(rx: Arrival): ServerState {
    Transition(ReceivedIo(rx).status, true, ChunkSize, Decoded(rx).op)
  }

  /** An arrival the server acts on rather than dropping. */
  predicate Accepted(rx: Arrival) {
    DecodeOutcome(rx) != Decode
  }

  /**
    An arrival is dropped exactly when it was received and carries a WRQ, a
    DATA or an undefined opcode; a failed receive, an ERROR, a request or an
    acknowledgement is acted on.
   */
  lemma AcceptedArrivals(rx: Arrival)
    ensures Accepted(rx) <==> !Received(rx) || Decoded(rx).op in {Rrq, Ack, Err}
    ensures DecodeOutcome(rx) == Download <==> Received(rx) && Decoded(rx).op in {Rrq, Ack}
  {
  }

  /** Whether some element of the sequence satisfies `p`, scanning from the last one back. */
  ghost predicate SomeSatisfies<T>(xs: seq<T>, p: T -> bool)
    decreases |xs|
  {
    |xs| > 0 && (SomeSatisfies(xs[..|xs| - 1], p) || p(xs[|xs| - 1]))
  }

  /** The backward scan finds an element exactly when one exists. */
  lemma {:induction false} SomeSatisfiesFound<T>(xs: seq<T>, p: T -> bool)
    ensures SomeSatisfies(xs, p) <==> exists i :: 0 <= i < |xs| && p(xs[i])
    decreases |xs|
  {
    if |xs| > 0 {
      var init := xs[..|xs| - 1];
      SomeSatisfiesFound(init, p);
      if SomeSatisfies(init, p) {
        var i :| 0 <= i < |init| && p(init[i]);
        assert xs[i] == init[i];
      }
      if exists i :: 0 <= i < |xs| && p(xs[i]) {
        var i :| 0 <= i < |xs| && p(xs[i]);
        if i < |init| {
          assert init[i] == xs[i];
        }
      }
    }
  }

  /** A message the download state can serve: a request or an acknowledgement with its own payload. */
  predicate Downloadable(m: Message) {
    Paired(m) && (m.op == Rrq || m.op == Ack)
  }

  /**
    A protocol error in the download state: a peer other than the bound one,
    a request for a mode other than octet, or an acknowledgement of a block
    other than the current one.
   */
  predicate Rejected(t: Transaction, peer: u16, m: Message)
    requires Downloadable(m)
  {
    || (t.tid != TidDud && peer != t.tid)
    || (m.op == Rrq && m.payload.mode != Octet)
    || (m.op == Ack && m.payload.ackBlockN != t.block)
  }

  /** `recvfrom` into the buffer; see ReceivedState and ReceivedIo. */
  method ReceiveFrom(buffer: FixedBuffer, rx: Arrival) returns (io: IOResult)
    requires buffer.data.Length == MsgSizeLimit
    modifies buffer, buffer.data
    ensures buffer.State() == ReceivedState(rx)
    ensures io == ReceivedIo(rx)
  {
    buffer.Reset();
    if Received(rx) {
      var count := Min(|rx.bytes|, MsgSizeLimit);
      forall i | 0 <= i < count {
        buffer.data[i] := rx.bytes[i];
      }
      buffer.MarkLength(count);
      assert buffer.data[..] == rx.bytes[..count] + Zeroes(MsgSizeLimit - count);
      io := IOResult(rx.port, StatusOk);
    } else if rx.status == StatusOk {
      io := IOResult(0, PipeClosed);
    } else {
      io := IOResult(0, rx.status);
    }
  }

  // ------------------------------------------------------------ the server

  class MyServer {
    const inBuf: FixedBuffer
    const outBuf: FixedBuffer
    var context: Transaction
    var state: ServerState
    /** The halt flag; the prompt thread only ever clears it, so nothing sets it. */
    var halt: bool
    /** The datagrams handed to `sendTo`, in order. */
    var outbox: seq<Datagram>

    ghost predicate Valid()
      reads this, inBuf, outBuf, context.fs
    {
      && inBuf != outBuf
      && inBuf.data != outBuf.data
      && inBuf.data.Length == MsgSizeLimit
      && outBuf.data.Length == MsgSizeLimit
      && inBuf.length <= MsgSizeLimit
      && outBuf.length == 0
      && context.fs.Valid()
    }

    /** Two empty 596-byte buffers, a default context, state decode, halt clear. */
    constructor ()
      ensures Valid()
      ensures fresh(inBuf) && fresh(inBuf.data) && fresh(outBuf) && fresh(outBuf.data) && fresh(context.fs)
      ensures inBuf.State() == BufferState(Zeroes(MsgSizeLimit), 0)
      ensures outBuf.State() == BufferState(Zeroes(MsgSizeLimit), 0)
      ensures IsDefault(context) && state == Decode && !halt && outbox == []
    {
      inBuf := new FixedBuffer(MsgSizeLimit);
      outBuf := new FixedBuffer(MsgSizeLimit);
      var fs := new FileStream();
      context := Transaction(fs, TidDud, 0, Dud);
      state := Decode;
      halt := false;
      outbox := [];
    }

    /**
      `stateDecode`: receive into the in-buffer, parse it, and move on by the
      conditional transition with a full chunk count. The context is not
      touched.
     */
    method StateDecode(rx: Arrival) returns (io: IOResult, msg: Message)
      requires Valid()
      modifies this, inBuf, inBuf.data
      ensures Valid()
      ensures context == old(context) && halt == old(halt) && outbox == old(outbox)
      ensures inBuf.State() == ReceivedState(rx) && io == ReceivedIo(rx)
      ensures msg == Decoded(rx) && state == DecodeOutcome(rx)
      ensures state != Done && state != Stop
      ensures state == Download ==> Downloadable(msg)
    {
      io := ReceiveFrom(inBuf, rx);
      msg := ParseMessage(inBuf.State());
      state := Transition(io.status, true, ChunkSize, msg.op);
    }

    /**
      `stateDownload`: check the peer, then set up a request or advance on
      an acknowledgement, read the next chunk and serialise it as DATA into
      the out-buffer. Every protocol error goes to error with the context
      unchanged. The tid is written only while it is 0. Because the
      out-buffer's used length is 0, the DATA serialisation fails, so nothing
      is sent and the next state is error.
     */
    method StateDownload(lastIo: IOResult, msg: Message, file: seq<u8>) returns (io: IOResult, ok: bool)
      requires Valid()
      requires Downloadable(msg)
      modifies this, outBuf, outBuf.data, context.fs
      ensures Valid()
      ensures io == lastIo && !ok && state == Error
      ensures halt == old(halt) && outbox == old(outbox)
      ensures context.tid != old(context.tid) ==> old(context.tid) == TidDud
      ensures Rejected(old(context), lastIo.port, msg) ==>
        context == old(context) && unchanged(old(context.fs)) && outBuf.State() == old(outBuf.State())
      ensures !Rejected(old(context), lastIo.port, msg) && msg.op == Rrq ==>
        && fresh(context.fs)
        && context.tid == (if old(context.tid) == TidDud then lastIo.port else old(context.tid))
        && context.block == 1
        && context.mode == Octet
        && context.fs.State() == ReadChunk(OpenedForInput(file)).after
      ensures !Rejected(old(context), lastIo.port, msg) && msg.op == Ack ==>
        && context == old(context).(block := (old(context.block) + 1) % 0x1_0000)
        && context.fs.State() == ReadChunk(old(context.fs.State())).after
      ensures !Rejected(old(context), lastIo.port, msg) ==>
        outBuf.State() == BufferState(old(outBuf.data[..])[0 := context.block / 256][1 := context.block % 256], 0)
    {
      var peerTid := lastIo.port;
      if context.tid != TidDud && peerTid != context.tid {
        state := TransitionTo(Error);
        return lastIo, false;
      }
      if msg.op == Rrq {
        var request := msg.payload;
        if request.mode != Octet {
          state := TransitionTo(Error);
          return lastIo, false;
        }
        var fs := new FileStream.OpenForInput(file);
        var tid := if context.tid == TidDud then peerTid else context.tid;
        context := Transaction(fs, tid, 1, Octet);
      } else {
        var ackBlock := msg.payload.ackBlockN;
        if ackBlock != context.block {
          state := TransitionTo(Error);
          return lastIo, false;
        }
        context := context.(block := (context.block + 1) % 0x1_0000);
      }
      ok := SendChunk(lastIo);
      return lastIo, ok;
    }

    /**
      The tail of `stateDownload`: read the next chunk of the transaction's
      file, serialise it as DATA for the current block into the out-buffer,
      and on success send it and let `transition` pick the next state. From
      the empty out-buffer the serialisation fails: the block number is left
      at offset 0, nothing is sent, and the next state is error.
     */
    method SendChunk(lastIo: IOResult) returns (ok: bool)
      requires Valid()
      modifies this, outBuf, outBuf.data, context.fs
      ensures Valid()
      ensures !ok && state == Error
      ensures context == old(context) && halt == old(halt) && outbox == old(outbox)
      ensures context.fs.State() == ReadChunk(old(context.fs.State())).after
      ensures outBuf.State() == BufferState(old(outBuf.data[..])[0 := context.block / 256][1 := context.block % 256], 0)
    {
      ghost var before := outBuf.State();
      var chunkData := ReadOctetChunk(context.fs);
      var chunkSize: nat := |chunkData|;
      var reply := Message(Data, DataPayload(context.block, chunkData));
      FailedSerializationTrace(before, reply);
      var serializeOk := SerializeMessage(outBuf, reply);
      var datagram := Datagram(lastIo.port, Frame(outBuf.State()));
      var sent: seq<Datagram> := [];
      var next := TransitionTo(Error);
      if serializeOk {
        sent := [datagram];
        next := Transition(lastIo.status, true, chunkSize, None);
      }
      outbox := outbox + sent;
      state := next;
      return serializeOk;
    }

    /** `stateDone`: back to a default context and to decode. */
    method StateDone(lastIo: IOResult) returns (io: IOResult)
      requires Valid()
      modifies this
      ensures Valid()
      ensures io == lastIo
      ensures IsDefault(context) && fresh(context.fs) && state == Decode
      ensures halt == old(halt) && outbox == old(outbox)
    {
      var fs := new FileStream();
      context := Transaction(fs, TidDud, 0, Dud);
      state := TransitionTo(Decode);
      return lastIo;
    }

    /**
      `stateError`: classify the error, serialise an ERROR reply with the
      code's message, send it if that worked, and stop. The serialisation
      fails (the out-buffer's used length is 0), so nothing is sent; the
      code is left in byte 1 of the out-buffer.
     */
    method StateError(lastIo: IOResult, hadSioError: bool, msg: Message) returns (io: IOResult)
      requires Valid()
      modifies this, outBuf, outBuf.data
      ensures Valid()
      ensures io == lastIo && state == Stop
      ensures context == old(context) && halt == old(halt) && outbox == old(outbox)
      ensures outBuf.State() == BufferState(old(outBuf.data[..])[0 := 0][1 := ErrorClass(hadSioError, msg.op) as int], 0)
    {
      ghost var before := outBuf.State();
      var errcode := ErrorClass(hadSioError, msg.op);
      var reply := Message(Err, ErrorPayload(errcode, ErrorMsg(errcode)));
      FailedSerializationTrace(before, reply);
      var serializeOk := SerializeMessage(outBuf, reply);
      var datagram := Datagram(lastIo.port, Frame(outBuf.State()));
      var sent: seq<Datagram> := [];
      if serializeOk {
        sent := [datagram];
      }
      outbox := outbox + sent;
      state := TransitionTo(Stop);
      return lastIo;
    }

    /**
      `runService`: refuse to run on an unusable socket; otherwise dispatch
      on the state until stop (or until halt, which nothing sets). The
      arrivals are the datagrams the receives return in turn; when they run
      out in the decode state the loop ends, where the server would block in
      the next receive. The flag passed as `had_sio_error` is the success
      flag of the last download; ErrorClass gives the code each value of it
      selects.

      The service stops exactly when some arrival is acted on, and nothing
      is ever sent.
     */
    method RunService(usable: bool, inbox: seq<Arrival>, files: Text -> seq<u8>) returns (ran: bool)
      requires Valid() && state == Decode
      modifies this, inBuf, inBuf.data, outBuf, outBuf.data, context.fs
      ensures Valid()
      ensures ran == usable
      ensures !usable ==> state == old(state) && context == old(context)
      ensures !usable ==> unchanged(inBuf, inBuf.data, outBuf, outBuf.data, context.fs)
      ensures halt == old(halt) && outbox == old(outbox)
      ensures state == Stop || state == Decode
      ensures usable && !old(halt) ==>
        (state == Stop <==> exists i :: 0 <= i < |inbox| && Accepted(inbox[i]))
    {
      if !usable {
        return false;
      }
      var tempMsg := Message(None, DudPayload);
      var tempIo := IOResult(0, StatusOk);
      var serverIoOk := true;
      var consumed := 0;
      while !halt && state != Stop
        invariant Valid()
        invariant 0 <= consumed <= |inbox|
        invariant halt == old(halt) && outbox == old(outbox)
        invariant halt ==> state == Decode
        invariant context.fs == old(context.fs) || fresh(context.fs)
        invariant state != Done
        invariant state == Download ==> Downloadable(tempMsg)
        invariant state == Decode <==> !SomeSatisfies(inbox[..consumed], Accepted)
        decreases 4 * (|inbox| - consumed) + Rank(state)
      {
        if state == Decode {
          if consumed == |inbox| {
            break;
          }
          var sioInfo, msg := StateDecode(inbox[consumed]);
          assert inbox[..consumed + 1][..consumed] == inbox[..consumed];
          consumed := consumed + 1;
          tempMsg := msg;
          tempIo := sioInfo;
        } else if state == Download {
          var file := if tempMsg.payload.RWPayload? then files(tempMsg.payload.filename) else [];
          var prevSio, ioOk := StateDownload(tempIo, tempMsg, file);
          tempIo := prevSio;
          serverIoOk := ioOk;
        } else if state == Done {
          // Never reached: see DecodeNeverDone and DownloadNeverDone.
          assert false;
        } else if state == Error {
          tempIo := StateError(tempIo, serverIoOk, tempMsg);
        }
      }
      assert state == Decode ==> consumed == |inbox| || halt;
      assert inbox[..|inbox|] == inbox;
      SomeSatisfiesFound(inbox[..consumed], Accepted);
      SomeSatisfiesFound(inbox, Accepted);
      return true;
    }
  }

  /** A measure on states along the transitions the loop takes. */
  function Rank(s: ServerState): nat {
    match s
    case Stop => 0
    case Error => 1
    case Decode => 2
    case Done => 3
    case Download => 4
  }
}
