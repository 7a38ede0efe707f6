/**
  The TFTP wire codec as the server implements it: field readers and writers
  over a FixedBuffer, `parseMessage` and `serializeMessage`.

  Positions are size_t values; the out-of-range position 1024 is the failure
  sentinel that every reader and writer returns when it refuses. The code is
  modelled as written, including its departures from section 5 of RFC 1350:
  the 16-bit writer always writes at offset 0, the writers compare against the
  used length rather than the capacity and write no NUL terminator, and a text
  field without terminator reads as success.
 */
module Messaging {
  import opened Types
  import opened Buffers

  const MaxDataChunkSize: nat := 512
  const MaxPayloadSize: nat := 514
  /** `dud_payload_num`: the position that signals a failed field. */
  const DudPos: nat := 1024

  const ModeNameNetascii: Text := "netascii"
  const ModeNameMail: Text := "mail"
  const ModeNameOctet: Text := "octet"

  /** `toFileModeName`: netascii and mail have their own names; every other mode, dud included, is "octet". */
  function ToFileModeName(mode: DataMode): (name: Text)
    ensures |name| > 0
    ensures mode == Netascii ==> name == "netascii"
    ensures mode == Mail ==> name == "mail"
    ensures mode == Octet || mode == Dud ==> name == "octet"
  {
    if mode == Netascii then ModeNameNetascii
    else if mode == Mail then ModeNameMail
    else ModeNameOctet
  }

  /** The mode a request's mode string selects: exact, case-sensitive matches only; anything else is octet. */
  function ModeFromName(name: Text): (mode: DataMode)
    ensures mode != Dud
    ensures mode == Netascii <==> name == "netascii"
    ensures mode == Mail <==> name == "mail"
    ensures mode == Octet <==> name != "netascii" && name != "mail"
  {
    if name == ModeNameNetascii then Netascii
    else if name == ModeNameMail then Mail
    else Octet
  }

  /** Naming a mode and reading the name back gives the mode, except that dud comes back as octet. */
  lemma ModeNameRoundTrip(mode: DataMode)
    ensures ModeFromName(ToFileModeName(mode)) == (if mode == Dud then Octet else mode)
  {
  }

  /** Mode matching is case-sensitive, unlike section 5 of RFC 1350. */
  lemma ModeMatchingIsCaseSensitive()
    ensures ModeFromName("NETASCII") == Octet
    ensures ModeFromName("Mail") == Octet
    ensures ModeFromName("foobar") == Octet
  {
  }

  // ------------------------------------------------------------ field readers

  /** `HelperResult`: a field's value and the position after it (DudPos on failure). */
  datatype HelperResult<T> = HelperResult(data: T, currentPos: nat)

  /** The two bytes at `i` in network (big-endian) order. */
  function U16At(octets: seq<u8>, i: nat): u16
    requires i + 2 <= |octets|
  {
    (octets[i] as int) * 256 + octets[i + 1] as int
  }

  /**
    The guard of `readU16` and `writeU16`: `begin > length - 2` on size_t.
    Below a used length of 2 the subtraction wraps, and the guard then lets
    every realistic `begin` through.
   */
  predicate U16Refused(length: Size, begin: nat)
    ensures length >= 2 ==> (U16Refused(length, begin) <==> begin + 2 > length)
    ensures length < 2 ==> (U16Refused(length, begin) <==> begin + 2 > SizeModulus + length)
  {
    begin > SizeSub(length, 2)
  }

  /**
    `readU16`: refused positions give (0, DudPos); otherwise the big-endian
    value at `begin` and the position two bytes further. The read is not
    bounded by the used length when that is below 2, so `begin + 2` must lie
    inside the array whenever the guard lets the read through.
   */
  function ReadU16(s: BufferState, begin: nat): (r: HelperResult<u16>)
    requires U16Refused(s.length, begin) || begin + 2 <= |s.octets|
    ensures U16Refused(s.length, begin) ==> r == HelperResult(0, DudPos)
    ensures !U16Refused(s.length, begin) ==> r.currentPos == begin + 2 && r.data == U16At(s.octets, begin)
  {
    if begin > SizeSub(s.length, 2) then HelperResult(0, DudPos)
    else HelperResult(U16At(s.octets, begin), begin + 2)
  }

  /** The index of the first zero byte at or after `i`, or `end` when there is none before it. */
  function ScanText(octets: seq<u8>, i: nat, end: nat): (stop: nat)
    requires i <= end <= |octets|
    ensures i <= stop <= end
    ensures stop < end ==> octets[stop] == 0
    ensures forall k :: i <= k < stop ==> octets[k] != 0
    decreases end - i
  {
    if i == end || octets[i] == 0 then i else ScanText(octets, i + 1, end)
  }

  /** The text holds no NUL byte. */
  predicate NulFree(t: Text) {
    forall i :: 0 <= i < |t| ==> t[i] as int != 0
  }

  /**
    `readText`: fails only when `begin` is at or past the used length.
    Otherwise the bytes from `begin` up to the first zero or the used length,
    whichever comes first, and the position one past that stop: a missing
    terminator is not a failure.
   */
  function ReadText(s: BufferState, begin: nat): (r: HelperResult<Text>)
    requires begin >= s.length || s.length <= |s.octets|
    ensures begin >= s.length ==> r == HelperResult([], DudPos)
    ensures begin < s.length ==> begin < r.currentPos <= s.length + 1
    ensures begin < s.length ==> r.data == TextOf(s.octets[begin..r.currentPos - 1])
    ensures begin < s.length && r.currentPos - 1 < s.length ==> s.octets[r.currentPos - 1] == 0
    ensures NulFree(r.data)
  {
    if begin >= s.length then HelperResult([], DudPos)
    else
      var stop := ScanText(s.octets, begin, s.length);
      HelperResult(TextOf(s.octets[begin..stop]), stop + 1)
  }

  /** The loop of `readBlob`: up to `pending` bytes from `offset`, stopping at `end`. */
  function Gather(octets: seq<u8>, offset: nat, end: nat, pending: nat): (blob: seq<u8>)
    requires offset <= end <= |octets|
    ensures |blob| == Min(pending, end - offset)
    ensures blob == octets[offset..offset + |blob|]
    decreases pending
  {
    if pending > 0 && offset < end then [octets[offset]] + Gather(octets, offset + 1, end, pending - 1)
    else []
  }

  /**
    `readBlob`: fails only when `begin` is at or past the used length;
    otherwise the min(blobLength, length - begin) bytes from `begin`, and the
    position after them.
   */
  function ReadBlob(s: BufferState, begin: nat, blobLength: nat): (r: HelperResult<seq<u8>>)
    requires begin >= s.length || s.length <= |s.octets|
    ensures begin >= s.length ==> r == HelperResult([], DudPos)
    ensures begin < s.length ==> |r.data| == Min(blobLength, s.length - begin)
    ensures begin < s.length ==> r.data == s.octets[begin..begin + |r.data|]
    ensures begin < s.length ==> r.currentPos == begin + |r.data|
  {
    if begin >= s.length then HelperResult([], DudPos)
    else
      var blob := Gather(s.octets, begin, s.length, blobLength);
      HelperResult(blob, begin + |blob|)
  }

  // ------------------------------------------------------------ field writers

  /** What a writer reports and the buffer it leaves. */
  datatype Written = Written(ok: bool, pos: nat, state: BufferState)

  /**
    `writeU16`: same guard as `readU16`; when it passes, the big-endian value
    goes to bytes 0 and 1 whatever `begin` is, the used length is unchanged,
    and the position returned is `begin + 2`.
   */
  function PutU16(s: BufferState, begin: nat, value: u16): (w: Written)
    requires U16Refused(s.length, begin) || 2 <= |s.octets|
    ensures U16Refused(s.length, begin) ==> w == Written(false, DudPos, s)
    ensures !U16Refused(s.length, begin) ==> w.ok && w.pos == begin + 2
    ensures w.state.length == s.length && |w.state.octets| == |s.octets|
    ensures w.ok ==> U16At(w.state.octets, 0) == value
    ensures forall k :: 2 <= k < |s.octets| ==> w.state.octets[k] == s.octets[k]
  {
    if begin > SizeSub(s.length, 2) then Written(false, DudPos, s)
    else Written(true, begin + 2, BufferState(s.octets[0 := value / 256][1 := value % 256], s.length))
  }

  /**
    `writeText` and `writeBlob`: refused when `begin + |value|` reaches the
    current used length (not the capacity); otherwise `value` is copied to
    [begin, begin + |value|) with no terminator, every other byte and the used
    length stay, and the position returned is `begin + |value|`.
   */
  function PutOctets(s: BufferState, begin: nat, value: seq<u8>): (w: Written)
    requires begin + |value| >= s.length || begin + |value| <= |s.octets|
    ensures begin + |value| >= s.length ==> w == Written(false, DudPos, s)
    ensures begin + |value| < s.length ==> w.ok && w.pos == begin + |value|
    ensures w.state.length == s.length && |w.state.octets| == |s.octets|
    ensures w.ok ==> w.state.octets[begin..begin + |value|] == value
    ensures forall k :: 0 <= k < |s.octets| && !(w.ok && begin <= k < begin + |value|) ==> w.state.octets[k] == s.octets[k]
  {
    if begin + |value| >= s.length then Written(false, DudPos, s)
    else Written(true, begin + |value|, BufferState(s.octets[..begin] + value + s.octets[begin + |value|..], s.length))
  }

  /** Reading a 16-bit field back from where `writeU16` really put it, offset 0, gives the value. */
  lemma ReadU16AfterPutU16(s: BufferState, begin: nat, value: u16)
    requires 2 <= |s.octets|
    requires !U16Refused(s.length, begin)
    ensures ReadU16(PutU16(s, begin, value).state, 0) == HelperResult(value, 2)
  {
  }

  /**
    Reading at any `begin` past the first two bytes does not find the value:
    it finds whatever the buffer held there before the write. For example the
    ACK block written at 2 into a zeroed buffer reads back as 0.
   */
  lemma ReadU16AtBeginMissesPutU16(s: BufferState, begin: nat, value: u16)
    requires 2 <= begin && begin + 2 <= |s.octets|
    requires !U16Refused(s.length, begin)
    ensures ReadU16(PutU16(s, begin, value).state, begin) == ReadU16(s, begin)
    ensures ReadU16(PutU16(BufferState([0, 0, 0, 0, 0], 5), 2, 7).state, 2) == HelperResult(0, 4)
  {
  }

  /** A blob read of |value| bytes at `begin` returns what `writeBlob` wrote there. */
  lemma ReadBlobAfterPutOctets(s: BufferState, begin: nat, value: seq<u8>)
    requires s.length <= |s.octets|
    requires begin + |value| < s.length
    ensures ReadBlob(PutOctets(s, begin, value).state, begin, |value|) == HelperResult(value, begin + |value|)
  {
  }

  /** The first zero byte at or after `i` is found by the scan. */
  lemma {:induction false} ScanTextFindsNul(octets: seq<u8>, i: nat, end: nat, nul: nat)
    requires i <= nul < end <= |octets|
    requires octets[nul] == 0
    requires forall k :: i <= k < nul ==> octets[k] != 0
    ensures ScanText(octets, i, end) == nul
    decreases nul - i
  {
    if i < nul {
      ScanTextFindsNul(octets, i + 1, end, nul);
    }
  }

  /**
    Text written without terminator reads back when a zero byte already
    follows it: then the text read at `begin` is exactly the text written.
    ReadTextAfterPutOctetsNeedsNul gives the other direction.
   */
  lemma ReadTextAfterPutOctets(s: BufferState, begin: nat, value: Text)
    requires s.length <= |s.octets|
    requires begin + |value| < s.length
    requires NulFree(value)
    requires s.octets[begin + |value|] == 0
    ensures ReadText(PutOctets(s, begin, OctetsOf(value)).state, begin) == HelperResult(value, begin + |value| + 1)
  {
    var t := PutOctets(s, begin, OctetsOf(value)).state;
    var bytes := OctetsOf(value);
    forall k | begin <= k < begin + |value|
      ensures t.octets[k] != 0
    {
      assert t.octets[k] == t.octets[begin..begin + |value|][k - begin];
    }
    ScanTextFindsNul(t.octets, begin, t.length, begin + |value|);
    assert t.octets[begin..begin + |value|] == bytes;
    assert TextOf(bytes) == value;
  }

  /** When a non-zero byte follows the written text, the text read at `begin` is not the text written. */
  lemma ReadTextAfterPutOctetsNeedsNul(s: BufferState, begin: nat, value: Text)
    requires s.length <= |s.octets|
    requires begin + |value| < s.length
    requires s.octets[begin + |value|] != 0
    ensures ReadText(PutOctets(s, begin, OctetsOf(value)).state, begin).data != value
  {
    var t := PutOctets(s, begin, OctetsOf(value)).state;
    var r := ReadText(t, begin);
    var stop := r.currentPos - 1;
    assert t.octets[begin + |value|] != 0;
    assert |r.data| == stop - begin;
    assert stop != begin + |value| by {
      if stop < t.length {
        assert t.octets[stop] == 0;
      }
    }
  }

  // ------------------------------------------------------------ writer methods

  /** `writeU16` on a buffer; see PutU16. */
  method WriteU16(target: FixedBuffer, begin: nat, value: u16) returns (ok: bool, pos: nat)
    requires U16Refused(target.length, begin) || 2 <= target.data.Length
    modifies target.data
    ensures Written(ok, pos, target.State()) == PutU16(old(target.State()), begin, value)
  {
    if begin > SizeSub(target.length, 2) {
      return false, DudPos;
    }
    target.data[0] := value / 256;
    target.data[1] := value % 256;
    return true, begin + 2;
  }

  /** `writeBlob` on a buffer; see PutOctets. */
  method WriteBlob(target: FixedBuffer, begin: nat, value: seq<u8>) returns (ok: bool, pos: nat)
    requires begin + |value| >= target.length || begin + |value| <= target.data.Length
    modifies target.data
    ensures Written(ok, pos, target.State()) == PutOctets(old(target.State()), begin, value)
  {
    var targetLen := target.length;
    if begin + |value| >= targetLen {
      return false, DudPos;
    }
    var writeOffset := begin;
    var pending := |value|;
    while pending > 0 && writeOffset < targetLen
      invariant begin <= writeOffset <= begin + |value|
      invariant pending == begin + |value| - writeOffset
      invariant forall k :: 0 <= k < target.data.Length ==>
        target.data[k] == if begin <= k < writeOffset then value[k - begin] else old(target.data[k])
    {
      target.data[writeOffset] := value[writeOffset - begin];
      pending := pending - 1;
      writeOffset := writeOffset + 1;
    }
    ghost var was := old(target.data[..]);
    assert target.data[..] == was[..begin] + value + was[begin + |value|..];
    return true, writeOffset;
  }

  /** `writeText`: the same copy as `writeBlob`, of the string's bytes. */
  method WriteText(target: FixedBuffer, begin: nat, value: Text) returns (ok: bool, pos: nat)
    requires begin + |value| >= target.length || begin + |value| <= target.data.Length
    modifies target.data
    ensures Written(ok, pos, target.State()) == PutOctets(old(target.State()), begin, OctetsOf(value))
  {
    ok, pos := WriteBlob(target, begin, OctetsOf(value));
  }

  // ------------------------------------------------------------ parsing

  /** What the parser needs to stay inside the array: the used length within it, and room for the 16-bit reads that a wrapped guard lets through. */
  predicate Parsable(s: BufferState) {
    && s.length <= |s.octets|
    && 2 <= |s.octets|
    && (s.length < 2 ==> 4 <= |s.octets|)
  }

  const DecodeFailureText: Text := "Message decoding failed!"

  /**
    `parsePayload(RWOpt)`: the filename from offset 2, then the mode string
    after it; either read failing gives ("", dud).
   */
  function ParseRWPayload(s: BufferState): (p: Payload)
    requires Parsable(s)
    ensures p.RWPayload?
    ensures p.mode == Dud ==> p.filename == []
    ensures s.length <= 2 ==> p == RWPayload([], Dud)
    ensures p.mode == Dud <==>
      s.length <= 2 || ReadText(s, 2).currentPos == DudPos || ReadText(s, ReadText(s, 2).currentPos).currentPos == DudPos
    ensures s.length < DudPos - 1 ==> (p.mode == Dud <==> s.length <= 2 || ReadText(s, 2).currentPos >= s.length)
    ensures p.mode != Dud ==> p.filename == ReadText(s, 2).data
    ensures p.mode != Dud ==> p.mode == ModeFromName(ReadText(s, ReadText(s, 2).currentPos).data)
  {
    var name := ReadText(s, 2);
    if name.currentPos == DudPos then RWPayload([], Dud)
    else
      var mode := ReadText(s, name.currentPos);
      if mode.currentPos == DudPos then RWPayload([], Dud)
      else RWPayload(name.data, ModeFromName(mode.data))
  }

  /**
    `parsePayload(DataOpt)`: the block number at offset 2 and up to 512 bytes
    from offset 4. A datagram of 4 bytes or fewer, including a DATA with no
    data, gives (0, empty).
   */
  function ParseDataPayload(s: BufferState): (p: Payload)
    requires Parsable(s)
    ensures p.DataPayload?
    ensures s.length <= 4 ==> p == DataPayload(0, [])
    ensures s.length > 4 ==> p.blockN == U16At(s.octets, 2)
    ensures s.length > 4 ==> p.data == s.octets[4..4 + Min(MaxDataChunkSize, s.length - 4)]
  {
    var block := ReadU16(s, 2);
    if block.currentPos == DudPos then DataPayload(0, [])
    else
      var blob := ReadBlob(s, block.currentPos, MaxDataChunkSize);
      if blob.currentPos == DudPos then DataPayload(0, [])
      else DataPayload(block.data, blob.data)
  }

  /**
    `parsePayload(AckOpt)`: the block number at offset 2, or 0 when the guard
    refuses. With a used length below 2 the guard wraps and the bytes at 2
    and 3 are read beyond the used length.
   */
  function ParseAckPayload(s: BufferState): (p: Payload)
    requires Parsable(s)
    ensures p.AckPayload?
    ensures 2 <= s.length < 4 ==> p == AckPayload(0)
    ensures !(2 <= s.length < 4) ==> p == AckPayload(U16At(s.octets, 2))
  {
    var block := ReadU16(s, 2);
    if block.currentPos == DudPos then AckPayload(0)
    else AckPayload(block.data)
  }

  /**
    `parsePayload(ErrOpt)`: the error code at offset 2, cast so that only its
    low byte survives, and the message text from offset 4; either read failing
    gives (not_defined, "Message decoding failed!").
   */
  function ParseErrorPayload(s: BufferState): (p: Payload)
    requires Parsable(s)
    ensures p.ErrorPayload?
    ensures s.length <= 4 ==> p == ErrorPayload(NotDefined, DecodeFailureText)
    ensures 4 < s.length && ReadText(s, 4).currentPos == DudPos ==> p == ErrorPayload(NotDefined, DecodeFailureText)
    ensures 4 < s.length && ReadText(s, 4).currentPos != DudPos ==>
      p == ErrorPayload(ErrorCodeCast(U16At(s.octets, 2)), ReadText(s, 4).data)
    ensures 4 < s.length < DudPos - 1 ==> p.error == ErrorCodeCast(U16At(s.octets, 2))
    ensures 4 < s.length < DudPos - 1 ==> p.message == ReadText(s, 4).data
  {
    var code := ReadU16(s, 2);
    if code.currentPos == DudPos then ErrorPayload(NotDefined, DecodeFailureText)
    else
      var text := ReadText(s, code.currentPos);
      if text.currentPos == DudPos then ErrorPayload(NotDefined, DecodeFailureText)
      else ErrorPayload(ErrorCodeCast(code.data), text.data)
  }

  /**
    `parseMessage`: the opcode is the low byte of the 16-bit number at
    offset 0; opcodes 1..5 are kept with their payload (even a failed one),
    anything else gives (none, dud).
   */
  function ParseMessage(s: BufferState): (m: Message)
    requires Parsable(s)
    ensures Paired(m)
    ensures m.op == None || IsMessageOpcode(m.op)
    ensures IsMessageOpcode(OpcodeCast(U16At(s.octets, 0))) ==> m.op == OpcodeCast(U16At(s.octets, 0))
    ensures !IsMessageOpcode(OpcodeCast(U16At(s.octets, 0))) ==> m == Message(None, DudPayload)
    ensures m.op == Rrq || m.op == Wrq ==> m.payload == ParseRWPayload(s)
    ensures m.op == Data ==> m.payload == ParseDataPayload(s)
    ensures m.op == Ack ==> m.payload == ParseAckPayload(s)
    ensures m.op == Err ==> m.payload == ParseErrorPayload(s)
  {
    var opcode := ReadU16(s, 0);
    if opcode.currentPos >= DudPos then Message(None, DudPayload)
    else
      var op := OpcodeCast(opcode.data);
      if op == Rrq || op == Wrq then Message(op, ParseRWPayload(s))
      else if op == Data then Message(op, ParseDataPayload(s))
      else if op == Ack then Message(op, ParseAckPayload(s))
      else if op == Err then Message(op, ParseErrorPayload(s))
      else Message(None, DudPayload)
  }

  /** The opcode read at offset 0 never fails: the guard `0 > length - 2` is false for every length. */
  lemma OpcodeReadNeverFails(s: BufferState)
    requires 2 <= |s.octets|
    ensures ReadU16(s, 0) == HelperResult(U16At(s.octets, 0), 2)
  {
  }

  /** A two-byte datagram {0x00, 0x09} has an undefined opcode and parses as (none, dud). */
  lemma ParseUndefinedOpcode(s: BufferState)
    requires Parsable(s) && s.length == 2
    requires s.octets[0] == 0x00 && s.octets[1] == 0x09
    ensures ParseMessage(s) == Message(None, DudPayload)
  {
  }

  /** The wire opcode 0x0103 is read as DATA: the cast drops the high byte. */
  lemma ParseOpcodeLowByte(s: BufferState)
    requires Parsable(s)
    requires s.octets[0] == 0x01 && s.octets[1] == 0x03
    ensures ParseMessage(s).op == Data
  {
  }

  /** An RRQ for "f" in mode "foobar" is accepted as an octet-mode request. */
  lemma ParseRequestDefaultsToOctet()
    ensures var bytes := [0, 1, 102, 0, 102, 111, 111, 98, 97, 114, 0];
            ParseMessage(BufferState(bytes, |bytes|)) == Message(Rrq, RWPayload("f", Octet))
  {
    var bytes: seq<u8> := [0, 1, 102, 0, 102, 111, 111, 98, 97, 114, 0];
    var s := BufferState(bytes, |bytes|);
    ScanTextFindsNul(bytes, 2, |bytes|, 3);
    ScanTextFindsNul(bytes, 4, |bytes|, 10);
    assert bytes[2..3] == [102];
    assert TextOf([102]) == "f";
    assert bytes[4..10] == [102, 111, 111, 98, 97, 114];
    assert TextOf([102, 111, 111, 98, 97, 114]) == "foobar";
  }

  // ------------------------------------------------------------ serialisation

  /** What a serialiser reports and the buffer it leaves. */
  datatype Serialized = Serialized(ok: bool, state: BufferState)

  /** What the writers need to stay inside the array. */
  predicate Writable(s: BufferState) {
    s.length <= |s.octets| && 2 <= |s.octets|
  }

  /** A failed field write: `markLength(0)` and report failure. */
  function Abandon(s: BufferState): (r: Serialized)
    ensures !r.ok && r.state.length == 0 && r.state.octets == s.octets
  {
    Serialized(false, s.(length := 0))
  }

  /** The position after a payload's last field: text fields carry no terminator. */
  function EncodedLength(p: Payload): nat
    requires !p.DudPayload?
  {
    match p
    case RWPayload(filename, mode) => 2 + |filename| + |ToFileModeName(mode)|
    case DataPayload(_, data) => 4 + |data|
    case AckPayload(_) => 4
    case ErrorPayload(_, message) => 4 + |message|
  }

  /** When the payload's field writes all pass their guards against the used length `length`. */
  predicate Fits(p: Payload, length: Size)
    requires !p.DudPayload?
  {
    match p
    case RWPayload(_, _) => EncodedLength(p) < length && EncodedLength(p) != DudPos
    case DataPayload(_, _) => EncodedLength(p) < length
    case AckPayload(_) => !U16Refused(length, 2)
    case ErrorPayload(_, _) => EncodedLength(p) < length && EncodedLength(p) != DudPos
  }

  /**
    The four `serializePayload` overloads: fields from offset 2 on; any
    failing field sets the used length to 0 and reports failure; success sets
    the used length to the position after the last field.
   */
  function SerializedPayload(s: BufferState, p: Payload): (r: Serialized)
    requires Writable(s) && !p.DudPayload?
    ensures |r.state.octets| == |s.octets|
    ensures !r.ok ==> r.state.length == 0
    ensures r.ok ==> r.state.length == EncodedLength(p)
    ensures r.ok <==> Fits(p, s.length)
  {
    match p
    case RWPayload(filename, mode) =>
      var name := PutOctets(s, 2, OctetsOf(filename));
      if !name.ok then Abandon(name.state)
      else
        var modeName := PutOctets(name.state, name.pos, OctetsOf(ToFileModeName(mode)));
        if !modeName.ok || modeName.pos == DudPos then Abandon(modeName.state)
        else Serialized(true, modeName.state.(length := modeName.pos))
    case DataPayload(blockN, data) =>
      var block := PutU16(s, 2, blockN % 0x1_0000);
      if !block.ok then Abandon(block.state)
      else
        var blob := PutOctets(block.state, block.pos, data);
        if !blob.ok then Abandon(blob.state)
        else Serialized(true, blob.state.(length := blob.pos))
    case AckPayload(blockN) =>
      var block := PutU16(s, 2, blockN);
      if !block.ok || block.pos == DudPos then Abandon(block.state)
      else Serialized(true, block.state.(length := block.pos))
    case ErrorPayload(error, message) =>
      var code := PutU16(s, 2, error as int);
      if !code.ok then Abandon(code.state)
      else
        var text := PutOctets(code.state, code.pos, OctetsOf(message));
        if !text.ok || text.pos == DudPos then Abandon(text.state)
        else Serialized(true, text.state.(length := text.pos))
  }

  /**
    `serializeMessage`: the opcode at offset 0, then the payload; an opcode
    outside 1..5 reports failure with the used length unchanged.
   */
  function SerializedMessage(s: BufferState, m: Message): (r: Serialized)
    requires Writable(s) && Paired(m)
    ensures |r.state.octets| == |s.octets|
    ensures !IsMessageOpcode(m.op) ==> !r.ok && r.state.length == s.length
    ensures IsMessageOpcode(m.op) && !r.ok ==> r.state.length == 0
    ensures r.ok <==> IsMessageOpcode(m.op) && Fits(m.payload, s.length)
    ensures r.ok ==> r.state.length == EncodedLength(m.payload)
  {
    var opcode := PutU16(s, 0, m.op as int);
    if !opcode.ok || opcode.pos == DudPos then Abandon(opcode.state)
    else if IsMessageOpcode(m.op) then SerializedPayload(opcode.state, m.payload)
    else Serialized(false, opcode.state)
  }

  /**
    From an empty buffer (used length 0) RRQ, WRQ, DATA and ERROR always
    fail and leave the length 0, while ACK succeeds with length 4.
   */
  lemma SerializeFromEmpty(s: BufferState, m: Message)
    requires Writable(s) && Paired(m)
    requires s.length == 0
    ensures var r := SerializedMessage(s, m);
            (m.op == Ack <==> r.ok) && r.state.length == (if m.op == Ack then 4 else 0)
  {
    if IsMessageOpcode(m.op) {
      assert Fits(m.payload, 0) <==> m.op == Ack;
    }
  }

  /** The 16-bit word that ends up at offset 0: the second 16-bit write overwrites the opcode. */
  function HeadWord(m: Message): u16
    requires Paired(m) && IsMessageOpcode(m.op)
  {
    match m.payload
    case RWPayload(_, _) => m.op as int
    case DataPayload(blockN, _) => blockN % 0x1_0000
    case AckPayload(blockN) => blockN
    case ErrorPayload(error, _) => error as int
    case DudPayload => 0
  }

  /**
    The bytes of a successful serialisation: bytes 0 and 1 hold the opcode
    only for RRQ/WRQ (the block number or error code overwrote it otherwise),
    bytes 2 and 3 of DATA and ERROR keep what was there, and the fields follow
    without terminators.
   */
  lemma SerializedLayout(s: BufferState, m: Message)
    requires Writable(s) && Paired(m)
    requires SerializedMessage(s, m).ok
    ensures var t := SerializedMessage(s, m).state;
            && U16At(t.octets, 0) == HeadWord(m)
            && (m.payload.RWPayload? ==>
                  var n := 2 + |m.payload.filename|;
                  t.octets[2..n] == OctetsOf(m.payload.filename)
                  && t.octets[n..t.length] == OctetsOf(ToFileModeName(m.payload.mode)))
            && (m.payload.DataPayload? ==> t.octets[2..4] == s.octets[2..4] && t.octets[4..t.length] == m.payload.data)
            && (m.payload.ErrorPayload? ==> t.octets[2..4] == s.octets[2..4] && t.octets[4..t.length] == OctetsOf(m.payload.message))
  {
    var w0 := PutU16(s, 0, m.op as int);
    match m.payload
    case RWPayload(filename, mode) =>
      var name := PutOctets(w0.state, 2, OctetsOf(filename));
      var modeName := PutOctets(name.state, name.pos, OctetsOf(ToFileModeName(mode)));
      var n := 2 + |filename|;
      assert modeName.state.octets[2..n] == name.state.octets[2..n];
    case DataPayload(blockN, data) =>
    case AckPayload(_) =>
    case ErrorPayload(error, message) =>
  }

  /**
    From an empty buffer a DATA or ERROR serialisation fails, and what it
    leaves behind is its second 16-bit field (block number or error code),
    written over the opcode at offset 0; the used length stays 0.
   */
  lemma FailedSerializationTrace(s: BufferState, m: Message)
    requires Writable(s) && Paired(m) && s.length == 0
    requires m.op == Data || m.op == Err
    ensures SerializedMessage(s, m)
      == Serialized(false, BufferState(s.octets[0 := HeadWord(m) / 256][1 := HeadWord(m) % 256], 0))
  {
    var w0 := PutU16(s, 0, m.op as int);
    var w1 := PutU16(w0.state, 2, HeadWord(m));
    assert w1.state.octets == s.octets[0 := HeadWord(m) / 256][1 := HeadWord(m) % 256];
  }

  /**
    Parsing what was serialised does not give the message back: ACK 7
    serialised into an empty buffer leaves 0x00 0x07 at offset 0, which parses
    as an undefined opcode.
   */
  lemma AckDoesNotRoundTrip()
    ensures var s := BufferState(Zeroes(8), 0);
            var r := SerializedMessage(s, Message(Ack, AckPayload(7)));
            r.ok && ParseMessage(r.state) == Message(None, DudPayload)
  {
    var s := BufferState(Zeroes(8), 0);
    var r := SerializedMessage(s, Message(Ack, AckPayload(7)));
    SerializeFromEmpty(s, Message(Ack, AckPayload(7)));
    SerializedLayout(s, Message(Ack, AckPayload(7)));
    assert OpcodeCast(U16At(r.state.octets, 0)) == 7;
  }

  // ------------------------------------------------------------ serialiser methods

  /** `serializePayload` for RRQ/WRQ; see SerializedPayload. */
  method SerializeRWPayload(target: FixedBuffer, p: Payload) returns (ok: bool)
    requires Writable(target.State()) && p.RWPayload?
    modifies target, target.data
    ensures Serialized(ok, target.State()) == SerializedPayload(old(target.State()), p)
  {
    var fieldOk1, pos1 := WriteText(target, 2, p.filename);
    if !fieldOk1 {
      target.MarkLength(0);
      return false;
    }
    var fieldOk2, pos2 := WriteText(target, pos1, ToFileModeName(p.mode));
    if !fieldOk2 || pos2 == DudPos {
      target.MarkLength(0);
      return false;
    }
    target.MarkLength(pos2);
    return true;
  }

  /** `serializePayload` for DATA; see SerializedPayload. */
  method SerializeDataPayload(target: FixedBuffer, p: Payload) returns (ok: bool)
    requires Writable(target.State()) && p.DataPayload?
    modifies target, target.data
    ensures Serialized(ok, target.State()) == SerializedPayload(old(target.State()), p)
  {
    var fieldOk1, pos1 := WriteU16(target, 2, p.blockN % 0x1_0000);
    if !fieldOk1 {
      target.MarkLength(0);
      return false;
    }
    var fieldOk2, pos2 := WriteBlob(target, pos1, p.data);
    if !fieldOk2 {
      target.MarkLength(0);
      return false;
    }
    target.MarkLength(pos2);
    return true;
  }

  /** `serializePayload` for ACK; see SerializedPayload. */
  method SerializeAckPayload(target: FixedBuffer, p: Payload) returns (ok: bool)
    requires Writable(target.State()) && p.AckPayload?
    modifies target, target.data
    ensures Serialized(ok, target.State()) == SerializedPayload(old(target.State()), p)
  {
    var fieldOk1, pos1 := WriteU16(target, 2, p.ackBlockN);
    if !fieldOk1 || pos1 == DudPos {
      target.MarkLength(0);
      return false;
    }
    target.MarkLength(pos1);
    return true;
  }

  /** `serializePayload` for ERROR; see SerializedPayload. */
  method SerializeErrorPayload(target: FixedBuffer, p: Payload) returns (ok: bool)
    requires Writable(target.State()) && p.ErrorPayload?
    modifies target, target.data
    ensures Serialized(ok, target.State()) == SerializedPayload(old(target.State()), p)
  {
    var fieldOk1, pos1 := WriteU16(target, 2, p.error as int);
    if !fieldOk1 {
      target.MarkLength(0);
      return false;
    }
    var fieldOk2, pos2 := WriteText(target, pos1, p.message);
    if !fieldOk2 || pos2 == DudPos {
      target.MarkLength(0);
      return false;
    }
    target.MarkLength(pos2);
    return true;
  }

  /** `serializeMessage`; see SerializedMessage. */
  method SerializeMessage(target: FixedBuffer, m: Message) returns (ok: bool)
    requires Writable(target.State()) && Paired(m)
    modifies target, target.data
    ensures Serialized(ok, target.State()) == SerializedMessage(old(target.State()), m)
  {
    var fieldOk0, pos0 := WriteU16(target, 0, m.op as int);
    if !fieldOk0 || pos0 == DudPos {
      target.MarkLength(0);
      return false;
    }
    if m.op == Rrq || m.op == Wrq {
      ok := SerializeRWPayload(target, m.payload);
    } else if m.op == Data {
      ok := SerializeDataPayload(target, m.payload);
    } else if m.op == Ack {
      ok := SerializeAckPayload(target, m.payload);
    } else if m.op == Err {
      ok := SerializeErrorPayload(target, m.payload);
    } else {
      ok := false;
    }
  }
}
