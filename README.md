# A TFTP read-only server, modelled in Dafny

This project models the core of a small TFTP server written in C++. The server
answers read requests (RRQ) over UDP as described in RFC 1350. The model has
five modules, one per part of the program:

- `Types` (types.dfy): the opcode, transfer mode and error code enumerations,
  the five payload shapes and the message. Opcode and ErrorCode are byte-valued
  newtypes, because the C++ enums have `unsigned char` as underlying type and
  are built from wire numbers by a cast.
- `Buffers` (buffers.dfy): the `FixedBuffer` class, which holds an N-byte array
  and a used length, and the read-only `BufferView`.
- `Messaging` (messaging.dfy): the wire codec. It has the field readers and
  writers, `parseMessage` and `serializeMessage`. Each field writer and
  serialiser is a method on a `FixedBuffer`, proved against a function on
  buffer values.
- `Transactions` (transaction.dfy): the transfer constants, the per-transfer
  context, and the two chunk loops over a file stream. The stream is a `class`
  whose `Get` and `Put` methods change its position and flags.
- `Driver` (driver.dfy): the server's state machine. It has the error-message
  table, the two `transition` rules, and the `MyServer` class with one method
  per state. `RunService` is the service loop that dispatches on the state.

The code is modelled as written, including where it departs from RFC 1350:

- `writeU16` always writes at offset 0.
- The 16-bit guards compute `length - 2` on size_t, which wraps when the length
  is below 2.
- The text and blob writers compare against the used length, not the capacity,
  and write no terminator.
- A text field without a terminator reads as success.
- Mode names match case-sensitively.
- The chunk reader appends 0xFF for the `-1` of the `get()` that hits end of
  file.
- The chunk writer repeats the first byte of its data.

Proved consequences for the server as a whole:

- The out-buffer's used length starts at 0, and every failed serialisation sets
  it back to 0. From length 0 a DATA or ERROR serialisation always fails, so
  the server never sends a datagram.
- Every request or acknowledgement that decoding accepts ends in error and then
  stop. `RunService` stops exactly when some arrival is acted on.
- The done state is never reached. Decoding passes a full chunk count, and the
  download state passes the opcode `none`.

## Model

| member | source | states |
|---|---|---|
| Types.OpcodeCast | includes/mytftp/messaging.hpp:271 | casting a 16-bit number to Opcode keeps its low byte; numbers below 256 are kept whole |
| Types.ErrorCodeCast | includes/mytftp/messaging.hpp:256 | casting a 16-bit number to ErrorCode keeps its low byte; numbers up to `last` are kept whole |
| Types.EnumValues | includes/mytftp/types.hpp:7-36 | rrq..err are 1..5, none is 6 and is `last`; the modes are 0..3 with `last` = dud; the error codes are 0..8 with `last` = no_user, nine in all |
| Types.PairingNotEnforced | includes/mytftp/types.hpp:59-62 | a message may pair an opcode with another opcode's payload: the type does not enforce the pairing |
| Types.CastsKeepLowByte | includes/mytftp/types.hpp:7-36 | a cast depends only on the low byte: 0x0104 becomes ack and 0x0102 becomes file_not_found |
| Buffers.SizeSub | includes/mytftp/messaging.hpp:48 | size_t subtraction: exact when it does not go below zero, otherwise wraps modulo 2^64 |
| Buffers.ViewEquals | includes/mybsock/buffers.hpp:28-43 | views of different lengths are unequal; a null left view is unequal to everything; two non-null views are equal iff their bytes are |
| Buffers.ViewEqualsNotSymmetric | includes/mybsock/buffers.hpp:36 | since only the left pointer is tested for null, an empty view equals the null view but not the other way round |
| Buffers.FixedBuffer.constructor | includes/mybsock/buffers.hpp:69-72 | a new buffer has used length 0 and all N bytes zero |
| Buffers.FixedBuffer.GetSize | includes/mybsock/buffers.hpp:86-88 | the size is always the capacity N |
| Buffers.FixedBuffer.GetLength | includes/mybsock/buffers.hpp:78-80 | the used length as last set; what ObserversAgree relates to isFull and isEmpty |
| Buffers.FixedBuffer.IsEmpty | includes/mybsock/buffers.hpp:90-92 | empty iff the used length is 0; see ObserversAgree |
| Buffers.FixedBuffer.IsFull | includes/mybsock/buffers.hpp:94-96 | full iff the used length reaches the capacity N; see ObserversAgree |
| Buffers.BufferView.Truthy | includes/mybsock/buffers.hpp:24-26 | a truthy view has positive length, and the null view is never truthy |
| Buffers.ObserversAgree | includes/mybsock/buffers.hpp:78-96 | full iff length >= N, empty iff length = 0, and an empty buffer is never full because N > 0 |
| Buffers.FixedBuffer.MarkLength | includes/mybsock/buffers.hpp:82-84 | sets the used length to any size_t, with no bound against N, and leaves the bytes as they were |
| Buffers.FixedBuffer.AccessOctet | includes/mybsock/buffers.hpp:98-100 | yields the byte at the index iff the index is below N, and the out-of-range outcome otherwise |
| Buffers.FixedBuffer.AppendOctet | includes/mybsock/buffers.hpp:102-110 | on a full buffer returns false and changes nothing; otherwise stores the byte at the old length and increments the length |
| Buffers.FixedBuffer.Reset | includes/mybsock/buffers.hpp:112-115 | zeroes all N bytes and the used length |
| Buffers.MakeView | includes/mybsock/buffers.hpp:117-123 | the null view iff begin + length >= N; otherwise a view of exactly `length` bytes starting at `begin` |
| Buffers.MakeViewTruthy | includes/mybsock/buffers.hpp:24-26 | a view that `makeView` returns is truthy iff length > 0 and begin + length < N |
| Messaging.ToFileModeName | includes/mytftp/messaging.hpp:28-36 | netascii is named "netascii", mail "mail", and every other mode including dud "octet" |
| Messaging.ModeFromName | includes/mytftp/messaging.hpp:191-199 | a request's mode string selects netascii iff it is exactly "netascii", mail iff it is exactly "mail", and octet otherwise; never dud |
| Messaging.ModeNameRoundTrip | includes/mytftp/messaging.hpp:28-36 | reading back a mode's name gives the mode, except that dud comes back as octet |
| Messaging.ModeMatchingIsCaseSensitive | includes/mytftp/messaging.hpp:193-199 | "NETASCII", "Mail" and unknown names all select octet |
| Messaging.U16Refused | includes/mytftp/messaging.hpp:48 | with used length L >= 2 the guard refuses iff begin + 2 > L; with L < 2 it refuses only beyond 2^64 + L - 2 |
| Messaging.ReadU16 | includes/mytftp/messaging.hpp:45-57 | refused: (0, 1024); otherwise the big-endian value at `begin` and position begin + 2 |
| Messaging.OpcodeReadNeverFails | includes/mytftp/messaging.hpp:265-269 | the opcode read at offset 0 never fails, whatever the used length |
| Messaging.ScanText | includes/mytftp/messaging.hpp:71-79 | stops at the first zero byte at or after `i`, or at the end when there is none |
| Messaging.ScanTextFindsNul | includes/mytftp/messaging.hpp:71-79 | when a zero byte follows only non-zero bytes, the scan stops exactly at it |
| Messaging.ReadText | includes/mytftp/messaging.hpp:60-86 | fails iff begin >= L; otherwise the NUL-free bytes from `begin` to the first zero or to L, and position stop + 1; a missing terminator is a success |
| Messaging.Gather | includes/mytftp/messaging.hpp:101-105 | the copy loop takes min(pending, end - offset) bytes, exactly those from `offset` |
| Messaging.ReadBlob | includes/mytftp/messaging.hpp:89-111 | fails iff begin >= L; otherwise the min(blob_length, L - begin) bytes from `begin`, and the position after them |
| Messaging.PutU16 | includes/mytftp/messaging.hpp:114-125 | refused as readU16 is; otherwise the big-endian value lands at bytes 0 and 1 whatever `begin` is, bytes from 2 on and the length are unchanged, position begin + 2 |
| Messaging.ReadU16AfterPutU16 | includes/mytftp/messaging.hpp:114-125 | reading at offset 0 after a write gives the value written |
| Messaging.ReadU16AtBeginMissesPutU16 | includes/mytftp/messaging.hpp:122 | for every buffer and every accepted `begin` at or past 2, reading at `begin` after the write gives what was there before it, which is the value written only if the buffer already held it there (e.g. an ACK block written at 2 into zeroes reads back as 0) |
| Messaging.PutOctets | includes/mytftp/messaging.hpp:128-173 | fails iff begin + |value| >= L; otherwise the value lands at [begin, begin + |value|) with no terminator, everything else stays, position begin + |value| |
| Messaging.ReadBlobAfterPutOctets | includes/mytftp/messaging.hpp:152-173 | a blob read at `begin` of |value| bytes returns what the blob writer wrote |
| Messaging.ReadTextAfterPutOctets | includes/mytftp/messaging.hpp:128-149 | written NUL-free text reads back, with the position after the following zero, when a zero byte already follows it |
| Messaging.ReadTextAfterPutOctetsNeedsNul | includes/mytftp/messaging.hpp:128-149 | when a non-zero byte follows the written text, the text read back is not the text written |
| Messaging.WriteU16 | includes/mytftp/messaging.hpp:114-125 | the method's outcome and the buffer it leaves are those of PutU16 |
| Messaging.WriteBlob | includes/mytftp/messaging.hpp:152-173 | the copy loop's outcome and the buffer it leaves are those of PutOctets |
| Messaging.WriteText | includes/mytftp/messaging.hpp:128-149 | the same as the blob writer, on the string's bytes |
| Messaging.ParseRWPayload | includes/mytftp/messaging.hpp:175-205 | always an RW payload; ("", dud) when either text read fails (length <= 2, or either read returns position 1024; for L < 1023 that is exactly when the position after the name's terminator, stop + 1, reaches L, so also when that terminator is the last used byte); otherwise the name read at 2 and the mode its string selects |
| Messaging.ParseDataPayload | includes/mytftp/messaging.hpp:207-224 | (0, empty) when length <= 4; otherwise the block at offset 2 and up to 512 bytes from offset 4 |
| Messaging.ParseAckPayload | includes/mytftp/messaging.hpp:226-237 | 0 when 2 <= length < 4; otherwise the 16-bit number at offset 2, read past the used length when the guard wraps |
| Messaging.ParseErrorPayload | includes/mytftp/messaging.hpp:239-259 | (not_defined, "Message decoding failed!") when length <= 4 or when the text read from offset 4 returns position 1024 (possible only for L >= 1023); otherwise the low byte of the code at offset 2 and the text from offset 4 |
| Messaging.ParseMessage | includes/mytftp/messaging.hpp:261-284 | (none, dud) when the opcode's low byte is outside 1..5; otherwise that opcode with its own payload parser's result, even a failed one |
| Messaging.ParseUndefinedOpcode | includes/mytftp/messaging.hpp:283 | the two-byte datagram 00 09 parses as (none, dud) |
| Messaging.ParseOpcodeLowByte | includes/mytftp/messaging.hpp:271 | the wire opcode 0x0103 parses as DATA |
| Messaging.ParseRequestDefaultsToOctet | includes/mytftp/messaging.hpp:191-199 | an RRQ for "f" in mode "foobar" parses as an octet-mode request for "f" |
| Messaging.SerializedPayload | includes/mytftp/messaging.hpp:286-366 | succeeds iff every field passes its guard against the used length; success sets the length to the position after the last field; failure sets it to 0 |
| Messaging.SerializedMessage | includes/mytftp/messaging.hpp:368-391 | an opcode outside 1..5 fails with the length unchanged; otherwise success iff the payload fits, and the length is then the encoded length |
| Messaging.SerializeFromEmpty | includes/mytftp/messaging.hpp:286-391 | from used length 0, RRQ, WRQ, DATA and ERROR fail with length 0, and ACK succeeds with length 4 |
| Messaging.SerializedLayout | includes/mytftp/messaging.hpp:286-391 | after a success, offset 0 holds the last 16-bit field written; the text and blob fields follow from offset 2 or 4 without terminators |
| Messaging.FailedSerializationTrace | includes/mytftp/messaging.hpp:308-328 | from length 0, DATA and ERROR fail and leave their block number or error code at offset 0, with length 0 |
| Messaging.AckDoesNotRoundTrip | includes/mytftp/messaging.hpp:330-343 | parse after serialise is not the identity: ACK 7 serialised from length 0 parses as (none, dud) |
| Messaging.SerializeRWPayload | includes/mytftp/messaging.hpp:286-306 | the method's outcome and buffer are those of SerializedPayload |
| Messaging.SerializeDataPayload | includes/mytftp/messaging.hpp:308-328 | the method's outcome and buffer are those of SerializedPayload |
| Messaging.SerializeAckPayload | includes/mytftp/messaging.hpp:330-343 | the method's outcome and buffer are those of SerializedPayload |
| Messaging.SerializeErrorPayload | includes/mytftp/messaging.hpp:345-366 | the method's outcome and buffer are those of SerializedPayload |
| Messaging.SerializeMessage | includes/mytftp/messaging.hpp:368-391 | the method's outcome and buffer are those of SerializedMessage |
| Transactions.MsgSizeLimitValue | includes/mytftpd/transaction.hpp:10-17 | the message size limit is 2 + 64 + 1 + 16 + 1 + 512 = 596; the chunk size is 512 and the dud tid is 0 |
| Transactions.TransactionReady | includes/mytftpd/transaction.hpp:32-34 | ready iff the file is open, the tid is not 0 and the mode is not dud; DefaultNeverReady is its partner |
| Transactions.DefaultNeverReady | includes/mytftpd/transaction.hpp:25-34 | a default context, or any context with tid 0, is not ready |
| Transactions.OpenedForInput | src/mytftpd/driver.cpp:89 | a file opened for input is open, read-only, good, holds the file's bytes and is positioned at its first byte |
| Transactions.OverwrittenParts | src/mytftpd/transaction.cpp:22 | a write keeps the bytes before the position, puts the new bytes after them, and keeps whatever lay past the written span |
| Transactions.Byte | src/mytftpd/transaction.cpp:10 | the cast to a byte keeps 0..255 and turns -1 into 0xFF |
| Transactions.FileStream.constructor | includes/mytftpd/transaction.hpp:26 | a default stream has no file attached |
| Transactions.FileStream.OpenForInput | src/mytftpd/driver.cpp:89 | an opened stream holds the file's bytes, positioned at the first |
| Transactions.FileStream.Get | src/mytftpd/transaction.cpp:10 | one `get()`: the next byte and the position advanced; -1 with eof set at the end; -1 and no change on a stream that is not good |
| Transactions.FileStream.Put | src/mytftpd/transaction.cpp:22 | one `put()`: the byte written at the position; the bad flag set on a stream opened for input only |
| Transactions.ReadLoop | src/mytftpd/transaction.cpp:9-12 | the get loop collects at most `pending` bytes, never moves the position back, and leaves the file's content and open mode as they were; its exact value is in the lemmas that follow |
| Transactions.ReadLoopStep | src/mytftpd/transaction.cpp:9-12 | one turn of the read loop appends the cast byte of one `get()` |
| Transactions.ReadLoopTakesBytes | src/mytftpd/transaction.cpp:9-12 | on a good stream with at least `pending` bytes left, the loop takes exactly the next `pending` bytes |
| Transactions.ReadLoopRunsOut | src/mytftpd/transaction.cpp:9-12 | on a good stream with fewer bytes left, the loop takes the rest, then one 0xFF, and sets eof |
| Transactions.ReadLoopAtEof | src/mytftpd/transaction.cpp:9 | once eof is set the chunk is empty and the stream unchanged |
| Transactions.ReadLoopOnBadStream | src/mytftpd/transaction.cpp:9-12 | a bad stream without eof yields `pending` bytes 0xFF |
| Transactions.ReadChunkShape | src/mytftpd/transaction.cpp:5-15 | a chunk has at most 512 bytes; on a good stream it has 512 iff at least 511 bytes remain, and eof follows iff fewer than 512 remained |
| Transactions.ReadOctetChunk | src/mytftpd/transaction.cpp:5-15 | the loop's chunk and the stream it leaves are those of the read-loop function with 512 pending |
| Transactions.WriteLoop | src/mytftpd/transaction.cpp:21-24 | the puts left pending never exceed those asked for |
| Transactions.OverwrittenTwice | src/mytftpd/transaction.cpp:21-24 | writing xs and then ys right after it is writing xs + ys |
| Transactions.WriteLoopOnWritableStream | src/mytftpd/transaction.cpp:19-24 | on a good writable stream all puts run and write `pending` copies of the byte from the position |
| Transactions.WriteChunkOutcome | src/mytftpd/transaction.cpp:17-27 | success iff the data is empty or the stream is good and writable (or a single put is asked for); empty data leaves the stream alone; a writable stream receives data[0] repeated |
| Transactions.WriteChunkRepeatsFirstByte | src/mytftpd/transaction.cpp:19-22 | [1, 2] is written as [1, 1] |
| Transactions.WriteOctetChunk | src/mytftpd/transaction.cpp:17-27 | the loop's result and the stream it leaves are those of the write-chunk function |
| Driver.Frame | src/mytftpd/driver.cpp:120 | what is sent is exactly the first `getLength()` bytes of the buffer, so nothing from an empty buffer |
| Driver.ErrorMsg | src/mytftpd/driver.cpp:23-26 | defined for codes 0..8 only; every message is non-empty |
| Driver.ErrorMessagesDistinct | src/mytftpd/driver.cpp:11-21 | the table has one entry per code (nine) and no two codes share a message |
| Driver.ErrorMessagesUsed | src/mytftpd/driver.cpp:11-21 | the messages for not_defined, storage_issue and bad_operation |
| Driver.TransitionTo | src/mytftpd/driver.cpp:29-31 | the unconditional transition goes to the state named |
| Driver.Transition | src/mytftpd/driver.cpp:34-52 | error iff the status is not ok, the file step failed, or the opcode is err; download iff rrq/ack with a count of 512; done iff rrq/ack with a count below 512; never stop |
| Driver.DecodeNeverDone | src/mytftpd/driver.cpp:59 | with the full chunk count decoding passes, done is never reached; download iff the receive was ok and the opcode rrq or ack |
| Driver.DownloadNeverDone | src/mytftpd/driver.cpp:121 | with opcode none the next state is decode (error after a failed receive) whatever the chunk size, though a short count with rrq or ack would give done |
| Driver.ErrorClass | src/mytftpd/driver.cpp:144-153 | storage_issue iff the flag is set; otherwise bad_operation iff the opcode is outside rrq..err; otherwise not_defined |
| Driver.ReceivedState | src/mytftpd/driver.cpp:56 | after a receive that delivered n > 0 bytes the in-buffer holds the first min(n, 596) of them, zero after them, with that count as used length; a failed or empty receive leaves it reset |
| Driver.ReceivedIo | includes/mybsock/sockets.hpp:56-63 | the status is ok iff the receive succeeded with a positive count, and then the port is the peer's; a count of 0 is reported as pipe_closed |
| Driver.ReceiveFrom | src/mytftpd/driver.cpp:56 | the buffer after the receive and the reported result are those of the receive functions |
| Driver.AcceptedArrivals | src/mytftpd/driver.cpp:54-65 | an arrival is dropped (decode again) iff it delivered a datagram carrying wrq, data or an undefined opcode; it leads to download iff it delivered a datagram carrying rrq or ack |
| Driver.MyServer.constructor | src/mytftpd/driver.cpp:170-171 | two zeroed 596-byte buffers, a default context, state decode, halt clear |
| Driver.MyServer.StateDecode | src/mytftpd/driver.cpp:54-65 | the context is untouched; the message is the parse of the received datagram; the state is the decode outcome, never done or stop, and download only for a paired rrq or ack |
| Driver.MyServer.StateDownload | src/mytftpd/driver.cpp:67-128 | the tid changes only from 0; a foreign peer, a non-octet request or a wrong ack block leaves the context and out-buffer unchanged; an RRQ sets tid, block 1 and octet; an ACK increments the block mod 2^16; the next state is error |
| Driver.MyServer.SendChunk | src/mytftpd/driver.cpp:106-127 | reads the next chunk; the DATA serialisation fails, leaving the block number at offset 0; nothing is sent; the next state is error |
| Driver.MyServer.StateDone | src/mytftpd/driver.cpp:130-141 | the context becomes the default one and the state decode |
| Driver.MyServer.StateError | src/mytftpd/driver.cpp:143-168 | the ERROR serialisation fails, leaving the classified code at offset 0; nothing is sent; the state is stop |
| Driver.MyServer.RunService | src/mytftpd/driver.cpp:173-215 | returns false and changes nothing on an unusable socket; otherwise ends in stop or decode, sends nothing, and stops iff some arrival is accepted |

## Left out

- The UDP socket (`recieveFrom`, `sendTo`, descriptor lifecycle), the network configuration and `main`. These are operating-system plumbing. A receive is an input `Arrival` (status, peer port, bytes). A send appends to the `outbox` field.
- The socket guards `isFull() or n >= getSize()` on receive and `n >= getLength()` on send. Applied literally they would reject every call the driver makes, so the model does not derive outcomes from them.
- Driver.ReceivedState: a failed receive is modelled as leaving the in-buffer reset. The socket code leaves it untouched when it fails before its own reset, which changes nothing downstream because a failed receive goes to error. The peer port of a failed receive is 0.
- Opening the requested file. The bytes of the file a request names come from an input function of the file name. A failed or unchecked open is not modelled.
- The stream of a default context is modelled as attached to nothing with no content: the first `get()` sets eof. The precise behaviour of an unopened `std::fstream` is not modelled. The failbit is not modelled separately from eof and bad.
- The prompt thread and the `atomic_flag` halt are concurrency. `halt` is a field that nothing sets, since `clear()` never makes `test()` true.
- Driver.MyServer.RunService: the loop ends when the arrivals run out in the decode state. The real server waits in the next receive for at most the 10-second receive timeout its socket is configured with; a timed-out receive fails and leads to error and then stop, which the model expresses as a final Arrival with a failing status.
- The done branch of the service loop is unreachable: decoding passes a full chunk count and download passes opcode none. The model asserts this branch away. StateDone is modelled and proved on its own.
- Logging (`std::print`, `logMessage`).
- The `std::equal` bodies of `BufferView::operator==`, including the overload against `std::string_view`. Equality is modelled as comparison of bytes, guarded by the length and left-null checks.
- Writes through the reference that `accessOctet` returns. The driver never uses it to write.
- size_t wrap-around of sums such as `begin + value_len`. Only the subtraction `length - 2` is wrapped. All sums the program forms stay far below 2^64.
- Retransmission: the server has none.
- A `Message` whose opcode names a payload other than the one it carries. `std::get` would throw on it; the codec requires the pairing.
