/**
  The TFTP value types: opcodes, transfer modes, error codes, the five
  payload shapes and the message that pairs an opcode with a payload.

  The three C++ enumerations have `unsigned char` as underlying type, so an
  object of any of them can hold every byte value, not only the named
  enumerators. Opcode and ErrorCode are built from wire numbers by a cast,
  which is why they are byte-valued newtypes here; DataMode is never cast
  from a number and is a plain datatype.
 */
module Types {

  type u8 = b: int | 0 <= b < 256
  type u16 = n: int | 0 <= n < 0x1_0000
  type u32 = n: int | 0 <= n < 0x1_0000_0000

  /** A character of a std::string: one byte. */
  type Char8 = c: char | c as int < 256

  /** The contents of a std::string. */
  type Text = seq<Char8>

  /** Reads bytes as the characters of a std::string. */
  function TextOf(bytes: seq<u8>): (t: Text)
    ensures |t| == |bytes|
    ensures forall i :: 0 <= i < |t| ==> t[i] as int == bytes[i]
  {
    seq(|bytes|, i requires 0 <= i < |bytes| => bytes[i] as char)
  }

  /** The bytes that a std::string stores. */
  function OctetsOf(t: Text): (bytes: seq<u8>)
    ensures |bytes| == |t|
    ensures forall i :: 0 <= i < |t| ==> bytes[i] == t[i] as int
  {
    seq(|t|, i requires 0 <= i < |t| => t[i] as int)
  }

  function Min(a: nat, b: nat): nat {
    if a <= b then a else b
  }

  // ---------------------------------------------------------------- Opcode

  newtype Opcode = n: int | 0 <= n < 256

  const Rrq: Opcode := 1
  const Wrq: Opcode := 2
  const Data: Opcode := 3
  const Ack: Opcode := 4
  const Err: Opcode := 5
  /** Sentinel for "no opcode could be determined". */
  const None: Opcode := 6
  const LastOpcode: Opcode := None

  /** The opcodes that name a message of section 5 of RFC 1350. */
  predicate IsMessageOpcode(op: Opcode) {
    Rrq <= op <= Err
  }

  /** `static_cast<Opcode>(raw)` of a 16-bit number: the low byte survives. */
  function OpcodeCast(raw: u16): (op: Opcode)
    ensures op as int == raw % 256
    ensures raw < 256 ==> op as int == raw
  {
    (raw % 256) as Opcode
  }

  // ---------------------------------------------------------------- DataMode

  datatype DataMode = Netascii | Octet | Mail | Dud {
    /** The enumerator's numeric value. */
    function Value(): nat {
      match this
      case Netascii => 0
      case Octet => 1
      case Mail => 2
      case Dud => 3
    }
  }

  const LastDataMode: DataMode := Dud

  // ---------------------------------------------------------------- ErrorCode

  newtype ErrorCode = n: int | 0 <= n < 256

  const Ok: ErrorCode := 0
  const NotDefined: ErrorCode := 1
  const FileNotFound: ErrorCode := 2
  const AccessViolation: ErrorCode := 3
  const StorageIssue: ErrorCode := 4
  const BadOperation: ErrorCode := 5
  const UnknownTid: ErrorCode := 6
  const FileAlreadyExists: ErrorCode := 7
  const NoUser: ErrorCode := 8
  const LastErrorCode: ErrorCode := NoUser

  /** `static_cast<ErrorCode>(raw)` of a 16-bit number: the low byte survives. */
  function ErrorCodeCast(raw: u16): (code: ErrorCode)
    ensures code as int == raw % 256
    ensures raw <= LastErrorCode as int ==> code as int == raw
  {
    (raw % 256) as ErrorCode
  }

  // ---------------------------------------------------------------- Message

  /** The alternatives of the payload variant, in declaration order. */
  datatype Payload =
    | DudPayload
    | RWPayload(filename: Text, mode: DataMode)
    | DataPayload(blockN: u32, data: seq<u8>)
    | AckPayload(ackBlockN: u16)
    | ErrorPayload(error: ErrorCode, message: Text)

  /**
    A message: an opcode and a payload. Nothing in the type ties the two
    together; `Paired` states the pairing that the codec relies on.
   */
  datatype Message = Message(op: Opcode, payload: Payload)

  /**
    The payload alternative that `std::get` expects for the opcode. Opcodes
    outside 1..5 accept any payload (nothing reads it).
   */
  predicate Paired(m: Message) {
    && (m.op == Rrq || m.op == Wrq ==> m.payload.RWPayload?)
    && (m.op == Data ==> m.payload.DataPayload?)
    && (m.op == Ack ==> m.payload.AckPayload?)
    && (m.op == Err ==> m.payload.ErrorPayload?)
  }

  /** Nothing in the type forbids an opcode carrying another opcode's payload. */
  lemma PairingNotEnforced()
    ensures !Paired(Message(Ack, RWPayload("f", Octet)))
    ensures !Paired(Message(Rrq, AckPayload(1)))
    ensures Paired(Message(None, AckPayload(1)))
  {
  }

  /**
    The enumerators' numbers. The error codes count from ok = 0, so each
    numbered error is one above the number that the Appendix of RFC 1350
    gives it (not_defined is 1 here and 0 there).
   */
  lemma EnumValues()
    ensures Rrq as int == 1 && Wrq as int == 2 && Data as int == 3 && Ack as int == 4 && Err as int == 5
    ensures None as int == 6 && LastOpcode == None
    ensures forall op: Opcode :: IsMessageOpcode(op) <==> 1 <= op as int <= 5
    ensures Netascii.Value() == 0 && Octet.Value() == 1 && Mail.Value() == 2 && Dud.Value() == 3
    ensures LastDataMode == Dud
    ensures forall m: DataMode :: m.Value() <= LastDataMode.Value()
    ensures Ok as int == 0 && NotDefined as int == 1 && FileNotFound as int == 2
    ensures AccessViolation as int == 3 && StorageIssue as int == 4 && BadOperation as int == 5
    ensures UnknownTid as int == 6 && FileAlreadyExists as int == 7 && NoUser as int == 8
    ensures LastErrorCode == NoUser && LastErrorCode as int + 1 == 9
  {
  }

  /** Casting a wire number into an enumeration keeps only its low byte. */
  lemma {:induction false} CastsKeepLowByte(raw: u16)
    ensures OpcodeCast(raw) == OpcodeCast(raw % 256)
    ensures ErrorCodeCast(raw) == ErrorCodeCast(raw % 256)
    ensures raw == 0x0104 ==> OpcodeCast(raw) == Ack
    ensures raw == 0x0102 ==> ErrorCodeCast(raw) == FileNotFound
  {
  }
}
