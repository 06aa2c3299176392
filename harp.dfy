/**
 * The part of the Harp message library (Bonsai.Harp) that the generated
 * EnvironmentSensor bindings call. The library itself is not part of this
 * model: a message is an abstract record of address, message type, payload
 * type, payload elements and optional timestamp, with no wire format and no
 * checksum.
 */
module Harp {
  import opened Wrappers

  newtype uint8 = x: int | 0 <= x < 0x100
  newtype uint32 = x: int | 0 <= x < 0x1_0000_0000
  newtype uint64 = x: int | 0 <= x < 0x1_0000_0000_0000_0000

  /** An IEEE-754 single-precision value, kept as its 32-bit pattern. */
  datatype Single = Single(bits: uint32)

  /** An IEEE-754 double-precision value (timestamps, in seconds), kept as its 64-bit pattern. */
  datatype Double = Double(bits: uint64)

  datatype MessageType = Read | Write | Event

  datatype PayloadType = U8 | S8 | U16 | S16 | U32 | S32 | U64 | S64 | Float

  /** One payload element of one of the kinds the EnvironmentSensor registers use. */
  datatype Element = ByteElem(byte: uint8) | UInt32Elem(uint: uint32) | SingleElem(single: Single)

  function ElementType(e: Element): PayloadType
  {
    match e
    case ByteElem(_) => U8
    case UInt32Elem(_) => U32
    case SingleElem(_) => Float
  }

  datatype HarpMessage = HarpMessage(
    address: int,
    messageType: MessageType,
    payloadType: PayloadType,
    payload: seq<Element>,
    timestamp: Option<Double>)

  /** A value paired with the device timestamp of the message that carried it. */
  datatype Timestamped<+T> = Timestamped(seconds: Double, value: T)

  datatype DecodeError = EmptyPayload | PayloadTypeMismatch(expected: PayloadType, actual: PayloadType) | MissingTimestamp

  /** HarpMessage.FromUInt32 / FromSingle / FromByte: a single-element message without timestamp. */
  function FromElement(address: int, messageType: MessageType, value: Element): (m: HarpMessage)
    ensures m.address == address && m.messageType == messageType
    ensures m.payloadType == ElementType(value) && m.payload == [value] && m.timestamp == None
  {
    HarpMessage(address, messageType, ElementType(value), [value], None)
  }

  /** The timestamped overloads of HarpMessage.FromUInt32 / FromSingle / FromByte. */
  function FromElementTimestamped(address: int, seconds: Double, messageType: MessageType, value: Element): (m: HarpMessage)
    ensures m == FromElement(address, messageType, value).(timestamp := Some(seconds))
  {
    HarpMessage(address, messageType, ElementType(value), [value], Some(seconds))
  }

  /**
   * HarpMessage.GetPayloadUInt32 / GetPayloadSingle / GetPayloadByte: the first
   * payload element, read as the given payload type. A message of another
   * payload type, or with no payload, is an error.
   */
  function GetPayloadAs(payloadType: PayloadType, m: HarpMessage): (r: Result<Element, DecodeError>)
    ensures r.Success? <==> m.payloadType == payloadType && |m.payload| > 0 && ElementType(m.payload[0]) == payloadType
    ensures r.Success? ==> r.value == m.payload[0] && ElementType(r.value) == payloadType
  {
    if m.payloadType != payloadType then Failure(PayloadTypeMismatch(payloadType, m.payloadType))
    else if |m.payload| == 0 then Failure(EmptyPayload)
    else if ElementType(m.payload[0]) != payloadType then Failure(PayloadTypeMismatch(payloadType, ElementType(m.payload[0])))
    else Success(m.payload[0])
  }

  /** HarpMessage.GetTimestampedPayload*: the first payload element and the message timestamp. */
  function GetTimestampedPayloadAs(payloadType: PayloadType, m: HarpMessage): (r: Result<Timestamped<Element>, DecodeError>)
    ensures r.Success? <==> GetPayloadAs(payloadType, m).Success? && m.timestamp.Some?
    ensures r.Success? ==> r.value == Timestamped(m.timestamp.value, GetPayloadAs(payloadType, m).value)
  {
    match GetPayloadAs(payloadType, m)
    case Failure(e) => Failure(e)
    case Success(v) =>
      if m.timestamp.None? then Failure(MissingTimestamp) else Success(Timestamped(m.timestamp.value, v))
  }

  /** HarpCommand.ReadUInt32 / ReadSingle / ReadByte: a read request with an empty payload of the given type. */
  function ReadCommand(address: int, payloadType: PayloadType): (c: HarpMessage)
    ensures c.address == address && c.messageType == Read && c.payloadType == payloadType
    ensures c.payload == [] && c.timestamp == None
  {
    HarpMessage(address, Read, payloadType, [], None)
  }

  function ReadUInt32(address: int): HarpMessage { ReadCommand(address, U32) }
  function ReadSingle(address: int): HarpMessage { ReadCommand(address, Float) }
  function ReadByte(address: int): HarpMessage { ReadCommand(address, U8) }
}
