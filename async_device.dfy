/**
 * The host-side asynchronous device API: creation with its identity check,
 * and one command per register read (plain and timestamped) plus the single
 * register write. The transport (CommandAsync) is an oracle from the command
 * sent to the reply received.
 */
module AsyncApi {
  import opened Wrappers
  import opened Harp
  import opened Catalog

  /** An AsyncDevice opened on a serial port. */
  datatype AsyncDevice = AsyncDevice(portName: string)

  /** The HarpException thrown by CreateAsync; its message names the port and the reported identity. */
  datatype HarpException = UnexpectedDeviceId(portName: string, whoAmI: int)

  /**
   * Device.CreateAsync, given the identity the device reported to
   * ReadWhoAmIAsync: the device is returned only for the expected identity.
   */
  function CreateAsync(portName: string, reportedWhoAmI: int): (r: Result<AsyncDevice, HarpException>)
    ensures r.Success? <==> reportedWhoAmI == WhoAmI
    ensures r.Success? ==> r.value.portName == portName
    ensures r.Failure? ==> r.error.portName == portName && r.error.whoAmI == reportedWhoAmI
  {
    var device := AsyncDevice(portName);
    if reportedWhoAmI != WhoAmI then Failure(UnexpectedDeviceId(portName, reportedWhoAmI))
    else Success(device)
  }

  /** The operations of AsyncDevice: ReadXAsync, ReadTimestampedXAsync and the one write. */
  datatype Operation =
    | ReadAsync(register: Register)
    | ReadTimestampedAsync(register: Register)
    | WriteEnableSensorDispatchEventsAsync(value: uint8)

  /** The read command each ReadXAsync method issues, as written per register. */
  function ReadRequest(r: Register): (c: HarpMessage)
    ensures c.address == Address(r) && c.messageType == Read
    ensures c.payloadType == RegisterType(r) && c.payload == [] && c.timestamp == None
  {
    match r
    case Pressure => ReadUInt32(Address(Pressure))
    case Temperature => ReadSingle(Address(Temperature))
    case Humidity => ReadSingle(Address(Humidity))
    case PressureTempHumidity => ReadSingle(Address(PressureTempHumidity))
    case EnableSensorDispatchEvents => ReadByte(Address(EnableSensorDispatchEvents))
  }

  /** The message an operation sends through CommandAsync. */
  function Request(op: Operation): (c: HarpMessage)
    ensures !op.WriteEnableSensorDispatchEventsAsync? ==> c == ReadCommand(Address(op.register), RegisterType(op.register))
    ensures op.WriteEnableSensorDispatchEventsAsync? ==>
      c == FromPayload(EnableSensorDispatchEvents, Write, ByteElem(op.value))
  {
    match op
    case ReadAsync(r) => ReadRequest(r)
    case ReadTimestampedAsync(r) => ReadRequest(r)
    case WriteEnableSensorDispatchEventsAsync(v) => FromPayload(EnableSensorDispatchEvents, Write, ByteElem(v))
  }

  /** What an operation returns to its caller once the reply is decoded. */
  datatype Outcome = Value(value: Element) | TimestampedValue(timestamped: Timestamped<Element>) | Written

  /** The decode step applied to the reply. The write ignores the reply. */
  function DecodeReply(op: Operation, reply: HarpMessage): (r: Result<Outcome, DecodeError>)
    ensures op.ReadAsync? ==>
      (r.Success? <==> reply.payloadType == RegisterType(op.register) && |reply.payload| > 0
                       && ElementType(reply.payload[0]) == RegisterType(op.register))
    ensures op.ReadAsync? && r.Success? ==> r.value == Value(reply.payload[0])
    ensures op.ReadTimestampedAsync? ==>
      (r.Success? <==> reply.payloadType == RegisterType(op.register) && |reply.payload| > 0
                       && ElementType(reply.payload[0]) == RegisterType(op.register) && reply.timestamp.Some?)
    ensures op.ReadTimestampedAsync? && r.Success? ==>
      r.value == TimestampedValue(Timestamped(reply.timestamp.value, reply.payload[0]))
    ensures op.WriteEnableSensorDispatchEventsAsync? ==> r == Success(Written)
  {
    match op
    case ReadAsync(reg) =>
      (match GetPayload(reg, reply)
       case Success(v) => Success(Value(v))
       case Failure(e) => Failure(e))
    case ReadTimestampedAsync(reg) =>
      (match GetTimestampedPayload(reg, reply)
       case Success(v) => Success(TimestampedValue(v))
       case Failure(e) => Failure(e))
    case WriteEnableSensorDispatchEventsAsync(_) => Success(Written)
  }

  /** One call: the command sent and the decoded reply, with CommandAsync as an oracle. */
  datatype Exchange = Exchange(sent: HarpMessage, result: Result<Outcome, DecodeError>)

  function Invoke(op: Operation, commandAsync: HarpMessage -> HarpMessage): (x: Exchange)
    ensures !op.WriteEnableSensorDispatchEventsAsync? ==>
      x.sent == ReadCommand(Address(op.register), RegisterType(op.register))
    ensures op.WriteEnableSensorDispatchEventsAsync? ==>
      x.sent == HarpMessage(36, Write, U8, [ByteElem(op.value)], None) && x.result == Success(Written)
    ensures !op.WriteEnableSensorDispatchEventsAsync? ==>
      var reply := commandAsync(x.sent);
      x.result.Success? ==> reply.payloadType == RegisterType(op.register) && |reply.payload| > 0
                            && ElementType(reply.payload[0]) == RegisterType(op.register)
    ensures op.ReadAsync? ==>
      var reply := commandAsync(x.sent);
      (x.result.Success? <==> reply.payloadType == RegisterType(op.register) && |reply.payload| > 0
                              && ElementType(reply.payload[0]) == RegisterType(op.register))
      && (x.result.Success? ==> x.result.value == Value(reply.payload[0]))
    ensures op.ReadTimestampedAsync? ==>
      var reply := commandAsync(x.sent);
      (x.result.Success? <==> reply.payloadType == RegisterType(op.register) && |reply.payload| > 0
                              && ElementType(reply.payload[0]) == RegisterType(op.register) && reply.timestamp.Some?)
      && (x.result.Success? ==> x.result.value == TimestampedValue(Timestamped(reply.timestamp.value, reply.payload[0])))
  {
    var request := Request(op);
    Exchange(request, DecodeReply(op, commandAsync(request)))
  }

  /**
   * Each read sends one read command at the register's address, of the
   * register's payload type; a timestamped read sends the same command as
   * the plain one.
   */
  lemma ReadCommandsMatchCatalog(r: Register)
    ensures Request(ReadAsync(r)) == ReadCommand(Address(r), RegisterType(r))
    ensures Request(ReadTimestampedAsync(r)) == Request(ReadAsync(r))
    ensures r == Pressure ==> Request(ReadAsync(r)) == ReadUInt32(32)
    ensures r in {Temperature, Humidity, PressureTempHumidity} ==> Request(ReadAsync(r)) == ReadSingle(Address(r))
    ensures r == EnableSensorDispatchEvents ==> Request(ReadAsync(r)) == ReadByte(36)
  {
  }

  /** The write sends a Write message at address 36 whose payload is exactly the given byte. */
  lemma WriteCommandShape(v: uint8)
    ensures Request(WriteEnableSensorDispatchEventsAsync(v)) == HarpMessage(36, Write, U8, [ByteElem(v)], None)
  {
  }

  /** Only register 36 can be written through this API: every other register is read-only here. */
  lemma OnlyEnableSensorDispatchEventsWritable(op: Operation)
    ensures Request(op).messageType == Write <==> op.WriteEnableSensorDispatchEventsAsync?
    ensures !op.WriteEnableSensorDispatchEventsAsync? ==> Request(op).messageType == Read
    ensures Request(op).messageType == Write ==> Request(op).address == Address(EnableSensorDispatchEvents)
    ensures Request(op).messageType != Read ==> RegisterAt(Request(op).address) == Some(EnableSensorDispatchEvents)
  {
  }

  /**
   * The value a read returns has the register's payload type. A device that
   * replies with the register message carrying v (and timestamp t) makes the
   * read return exactly v (and (t, v)); timestamped and plain reads return
   * the same value.
   */
  lemma ReadReturnsRepliedValue(r: Register, v: Element, t: Double,
                               commandAsync: HarpMessage -> HarpMessage)
    requires ValueOf(r, v)
    requires commandAsync(ReadRequest(r)) == FromTimestampedPayload(r, t, Read, v)
    ensures Invoke(ReadAsync(r), commandAsync).result == Success(Value(v))
    ensures Invoke(ReadTimestampedAsync(r), commandAsync).result == Success(TimestampedValue(Timestamped(t, v)))
  {
    PayloadRoundTrip(r, Read, v, t);
  }

  /** Whatever the reply, a successful read yields a value of the register's catalog type. */
  lemma ReadsAreTyped(op: Operation, reply: HarpMessage)
    requires !op.WriteEnableSensorDispatchEventsAsync?
    ensures match DecodeReply(op, reply)
      case Success(Value(v)) => ElementType(v) == RegisterType(op.register)
      case Success(TimestampedValue(tv)) => ElementType(tv.value) == RegisterType(op.register) && reply.timestamp == Some(tv.seconds)
      case Success(Written) => false
      case Failure(_) => true
  {
  }
}
