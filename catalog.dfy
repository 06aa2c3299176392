/**
 * The host-side register catalog of the EnvironmentSensor device: the five
 * application registers with their constant address, payload type and
 * length, the messages built from and read back into register values, the
 * payload builders, the address-to-register map and the grouping of a
 * message stream by register.
 */
module Catalog {
  import opened Wrappers
  import opened Harp

  /** The identity class of the EnvironmentSensor device. */
  const WhoAmI: int := 1405

  datatype Register = Pressure | Temperature | Humidity | PressureTempHumidity | EnableSensorDispatchEvents

  const AppRegisters: seq<Register> := [Pressure, Temperature, Humidity, PressureTempHumidity, EnableSensorDispatchEvents]

  // ---------------------------------------------------------------------
  // Register constants
  // ---------------------------------------------------------------------

  function Address(r: Register): (a: int)
    ensures 32 <= a <= 36
  {
    match r
    case Pressure => 32
    case Temperature => 33
    case Humidity => 34
    case PressureTempHumidity => 35
    case EnableSensorDispatchEvents => 36
  }

  /** The payload type of each register: U32 for the pressure, U8 for the enable flag, Float for the rest. */
  function RegisterType(r: Register): (t: PayloadType)
    ensures t == U32 <==> r == Pressure
    ensures t == U8 <==> r == EnableSensorDispatchEvents
    ensures t == U32 || t == U8 || t == Float
  {
    match r
    case Pressure => U32
    case Temperature => Float
    case Humidity => Float
    case PressureTempHumidity => Float
    case EnableSensorDispatchEvents => U8
  }

  /** The declared element count of each register: every host register, the aggregate included, is one element. */
  function RegisterLength(r: Register): (n: int)
    ensures n == 1
  {
    match r
    case Pressure => 1
    case Temperature => 1
    case Humidity => 1
    case PressureTempHumidity => 1
    case EnableSensorDispatchEvents => 1
  }

  /** The register at an address, if it is one of the five application registers. */
  function RegisterAt(address: int): (r: Option<Register>)
    ensures r.Some? ==> Address(r.value) == address
    ensures r.None? ==> forall reg: Register :: Address(reg) != address
  {
    if address == 32 then Some(Pressure)
    else if address == 33 then Some(Temperature)
    else if address == 34 then Some(Humidity)
    else if address == 35 then Some(PressureTempHumidity)
    else if address == 36 then Some(EnableSensorDispatchEvents)
    else None
  }

  /** The five addresses are distinct and fill 32..36: RegisterAt inverts Address. */
  lemma AddressesDistinct(r1: Register, r2: Register)
    ensures RegisterAt(Address(r1)) == Some(r1)
    ensures Address(r1) == Address(r2) ==> r1 == r2
  {
  }

  /** The constant table: (32, U32, 1), (33, Float, 1), (34, Float, 1), (35, Float, 1), (36, U8, 1). */
  lemma RegisterConstants(r: Register)
    ensures (Address(Pressure), RegisterType(Pressure), RegisterLength(Pressure)) == (32, U32, 1)
    ensures (Address(Temperature), RegisterType(Temperature), RegisterLength(Temperature)) == (33, Float, 1)
    ensures (Address(Humidity), RegisterType(Humidity), RegisterLength(Humidity)) == (34, Float, 1)
    ensures (Address(PressureTempHumidity), RegisterType(PressureTempHumidity), RegisterLength(PressureTempHumidity)) == (35, Float, 1)
    ensures (Address(EnableSensorDispatchEvents), RegisterType(EnableSensorDispatchEvents), RegisterLength(EnableSensorDispatchEvents)) == (36, U8, 1)
    ensures RegisterLength(r) == 1
    ensures RegisterType(r) in {U8, U32, Float}
    ensures r in AppRegisters && |AppRegisters| == 5
    ensures AppRegisters[Address(r) - 32] == r
  {
  }

  // ---------------------------------------------------------------------
  // Register messages
  // ---------------------------------------------------------------------

  /** A value the register can carry: one element of the register's payload type. */
  ghost predicate ValueOf(r: Register, v: Element)
  {
    ElementType(v) == RegisterType(r)
  }

  /** GetPayload: the register value carried by a message. The address is not checked. */
  function GetPayload(r: Register, m: HarpMessage): (v: Result<Element, DecodeError>)
    ensures v.Success? <==> m.payloadType == RegisterType(r) && |m.payload| > 0 && ElementType(m.payload[0]) == RegisterType(r)
    ensures v.Success? ==> ElementType(v.value) == RegisterType(r) && v.value == m.payload[0]
  {
    GetPayloadAs(RegisterType(r), m)
  }

  /** GetTimestampedPayload: the register value together with the message timestamp. */
  function GetTimestampedPayload(r: Register, m: HarpMessage): (v: Result<Timestamped<Element>, DecodeError>)
    ensures v.Success? <==> GetPayload(r, m).Success? && m.timestamp.Some?
    ensures v.Success? ==> v.value == Timestamped(m.timestamp.value, GetPayload(r, m).value)
  {
    GetTimestampedPayloadAs(RegisterType(r), m)
  }

  /** FromPayload(messageType, value): a message for the register. */
  function FromPayload(r: Register, messageType: MessageType, value: Element): (m: HarpMessage)
    requires ValueOf(r, value)
    ensures m.address == Address(r) && m.messageType == messageType && m.payloadType == RegisterType(r)
    ensures |m.payload| == RegisterLength(r) && m.payload[0] == value && m.timestamp == None
  {
    FromElement(Address(r), messageType, value)
  }

  /** FromPayload(timestamp, messageType, value): a timestamped message for the register. */
  function FromTimestampedPayload(r: Register, seconds: Double, messageType: MessageType, value: Element): (m: HarpMessage)
    requires ValueOf(r, value)
    ensures m == FromPayload(r, messageType, value).(timestamp := Some(seconds))
  {
    FromElementTimestamped(Address(r), seconds, messageType, value)
  }

  /** GetPayload reads back the value FromPayload stored, for every message type. */
  lemma PayloadRoundTrip(r: Register, messageType: MessageType, value: Element, seconds: Double)
    requires ValueOf(r, value)
    ensures GetPayload(r, FromPayload(r, messageType, value)) == Success(value)
    ensures GetPayload(r, FromTimestampedPayload(r, seconds, messageType, value)) == Success(value)
    ensures GetTimestampedPayload(r, FromTimestampedPayload(r, seconds, messageType, value)) == Success(Timestamped(seconds, value))
    ensures GetTimestampedPayload(r, FromPayload(r, messageType, value)) == Failure(MissingTimestamp)
  {
  }

  // ---------------------------------------------------------------------
  // The Timestamped* register classes
  // ---------------------------------------------------------------------

  /** TimestampedX.Address is X.Address. */
  function TimestampedAddress(r: Register): (a: int)
    ensures RegisterAt(a) == Some(r)
  {
    Address(r)
  }

  /** TimestampedX.GetPayload delegates to X.GetTimestampedPayload. */
  function TimestampedGetPayload(r: Register, m: HarpMessage): (v: Result<Timestamped<Element>, DecodeError>)
    ensures v.Success? <==> GetPayload(r, m).Success? && m.timestamp.Some?
    ensures v.Success? ==> v.value.value == GetPayload(r, m).value && Some(v.value.seconds) == m.timestamp
  {
    GetTimestampedPayload(r, m)
  }

  // ---------------------------------------------------------------------
  // Payload builders (CreateXPayload and CreateTimestampedXPayload)
  // ---------------------------------------------------------------------

  /** One CreateXPayload object, holding the value of its single property. */
  datatype CreatePayload =
    | CreatePressurePayload(pressure: uint32)
    | CreateTemperaturePayload(temperature: Single)
    | CreateHumidityPayload(humidity: Single)
    | CreatePressureTempHumidityPayload(pressureTempHumidity: Single)
    | CreateEnableSensorDispatchEventsPayload(enableSensorDispatchEvents: uint8)
  {
    /** The register the builder targets. */
    function Target(): Register
    {
      match this
      case CreatePressurePayload(_) => Pressure
      case CreateTemperaturePayload(_) => Temperature
      case CreateHumidityPayload(_) => Humidity
      case CreatePressureTempHumidityPayload(_) => PressureTempHumidity
      case CreateEnableSensorDispatchEventsPayload(_) => EnableSensorDispatchEvents
    }

    /** GetPayload returns the stored property unchanged: the builder is recovered from it. */
    function GetPayload(): (v: Element)
      ensures ValueOf(Target(), v)
      ensures CreatePayloadFor(Target(), v) == this
    {
      match this
      case CreatePressurePayload(p) => UInt32Elem(p)
      case CreateTemperaturePayload(t) => SingleElem(t)
      case CreateHumidityPayload(h) => SingleElem(h)
      case CreatePressureTempHumidityPayload(a) => SingleElem(a)
      case CreateEnableSensorDispatchEventsPayload(e) => ByteElem(e)
    }

    /** GetMessage: the register message carrying the stored value. */
    function GetMessage(messageType: MessageType): (m: HarpMessage)
      ensures m == FromPayload(Target(), messageType, GetPayload())
      ensures m.address == Address(Target()) && m.messageType == messageType && m.timestamp == None
      ensures m.payload == [GetPayload()]
      ensures GetPayloadAs(RegisterType(Target()), m) == Success(GetPayload())
    {
      FromPayload(Target(), messageType, GetPayload())
    }
  }

  /** The builder for register r whose property holds v. */
  function CreatePayloadFor(r: Register, v: Element): (b: CreatePayload)
    requires ValueOf(r, v)
  {
    match r
    case Pressure => CreatePressurePayload(v.uint)
    case Temperature => CreateTemperaturePayload(v.single)
    case Humidity => CreateHumidityPayload(v.single)
    case PressureTempHumidity => CreatePressureTempHumidityPayload(v.single)
    case EnableSensorDispatchEvents => CreateEnableSensorDispatchEventsPayload(v.byte)
  }

  /**
   * Every value of a register's type is held by exactly one builder, which
   * targets that register and gives the value back unchanged.
   */
  lemma CreatePayloadRoundTrip(r: Register, v: Element, b: CreatePayload)
    requires ValueOf(r, v)
    ensures CreatePayloadFor(r, v).Target() == r && CreatePayloadFor(r, v).GetPayload() == v
    ensures CreatePayloadFor(b.Target(), b.GetPayload()) == b
  {
  }

  /** CreateTimestampedXPayload: the same payload plus a timestamp. */
  datatype CreateTimestampedPayload = CreateTimestampedPayload(payload: CreatePayload)
  {
    function GetMessage(seconds: Double, messageType: MessageType): (m: HarpMessage)
      ensures m == payload.GetMessage(messageType).(timestamp := Some(seconds))
      ensures GetTimestampedPayload(payload.Target(), m) == Success(Timestamped(seconds, payload.GetPayload()))
    {
      FromTimestampedPayload(payload.Target(), seconds, messageType, payload.GetPayload())
    }
  }

  // ---------------------------------------------------------------------
  // RegisterMap
  // ---------------------------------------------------------------------

  /** The value type of RegisterMap: a register class of the base Harp device, or one of ours. */
  datatype RegisterKind = CoreRegister(name: string) | AppRegister(register: Register)

  datatype MapError = DuplicateKey(address: int)

  /** The five entries the device adds, in the order of the collection initializer. */
  function AppEntries(): (es: seq<(int, RegisterKind)>)
    ensures |es| == 5
    ensures forall i :: 0 <= i < 5 ==> es[i] == (Address(AppRegisters[i]), AppRegister(AppRegisters[i]))
  {
    [ (32, AppRegister(Pressure)),
      (33, AppRegister(Temperature)),
      (34, AppRegister(Humidity)),
      (35, AppRegister(PressureTempHumidity)),
      (36, AppRegister(EnableSensorDispatchEvents)) ]
  }

  /** The keys of a list of entries. */
  function KeySet(es: seq<(int, RegisterKind)>): set<int>
  {
    if |es| == 0 then {} else {es[0].0} + KeySet(es[1..])
  }

  /** No key occurs twice in a list of entries. */
  predicate KeysDistinct(es: seq<(int, RegisterKind)>)
  {
    |es| == 0 || (es[0].0 !in KeySet(es[1..]) && KeysDistinct(es[1..]))
  }

  /** The value a list of entries gives a key (the first one, when keys repeat). */
  function EntryValue(es: seq<(int, RegisterKind)>, k: int): RegisterKind
    requires k in KeySet(es)
  {
    if es[0].0 == k then es[0].1 else EntryValue(es[1..], k)
  }

  /** Dictionary.Add of each entry in turn: a key already present throws. */
  function AddAll(m: map<int, RegisterKind>, es: seq<(int, RegisterKind)>): (r: Result<map<int, RegisterKind>, MapError>)
    ensures r.Success? <==> KeysDistinct(es) && KeySet(es) !! m.Keys
    ensures r.Success? ==> r.value.Keys == m.Keys + KeySet(es)
    ensures r.Success? ==> forall k :: k in KeySet(es) ==> r.value[k] == EntryValue(es, k)
    ensures r.Success? ==> forall k :: k in m ==> r.value[k] == m[k]
    ensures r.Failure? ==> r.error.address in KeySet(es) && (r.error.address in m || !KeysDistinct(es))
    decreases |es|
  {
    if |es| == 0 then Success(m)
    else if es[0].0 in m then Failure(DuplicateKey(es[0].0))
    else AddAll(m[es[0].0 := es[0].1], es[1..])
  }

  /**
   * Device.RegisterMap: a copy of the base device's map extended with the five
   * application registers. A base entry at one of their addresses makes the
   * initializer throw.
   */
  function BuildRegisterMap(base: map<int, RegisterKind>): (r: Result<map<int, RegisterKind>, MapError>)
    ensures r.Success? <==> forall reg: Register :: Address(reg) !in base
    ensures r.Success? ==> forall a :: a in base ==> a in r.value && r.value[a] == base[a]
    ensures r.Success? ==> forall reg: Register :: Address(reg) in r.value && r.value[Address(reg)] == AppRegister(reg)
    ensures r.Success? ==> forall a :: a in r.value ==> a in base || RegisterAt(a).Some?
    ensures r.Failure? ==> r.error.address in base && RegisterAt(r.error.address).Some?
  {
    var es := AppEntries();
    assert KeySet(es) == {32, 33, 34, 35, 36};
    assert KeysDistinct(es);
    assert forall reg: Register :: EntryValue(es, Address(reg)) == AppRegister(reg);
    AddAll(base, es)
  }

  // ---------------------------------------------------------------------
  // GroupByRegister
  // ---------------------------------------------------------------------

  datatype GroupError = KeyNotFound(address: int)

  /**
   * The stream as GroupByRegister sees it: each message that was routed, with
   * its key, and the error that ended the stream, if any.
   */
  datatype Grouping = Grouping(keyed: seq<(RegisterKind, HarpMessage)>, error: Option<GroupError>)

  /**
   * GroupByRegister.Process: each message is keyed by RegisterMap[address];
   * the first message whose address is not in the map ends the stream with
   * an error, and nothing after it is grouped.
   */
  function GroupByRegister(registerMap: map<int, RegisterKind>, source: seq<HarpMessage>): (g: Grouping)
    ensures |g.keyed| <= |source|
    ensures forall i :: 0 <= i < |g.keyed| ==>
      g.keyed[i].1 == source[i] && source[i].address in registerMap && g.keyed[i].0 == registerMap[source[i].address]
    ensures g.error.None? <==> forall i :: 0 <= i < |source| ==> source[i].address in registerMap
    ensures g.error.None? ==> |g.keyed| == |source|
    ensures g.error.Some? ==>
      |g.keyed| < |source| && source[|g.keyed|].address == g.error.value.address && g.error.value.address !in registerMap
    decreases |source|
  {
    if |source| == 0 then Grouping([], None)
    else if source[0].address !in registerMap then Grouping([], Some(KeyNotFound(source[0].address)))
    else
      var rest := GroupByRegister(registerMap, source[1..]);
      Grouping([(registerMap[source[0].address], source[0])] + rest.keyed, rest.error)
  }

  /** The messages of one group, in stream order. */
  function Group(keyed: seq<(RegisterKind, HarpMessage)>, key: RegisterKind): seq<HarpMessage>
  {
    if |keyed| == 0 then []
    else (if keyed[0].0 == key then [keyed[0].1] else []) + Group(keyed[1..], key)
  }

  /** The messages of a sequence at one address, in order. */
  function AtAddress(source: seq<HarpMessage>, address: int): seq<HarpMessage>
  {
    if |source| == 0 then []
    else (if source[0].address == address then [source[0]] else []) + AtAddress(source[1..], address)
  }

  /** A map whose values are base-device registers only. */
  ghost predicate CoreOnly(base: map<int, RegisterKind>)
  {
    forall a :: a in base ==> base[a].CoreRegister?
  }

  /** In the device's map, an address is keyed to an application register exactly when it is that register's address. */
  lemma AppKeyAtAddress(registerMap: map<int, RegisterKind>, base: map<int, RegisterKind>, a: int, reg: Register)
    requires CoreOnly(base) && BuildRegisterMap(base) == Success(registerMap) && a in registerMap
    ensures registerMap[a] == AppRegister(reg) <==> a == Address(reg)
  {
    if a in base {
      assert registerMap[a] == base[a];
    } else {
      var r0 := RegisterAt(a).value;
      assert registerMap[a] == AppRegister(r0);
      AddressesDistinct(r0, reg);
    }
  }

  /**
   * In a map that keys to one application register exactly the addresses
   * equal to that register's, its group holds exactly the grouped messages at
   * that address, in order.
   */
  lemma {:induction false} GroupOfKeyedAddress(registerMap: map<int, RegisterKind>, source: seq<HarpMessage>, reg: Register)
    requires forall a :: a in registerMap ==> (registerMap[a] == AppRegister(reg) <==> a == Address(reg))
    ensures var g := GroupByRegister(registerMap, source);
      Group(g.keyed, AppRegister(reg)) == AtAddress(source[..|g.keyed|], Address(reg))
    decreases |source|
  {
    var g := GroupByRegister(registerMap, source);
    if |source| == 0 || source[0].address !in registerMap {
    } else {
      var rest := GroupByRegister(registerMap, source[1..]);
      GroupOfKeyedAddress(registerMap, source[1..], reg);
      assert g.keyed[1..] == rest.keyed;
      var s := source[..|g.keyed|];
      assert s[1..] == source[1..][..|rest.keyed|];
    }
  }

  /**
   * With the device's map, the group of an application register holds
   * exactly the grouped messages at that register's address, in order.
   */
  lemma GroupOfRegister(registerMap: map<int, RegisterKind>, base: map<int, RegisterKind>,
                        source: seq<HarpMessage>, reg: Register)
    requires CoreOnly(base) && BuildRegisterMap(base) == Success(registerMap)
    ensures var g := GroupByRegister(registerMap, source);
      Group(g.keyed, AppRegister(reg)) == AtAddress(source[..|g.keyed|], Address(reg))
  {
    forall a | a in registerMap
      ensures registerMap[a] == AppRegister(reg) <==> a == Address(reg)
    {
      AppKeyAtAddress(registerMap, base, a, reg);
    }
    GroupOfKeyedAddress(registerMap, source, reg);
  }
}
