/**
 * The device firmware's application register file: the packed record of six
 * application registers with its specification and handler tables, the
 * reset routine, and the per-iteration update that moves one sensor sample
 * from the inter-core queue into the registers and dispatches an event.
 *
 * Float arithmetic is not interpreted: the single-precision addition of the
 * temperature offset and the uint32-to-float conversion are the two
 * functions of a FloatOps record that the model is parameterised by.
 */
module Firmware {
  import opened Wrappers
  import opened Harp

  const ENV_SENSOR_DEVICE_ID: int := 0x057D

  /** -5.49f, as its IEEE-754 single-precision bit pattern. */
  const TEMPERATURE_OFFSET_C: Single := Single(0xC0AF_AE14)

  /** +0.0f. */
  const FloatZero: Single := Single(0)

  /** The first application register address of a Harp device (defined by the Harp core library). */
  const APP_REG_START_ADDRESS: int := 32

  const RegCount: nat := 6

  /** The byte app_reset posts to the sensor core. */
  const ResetCommand: uint8 := 0xff

  /** sensor_data_t: one sample produced by the sensor core. */
  datatype SensorData = SensorData(pressurePa: uint32, temperatureC: Single, humidityPrh: Single)

  /** Single-precision addition and the float(uint32_t) conversion, left uninterpreted. */
  datatype FloatOps = FloatOps(add: (Single, Single) -> Single, fromUInt32: uint32 -> Single)

  /** The value of app_regs_t. */
  datatype AppRegs = AppRegs(
    pressurePa: uint32,
    temperatureC: Single,
    humidityPrh: Single,
    pressureTempHumidity: seq<Single>,
    enableSensorDispatchEvents: uint8,
    temperatureOffsetC: Single)

  /** The application state that app_reset and update_app_state act on. */
  datatype AppState = AppState(regs: AppRegs, sensorQueue: seq<SensorData>, cmdQueue: seq<uint8>, events: seq<int>)

  /** The 3-slot aggregate mirrors the individual registers. */
  predicate Mirrored(regs: AppRegs, floats: FloatOps)
  {
    regs.pressureTempHumidity == [floats.fromUInt32(regs.pressurePa), regs.temperatureC, regs.humidityPrh]
  }

  // ---------------------------------------------------------------------
  // Specification of app_reset and update_app_state
  // ---------------------------------------------------------------------

  /** The registers after app_reset, whatever they were before. */
  function ResetRegs(regs: AppRegs): (r: AppRegs)
    ensures r.pressurePa == 0 && r.temperatureC == FloatZero && r.humidityPrh == FloatZero
    ensures r.pressureTempHumidity == [FloatZero, FloatZero, FloatZero]
    ensures r.temperatureOffsetC == TEMPERATURE_OFFSET_C && r.enableSensorDispatchEvents == 1
  {
    regs.(pressurePa := 0, temperatureC := FloatZero, humidityPrh := FloatZero,
          pressureTempHumidity := [FloatZero, FloatZero, FloatZero],
          temperatureOffsetC := TEMPERATURE_OFFSET_C, enableSensorDispatchEvents := 1)
  }

  function Reset(s: AppState): (t: AppState)
    ensures t.regs == ResetRegs(s.regs)
    ensures t.cmdQueue == s.cmdQueue + [ResetCommand]
    ensures t.sensorQueue == s.sensorQueue && t.events == s.events
  {
    s.(regs := ResetRegs(s.regs), cmdQueue := s.cmdQueue + [ResetCommand])
  }

  /**
   * The two register writes main makes before entering its run loop: events
   * enabled and the offset register set to the compile-time offset.
   */
  function Booted(s: AppState): (t: AppState)
    ensures t.regs.enableSensorDispatchEvents == 1 && t.regs.temperatureOffsetC == TEMPERATURE_OFFSET_C
    ensures t.regs.(enableSensorDispatchEvents := s.regs.enableSensorDispatchEvents, temperatureOffsetC := s.regs.temperatureOffsetC) == s.regs
    ensures t.sensorQueue == s.sensorQueue && t.cmdQueue == s.cmdQueue && t.events == s.events
  {
    s.(regs := s.regs.(enableSensorDispatchEvents := 1, temperatureOffsetC := TEMPERATURE_OFFSET_C))
  }

  /**
   * On the zeroed record main's two writes leave the registers exactly as
   * app_reset would, but without posting the reset command to the sensor core.
   */
  lemma BootOfZeroedRecordIsResetRegs(s: AppState)
    requires s.regs == AppRegs(0, FloatZero, FloatZero, [FloatZero, FloatZero, FloatZero], 0, FloatZero)
    ensures Booted(s).regs == ResetRegs(s.regs)
    ensures Booted(s).cmdQueue == s.cmdQueue != Reset(s).cmdQueue
  {
  }

  /** The three-way condition under which update_app_state dispatches the aggregate event. */
  predicate DispatchesEvent(muted: bool, eventsEnabled: bool, regs: AppRegs)
  {
    !muted && eventsEnabled && regs.enableSensorDispatchEvents != 0
  }

  /** The registers after taking sample d, with the compile-time offset applied to its temperature. */
  function ApplySample(regs: AppRegs, d: SensorData, floats: FloatOps): (r: AppRegs)
    ensures r.pressurePa == d.pressurePa && r.humidityPrh == d.humidityPrh
    ensures r.temperatureC == floats.add(d.temperatureC, TEMPERATURE_OFFSET_C)
    ensures Mirrored(r, floats)
    ensures r.enableSensorDispatchEvents == regs.enableSensorDispatchEvents
    ensures r.temperatureOffsetC == regs.temperatureOffsetC
  {
    var t := floats.add(d.temperatureC, TEMPERATURE_OFFSET_C);
    regs.(pressurePa := d.pressurePa, temperatureC := t, humidityPrh := d.humidityPrh,
          pressureTempHumidity := [floats.fromUInt32(d.pressurePa), t, d.humidityPrh])
  }

  /** One call of update_app_state, with HarpCore's muted and events-enabled flags as inputs. */
  function Step(s: AppState, muted: bool, eventsEnabled: bool, floats: FloatOps): (t: AppState)
    ensures t.cmdQueue == s.cmdQueue
    ensures |s.sensorQueue| > 0 ==> t.sensorQueue == s.sensorQueue[1..] && t.regs == ApplySample(s.regs, s.sensorQueue[0], floats)
    ensures |s.events| <= |t.events| <= |s.events| + 1 && t.events[..|s.events|] == s.events
  {
    if |s.sensorQueue| == 0 then s
    else
      var regs := ApplySample(s.regs, s.sensorQueue[0], floats);
      var events := if DispatchesEvent(muted, eventsEnabled, regs) then s.events + [APP_REG_START_ADDRESS + 3] else s.events;
      AppState(regs, s.sensorQueue[1..], s.cmdQueue, events)
  }

  /** With no sample waiting, update_app_state changes nothing at all. */
  lemma StepWithoutSample(s: AppState, muted: bool, eventsEnabled: bool, floats: FloatOps)
    requires |s.sensorQueue| == 0
    ensures Step(s, muted, eventsEnabled, floats) == s
  {
  }

  /**
   * With a sample waiting, exactly the head sample is taken, its values land
   * in the registers (the temperature shifted by the offset constant), the
   * aggregate mirrors them, the command queue, the offset register and the
   * enable flag are untouched, and one event for address 35 is added exactly
   * when the device is unmuted, events are enabled and the enable flag is set.
   */
  lemma StepWithSample(s: AppState, muted: bool, eventsEnabled: bool, floats: FloatOps)
    requires |s.sensorQueue| > 0
    ensures var t := Step(s, muted, eventsEnabled, floats); var d := s.sensorQueue[0];
      && t.sensorQueue == s.sensorQueue[1..]
      && t.cmdQueue == s.cmdQueue
      && t.regs.pressurePa == d.pressurePa
      && t.regs.humidityPrh == d.humidityPrh
      && t.regs.temperatureC == floats.add(d.temperatureC, TEMPERATURE_OFFSET_C)
      && Mirrored(t.regs, floats)
      && t.regs.temperatureOffsetC == s.regs.temperatureOffsetC
      && t.regs.enableSensorDispatchEvents == s.regs.enableSensorDispatchEvents
      && t.events == s.events + (if DispatchesEvent(muted, eventsEnabled, s.regs) then [APP_REG_START_ADDRESS + 3] else [])
  {
  }

  /** update_app_state keeps the aggregate mirroring the individual registers. */
  lemma StepKeepsMirrored(s: AppState, muted: bool, eventsEnabled: bool, floats: FloatOps)
    requires Mirrored(s.regs, floats)
    ensures Mirrored(Step(s, muted, eventsEnabled, floats).regs, floats)
  {
  }

  /**
   * update_app_state never reads the temperature_offset_c register: two
   * states that differ only in it step to states that differ only in it.
   */
  lemma StepIgnoresOffsetRegister(s: AppState, offset: Single, muted: bool, eventsEnabled: bool, floats: FloatOps)
    ensures var s' := s.(regs := s.regs.(temperatureOffsetC := offset));
      Step(s', muted, eventsEnabled, floats)
        == var t := Step(s, muted, eventsEnabled, floats); t.(regs := t.regs.(temperatureOffsetC := offset))
  {
  }

  /** n successive calls of update_app_state with the same HarpCore flags. */
  function Steps(s: AppState, n: nat, muted: bool, eventsEnabled: bool, floats: FloatOps): AppState
    decreases n
  {
    if n == 0 then s else Steps(Step(s, muted, eventsEnabled, floats), n - 1, muted, eventsEnabled, floats)
  }

  function Min(a: nat, b: nat): nat { if a <= b then a else b }

  /**
   * n calls consume min(n, |queue|) samples in FIFO order: the registers hold
   * the last one taken, and one event was dispatched per sample taken when
   * the dispatch condition holds, none otherwise.
   */
  lemma {:induction false} StepsDrainQueue(s: AppState, n: nat, muted: bool, eventsEnabled: bool, floats: FloatOps)
    ensures var t := Steps(s, n, muted, eventsEnabled, floats); var k := Min(n, |s.sensorQueue|);
      && t.sensorQueue == s.sensorQueue[k..]
      && t.cmdQueue == s.cmdQueue
      && t.regs.enableSensorDispatchEvents == s.regs.enableSensorDispatchEvents
      && t.regs.temperatureOffsetC == s.regs.temperatureOffsetC
      && (k == 0 ==> t.regs == s.regs)
      && (k > 0 ==> t.regs == ApplySample(s.regs, s.sensorQueue[k - 1], floats))
      && t.events == s.events + seq(if DispatchesEvent(muted, eventsEnabled, s.regs) then k else 0, _ => APP_REG_START_ADDRESS + 3)
    decreases n
  {
    if n == 0 || |s.sensorQueue| == 0 {
      if n > 0 {
        assert Step(s, muted, eventsEnabled, floats) == s;
        StepsDrainQueue(s, n - 1, muted, eventsEnabled, floats);
      }
    } else {
      var s1 := Step(s, muted, eventsEnabled, floats);
      StepsDrainQueue(s1, n - 1, muted, eventsEnabled, floats);
      assert s1.sensorQueue == s.sensorQueue[1..];
      assert DispatchesEvent(muted, eventsEnabled, s1.regs) == DispatchesEvent(muted, eventsEnabled, s.regs);
      var k := Min(n, |s.sensorQueue|);
      assert Min(n - 1, |s1.sensorQueue|) == k - 1;
      if k > 1 {
        assert s1.sensorQueue[k - 2] == s.sensorQueue[k - 1];
        assert ApplySample(s1.regs, s.sensorQueue[k - 1], floats) == ApplySample(s.regs, s.sensorQueue[k - 1], floats);
      }
      var e := APP_REG_START_ADDRESS + 3;
      var c := if DispatchesEvent(muted, eventsEnabled, s.regs) then 1 else 0;
      assert s1.events == s.events + seq(c, _ => e);
      assert seq(c, _ => e) + seq(c * (k - 1), _ => e) == seq(c * k, _ => e);
    }
  }

  // ---------------------------------------------------------------------
  // The register file as the firmware holds it
  // ---------------------------------------------------------------------

  class App {
    var pressurePa: uint32
    var temperatureC: Single
    var humidityPrh: Single
    const pressureTempHumidity: array<Single>
    var enableSensorDispatchEvents: uint8
    var temperatureOffsetC: Single
    /** sensor_queue: samples from the sensor core, oldest first. */
    var sensorQueue: seq<SensorData>
    /** cmd_queue: command bytes for the sensor core, oldest first. */
    var cmdQueue: seq<uint8>
    /** The addresses of the EVENT replies sent, oldest first. */
    var events: seq<int>
    const floats: FloatOps

    ghost predicate Valid()
      reads this
    {
      pressureTempHumidity.Length == 3
    }

    function Regs(): AppRegs
      reads this, pressureTempHumidity
    {
      AppRegs(pressurePa, temperatureC, humidityPrh, pressureTempHumidity[..], enableSensorDispatchEvents, temperatureOffsetC)
    }

    function State(): AppState
      reads this, pressureTempHumidity
    {
      AppState(Regs(), sensorQueue, cmdQueue, events)
    }

    /** app_regs in static storage (all bytes zero) with both queues empty. */
    constructor (floats: FloatOps)
      ensures Valid() && fresh(pressureTempHumidity) && this.floats == floats
      ensures State() == AppState(AppRegs(0, FloatZero, FloatZero, [FloatZero, FloatZero, FloatZero], 0, FloatZero), [], [], [])
    {
      pressurePa := 0;
      temperatureC := FloatZero;
      humidityPrh := FloatZero;
      pressureTempHumidity := new Single[3](_ => FloatZero);
      enableSensorDispatchEvents := 0;
      temperatureOffsetC := FloatZero;
      sensorQueue := [];
      cmdQueue := [];
      events := [];
      this.floats := floats;
    }

    /** The two register writes in main before its run loop. */
    method Boot()
      requires Valid()
      modifies this
      ensures Valid()
      ensures State() == Booted(old(State()))
    {
      enableSensorDispatchEvents := 1;
      temperatureOffsetC := TEMPERATURE_OFFSET_C;
    }

    /** app_reset. */
    method AppReset()
      requires Valid()
      modifies this, pressureTempHumidity
      ensures Valid()
      ensures State() == Reset(old(State()))
    {
      pressurePa := 0;
      temperatureC := FloatZero;
      humidityPrh := FloatZero;
      pressureTempHumidity[0] := FloatZero;
      pressureTempHumidity[1] := FloatZero;
      pressureTempHumidity[2] := FloatZero;
      temperatureOffsetC := TEMPERATURE_OFFSET_C;
      enableSensorDispatchEvents := 1;
      var reset := ResetCommand;
      cmdQueue := cmdQueue + [reset];
    }

    /** update_app_state, with HarpCore::is_muted() and HarpCore::events_enabled() as inputs. */
    method UpdateAppState(muted: bool, eventsEnabled: bool)
      requires Valid()
      modifies this, pressureTempHumidity
      ensures Valid()
      ensures State() == Step(old(State()), muted, eventsEnabled, floats)
    {
      if |sensorQueue| > 0 {
        var data := sensorQueue[0];
        sensorQueue := sensorQueue[1..];
        data := data.(temperatureC := floats.add(data.temperatureC, TEMPERATURE_OFFSET_C));
        pressurePa := data.pressurePa;
        temperatureC := data.temperatureC;
        humidityPrh := data.humidityPrh;
        pressureTempHumidity[0] := floats.fromUInt32(data.pressurePa);
        pressureTempHumidity[1] := data.temperatureC;
        pressureTempHumidity[2] := data.humidityPrh;
        if !muted && eventsEnabled && enableSensorDispatchEvents != 0 {
          events := events + [APP_REG_START_ADDRESS + 3];
        }
      }
    }
  }

  // ---------------------------------------------------------------------
  // Register specification and handler tables
  // ---------------------------------------------------------------------

  /** One entry of app_reg_specs: the register's byte offset in the packed record, its size and its type. */
  datatype RegSpec = RegSpec(offset: nat, size: nat, regType: PayloadType)

  /** sizeof(app_regs_t) under #pragma pack(1). */
  const AppRegsSize: nat := 29

  function SizeOf(t: PayloadType): nat
  {
    match t
    case U8 => 1
    case S8 => 1
    case U16 => 2
    case S16 => 2
    case U32 => 4
    case S32 => 4
    case U64 => 8
    case S64 => 8
    case Float => 4
  }

  /** app_reg_specs. */
  function AppRegSpecs(): (specs: seq<RegSpec>)
    ensures |specs| == RegCount
    ensures forall i :: 0 <= i < |specs| ==> specs[i].size > 0 && specs[i].size % SizeOf(specs[i].regType) == 0
  {
    [ RegSpec(0, 4, U32),
      RegSpec(4, 4, Float),
      RegSpec(8, 4, Float),
      RegSpec(12, 12, Float),
      RegSpec(24, 1, U8),
      RegSpec(25, 4, Float) ]
  }

  /** The number of elements of register i. */
  function ElementCount(i: nat): (n: nat)
    requires i < RegCount
    ensures n * SizeOf(AppRegSpecs()[i].regType) == AppRegSpecs()[i].size
    ensures n == [1, 1, 1, 3, 1, 1][i]
  {
    AppRegSpecs()[i].size / SizeOf(AppRegSpecs()[i].regType)
  }

  /**
   * The six specs cover the packed record exactly, in field order, with no
   * gap and no overlap, and each size is a whole number of elements.
   */
  lemma SpecsTilePackedRecord()
    ensures |AppRegSpecs()| == RegCount
    ensures forall i :: 0 <= i < RegCount ==>
      AppRegSpecs()[i].size == [4, 4, 4, 12, 1, 4][i] && AppRegSpecs()[i].regType == [U32, Float, Float, Float, U8, Float][i]
    ensures AppRegSpecs()[0].offset == 0
    ensures forall i :: 0 <= i < RegCount - 1 ==> AppRegSpecs()[i].offset + AppRegSpecs()[i].size == AppRegSpecs()[i + 1].offset
    ensures AppRegSpecs()[RegCount - 1].offset + AppRegSpecs()[RegCount - 1].size == AppRegsSize
    ensures forall i :: 0 <= i < RegCount ==> AppRegSpecs()[i].size % SizeOf(AppRegSpecs()[i].regType) == 0
    ensures [ElementCount(0), ElementCount(1), ElementCount(2), ElementCount(3), ElementCount(4), ElementCount(5)] == [1, 1, 1, 3, 1, 1]
  {
  }

  /** Every element of the packed record, in field order. */
  function PackedElements(regs: AppRegs): (es: seq<Element>)
    requires |regs.pressureTempHumidity| == 3
    ensures |es| == 8
  {
    [ UInt32Elem(regs.pressurePa),
      SingleElem(regs.temperatureC),
      SingleElem(regs.humidityPrh),
      SingleElem(regs.pressureTempHumidity[0]),
      SingleElem(regs.pressureTempHumidity[1]),
      SingleElem(regs.pressureTempHumidity[2]),
      ByteElem(regs.enableSensorDispatchEvents),
      SingleElem(regs.temperatureOffsetC) ]
  }

  /** The number of elements held by the registers before register i. */
  function ElementOffset(i: nat): (k: nat)
    requires i <= RegCount
    ensures k == [0, 1, 2, 3, 6, 7, 8][i]
  {
    SpecsTilePackedRecord();
    if i == 0 then 0 else ElementOffset(i - 1) + ElementCount(i - 1)
  }

  /** The bytes a sequence of elements takes up. */
  function ByteLength(es: seq<Element>): nat
  {
    if |es| == 0 then 0 else ByteLength(es[..|es| - 1]) + SizeOf(ElementType(es[|es| - 1]))
  }

  /**
   * The packed record laid out element by element agrees with app_reg_specs:
   * the elements before register i take up exactly its byte offset, its own
   * elements all have its type, and the whole record is AppRegsSize bytes.
   */
  lemma {:induction false} PackedLayoutMatchesSpecs(regs: AppRegs, i: nat)
    requires |regs.pressureTempHumidity| == 3 && i < RegCount
    ensures ByteLength(PackedElements(regs)[..ElementOffset(i)]) == AppRegSpecs()[i].offset
    ensures forall j :: ElementOffset(i) <= j < ElementOffset(i) + ElementCount(i) ==>
      ElementType(PackedElements(regs)[j]) == AppRegSpecs()[i].regType
    ensures ByteLength(PackedElements(regs)) == AppRegsSize
  {
    SpecsTilePackedRecord();
    var es := PackedElements(regs);
    assert ByteLength(es[..0]) == 0;
    assert es[..1][..0] == es[..0];
    assert ByteLength(es[..1]) == 4;
    assert es[..2][..1] == es[..1];
    assert ByteLength(es[..2]) == 8;
    assert es[..3][..2] == es[..2];
    assert ByteLength(es[..3]) == 12;
    assert es[..4][..3] == es[..3];
    assert ByteLength(es[..4]) == 16;
    assert es[..5][..4] == es[..4];
    assert ByteLength(es[..5]) == 20;
    assert es[..6][..5] == es[..5];
    assert ByteLength(es[..6]) == 24;
    assert es[..7][..6] == es[..6];
    assert ByteLength(es[..7]) == 25;
    assert es[..8][..7] == es[..7];
    assert ByteLength(es[..8]) == 29;
    assert es[..8] == es;
  }

  /** The payload elements of application register i, as the registers hold them. */
  function RegisterElements(regs: AppRegs, i: nat): (es: seq<Element>)
    requires i < RegCount && |regs.pressureTempHumidity| == 3
    ensures es == PackedElements(regs)[ElementOffset(i)..ElementOffset(i) + ElementCount(i)]
    ensures |es| == ElementCount(i)
    ensures forall j :: 0 <= j < |es| ==> ElementType(es[j]) == AppRegSpecs()[i].regType
  {
    var packed := PackedElements(regs);
    match i
    case 0 => assert packed[0..1] == [packed[0]]; [UInt32Elem(regs.pressurePa)]
    case 1 => assert packed[1..2] == [packed[1]]; [SingleElem(regs.temperatureC)]
    case 2 => assert packed[2..3] == [packed[2]]; [SingleElem(regs.humidityPrh)]
    case 3 =>
      assert packed[3..6] == [packed[3], packed[4], packed[5]];
      [SingleElem(regs.pressureTempHumidity[0]), SingleElem(regs.pressureTempHumidity[1]), SingleElem(regs.pressureTempHumidity[2])]
    case 4 => assert packed[6..7] == [packed[6]]; [ByteElem(regs.enableSensorDispatchEvents)]
    case _ => assert packed[7..8] == [packed[7]]; [SingleElem(regs.temperatureOffsetC)]
  }

  /** The reply the Harp core sends for application register i: its address, type and contents. */
  function RegisterReply(regs: AppRegs, i: nat, messageType: MessageType, seconds: Double): (m: HarpMessage)
    requires i < RegCount && |regs.pressureTempHumidity| == 3
    ensures m.address == APP_REG_START_ADDRESS + i && m.messageType == messageType
    ensures m.payloadType == AppRegSpecs()[i].regType && m.payload == RegisterElements(regs, i)
    ensures m.timestamp == Some(seconds)
  {
    HarpMessage(APP_REG_START_ADDRESS + i, messageType, AppRegSpecs()[i].regType, RegisterElements(regs, i), Some(seconds))
  }

  datatype ReadHandler = ReadRegGeneric | NullReadFn
  datatype WriteHandler = WriteToReadOnlyRegError | NullWriteFn
  datatype RegFnPair = RegFnPair(readFn: ReadHandler, writeFn: WriteHandler)

  const ReadOnlyPair: RegFnPair := RegFnPair(ReadRegGeneric, WriteToReadOnlyRegError)

  /**
   * reg_handler_fns as written: an array of reg_count (6) pairs with only
   * five initializers, so the sixth pair is value-initialized to null
   * function pointers.
   */
  function RegHandlerFnsAsWritten(): (fns: seq<RegFnPair>)
    ensures |fns| == RegCount
    ensures forall i :: 0 <= i < RegCount - 1 ==> fns[i] == ReadOnlyPair
    ensures fns[RegCount - 1] == RegFnPair(NullReadFn, NullWriteFn)
  {
    [ReadOnlyPair, ReadOnlyPair, ReadOnlyPair, ReadOnlyPair, ReadOnlyPair, RegFnPair(NullReadFn, NullWriteFn)]
  }

  /** reg_handler_fns with the sixth pair given, like the others, as read-generic with a write error. */
  function RegHandlerFns(): (fns: seq<RegFnPair>)
    ensures |fns| == RegCount
    ensures forall i :: 0 <= i < RegCount ==> fns[i] == ReadOnlyPair
  {
    [ReadOnlyPair, ReadOnlyPair, ReadOnlyPair, ReadOnlyPair, ReadOnlyPair, ReadOnlyPair]
  }

  datatype RequestOutcome = ReplyWithRegister(index: nat) | WriteRejected(index: nat) | NullHandlerCall(index: nat) | NotAppRegister

  /** Dispatch of a host read or write of an application address through a handler table. */
  function HandleAppRequest(fns: seq<RegFnPair>, address: int, write: bool): (o: RequestOutcome)
    requires |fns| == RegCount
    ensures o.NotAppRegister? <==> !(APP_REG_START_ADDRESS <= address < APP_REG_START_ADDRESS + RegCount)
    ensures !o.NotAppRegister? ==> o.index == address - APP_REG_START_ADDRESS
    ensures o.WriteRejected? ==> write
    ensures o.ReplyWithRegister? ==> !write
    ensures !o.NotAppRegister? && write ==>
      (o.WriteRejected? <==> fns[o.index].writeFn == WriteToReadOnlyRegError)
      && (o.NullHandlerCall? <==> fns[o.index].writeFn.NullWriteFn?)
    ensures !o.NotAppRegister? && !write ==>
      (o.ReplyWithRegister? <==> fns[o.index].readFn == ReadRegGeneric)
      && (o.NullHandlerCall? <==> fns[o.index].readFn.NullReadFn?)
  {
    var i := address - APP_REG_START_ADDRESS;
    if i < 0 || i >= RegCount then NotAppRegister
    else if write then
      (if fns[i].writeFn == WriteToReadOnlyRegError then WriteRejected(i) else NullHandlerCall(i))
    else
      (if fns[i].readFn == ReadRegGeneric then ReplyWithRegister(i) else NullHandlerCall(i))
  }

  /** As written, a read or write of address 37 (temperature_offset_c) calls a null handler. */
  lemma OffsetRegisterHasNullHandlers()
    ensures HandleAppRequest(RegHandlerFnsAsWritten(), APP_REG_START_ADDRESS + 5, false) == NullHandlerCall(5)
    ensures HandleAppRequest(RegHandlerFnsAsWritten(), APP_REG_START_ADDRESS + 5, true) == NullHandlerCall(5)
  {
  }

  /** With six pairs, every application register can be read and every write is refused. */
  lemma EveryAppRegisterHandled(address: int, write: bool)
    requires APP_REG_START_ADDRESS <= address < APP_REG_START_ADDRESS + RegCount
    ensures HandleAppRequest(RegHandlerFns(), address, write)
      == if write then WriteRejected(address - APP_REG_START_ADDRESS) else ReplyWithRegister(address - APP_REG_START_ADDRESS)
  {
    assert RegHandlerFns()[address - APP_REG_START_ADDRESS] == ReadOnlyPair;
  }
}
