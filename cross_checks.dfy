/**
 * What the host catalog and the firmware register file say about the same
 * device, side by side: where they agree, and the two places where they do
 * not (the length of register 35 and the writability of register 36).
 */
module CrossChecks {
  import opened Wrappers
  import opened Harp
  import opened Catalog
  import opened AsyncApi
  import opened Firmware

  /** The host's identity constant is the firmware's device ID. */
  lemma IdentityAgrees()
    ensures WhoAmI == ENV_SENSOR_DEVICE_ID
    ensures CreateAsync("port", ENV_SENSOR_DEVICE_ID).Success?
  {
  }

  /**
   * The five host registers are firmware application registers 0-4, at the
   * same addresses and of the same payload types; the firmware's sixth
   * register (temperature_offset_c, address 37) has no host counterpart.
   */
  lemma CatalogMatchesSpecTable(r: Register)
    ensures 0 <= Address(r) - APP_REG_START_ADDRESS < RegCount - 1
    ensures RegisterType(r) == AppRegSpecs()[Address(r) - APP_REG_START_ADDRESS].regType
    ensures r != PressureTempHumidity ==> RegisterLength(r) == ElementCount(Address(r) - APP_REG_START_ADDRESS)
    ensures RegisterAt(APP_REG_START_ADDRESS + RegCount - 1) == None
  {
    SpecsTilePackedRecord();
  }

  /** Register 35 disagrees: the host says one float, the firmware stores three. */
  lemma AggregateLengthDisagrees()
    ensures RegisterLength(PressureTempHumidity) == 1
    ensures RegisterType(PressureTempHumidity) == Float
    ensures ElementCount(Address(PressureTempHumidity) - APP_REG_START_ADDRESS) == 3
    ensures AppRegSpecs()[Address(PressureTempHumidity) - APP_REG_START_ADDRESS].size == 3 * SizeOf(Float)
  {
    SpecsTilePackedRecord();
  }

  /**
   * The aggregate event the firmware dispatches is addressed to the host's
   * PressureTempHumidity register, but the host decodes only its first slot:
   * after a sample is taken that is float(pressure_pa), not a temperature or
   * humidity.
   */
  lemma HostReadsFirstAggregateSlot(s: AppState, muted: bool, eventsEnabled: bool, floats: FloatOps, seconds: Double)
    requires |s.sensorQueue| > 0
    ensures var t := Step(s, muted, eventsEnabled, floats);
      var event := RegisterReply(t.regs, 3, Event, seconds);
      && (DispatchesEvent(muted, eventsEnabled, s.regs) ==> t.events[|t.events| - 1] == event.address)
      && RegisterAt(event.address) == Some(PressureTempHumidity)
      && |event.payload| == 3 != RegisterLength(PressureTempHumidity)
      && GetTimestampedPayload(PressureTempHumidity, event)
           == Success(Timestamped(seconds, SingleElem(floats.fromUInt32(s.sensorQueue[0].pressurePa))))
  {
    StepWithSample(s, muted, eventsEnabled, floats);
    var t := Step(s, muted, eventsEnabled, floats);
    assert t.regs.pressureTempHumidity[0] == floats.fromUInt32(s.sensorQueue[0].pressurePa);
  }

  /** Through the device's register map, the aggregate event is grouped under PressureTempHumidity. */
  lemma AggregateEventGroupsUnderAggregate(base: map<int, RegisterKind>, registerMap: map<int, RegisterKind>,
                                            regs: AppRegs, seconds: Double)
    requires BuildRegisterMap(base) == Success(registerMap)
    requires |regs.pressureTempHumidity| == 3
    ensures GroupByRegister(registerMap, [RegisterReply(regs, 3, Event, seconds)]).keyed
      == [(AppRegister(PressureTempHumidity), RegisterReply(regs, 3, Event, seconds))]
  {
    var m := RegisterReply(regs, 3, Event, seconds);
    assert m.address == Address(PressureTempHumidity);
    assert GroupByRegister(registerMap, [m]).keyed[0] == (AppRegister(PressureTempHumidity), m);
  }

  /**
   * Register 36 disagrees: the host offers WriteEnableSensorDispatchEventsAsync,
   * and the firmware's handler for that address rejects every write.
   */
  lemma HostWriteRejectedByFirmware(v: uint8)
    ensures Request(WriteEnableSensorDispatchEventsAsync(v)).messageType == Write
    ensures HandleAppRequest(RegHandlerFns(), Request(WriteEnableSensorDispatchEventsAsync(v)).address, true) == WriteRejected(4)
    ensures HandleAppRequest(RegHandlerFnsAsWritten(), Request(WriteEnableSensorDispatchEventsAsync(v)).address, true) == WriteRejected(4)
  {
    WriteCommandShape(v);
    EveryAppRegisterHandled(36, true);
  }

  /**
   * Every read the host can issue is dispatched by the firmware to the
   * register's read handler, and the host decodes the firmware's reply to it
   * as the first element the register holds (with the reply's timestamp for
   * a timestamped read).
   */
  lemma HostReadsAnswered(op: Operation, regs: AppRegs, seconds: Double)
    requires !op.WriteEnableSensorDispatchEventsAsync? && |regs.pressureTempHumidity| == 3
    ensures var i := Address(op.register) - APP_REG_START_ADDRESS;
      && HandleAppRequest(RegHandlerFns(), Request(op).address, false) == ReplyWithRegister(i)
      && HandleAppRequest(RegHandlerFnsAsWritten(), Request(op).address, false) == ReplyWithRegister(i)
      && DecodeReply(op, RegisterReply(regs, i, Read, seconds))
           == if op.ReadAsync? then Success(Value(RegisterElements(regs, i)[0]))
              else Success(TimestampedValue(Timestamped(seconds, RegisterElements(regs, i)[0])))
  {
    CatalogMatchesSpecTable(op.register);
    EveryAppRegisterHandled(Request(op).address, false);
  }
}
