# EnvironmentSensor Harp device: register catalog, host API and firmware register file

This project models the three pieces of the EnvironmentSensor Harp device that hold logic of their own, and proves properties of the model:

- **The host-side register catalog** (`catalog.dfy`, module `Catalog`). The five application registers are Pressure (32), Temperature (33), Humidity (34), PressureTempHumidity (35) and EnableSensorDispatchEvents (36). The module covers:
  - their constant address, payload type and length;
  - `FromPayload` and `GetPayload` with their timestamped forms;
  - the `Timestamped*` register classes;
  - the `Create*Payload` builders;
  - `Device.RegisterMap`, built by extending the base Harp device map;
  - `GroupByRegister`, which keys each message through that map.
- **The host-side asynchronous API** (`async_device.dfy`, module `AsyncApi`). It covers the identity check of `Device.CreateAsync` and the command each read or write method sends. `CommandAsync` is an oracle from the command sent to the reply received.
- **The firmware register file** (`firmware.dfy`, module `Firmware`). It covers:
  - the packed `app_regs` record, as a class whose three-slot aggregate is an `array`;
  - `sensor_queue`, `cmd_queue` and the dispatched events, as sequences;
  - `app_reset` and `update_app_state`, as methods proved against the specification functions `Reset` and `Step`;
  - the register specification table and the handler table.

`cross_checks.dfy` (module `CrossChecks`) sets the host and the firmware side by side. They agree on the identity (1405 = 0x057D), on the addresses and on the payload types. They disagree in two places, and the model keeps both sides as written:

- **Register 35.** The host declares `Float` × 1. The firmware stores three floats, and its event for address 35 carries all three. The host therefore decodes only the first slot, which holds `float(pressure_pa)`.
- **Register 36.** The host offers a write. The firmware's handler for that address rejects every write.

`harp.dfy` (module `Harp`) is an abstract stand-in for the parts of the Bonsai.Harp library that the generated code calls. A message is a record of address, message type, payload type, payload elements and an optional timestamp. The library is not part of this repository. The model assumes that its `GetPayload*` readers fail on a message of another payload type, on an empty payload, and (for the timestamped readers) on a missing timestamp. Floats are kept as IEEE-754 bit patterns (`Single`, `Double`). No floating-point arithmetic is interpreted: the firmware's float addition and its `float(uint32_t)` conversion are the two functions of a `FloatOps` record, and the class is parameterised by that record.

The five per-register C# classes become one generic API over a `Register` datatype. Register values are one `Element` (a byte, a uint32 or a single). `FromPayload` requires the element's type to match the register's type, which C# enforces through static typing.

## Model

| member | source | states |
|---|---|---|
| `Catalog.Address` | software/bonsai/Interface/AllenNeuralDynamics.EnvironmentSensor/Device.Generated.cs:170 | Each register's address constant lies in 32..36 (the same constant is at lines 266, 362, 458 and 554). |
| `Catalog.RegisterType` | software/bonsai/Interface/AllenNeuralDynamics.EnvironmentSensor/Device.Generated.cs:175 | The payload type is U32 exactly for `Pressure` and U8 exactly for `EnableSensorDispatchEvents`; every other register is Float. |
| `Catalog.RegisterLength` | software/bonsai/Interface/AllenNeuralDynamics.EnvironmentSensor/Device.Generated.cs:180 | Every register, `PressureTempHumidity` included, is declared as one element. |
| `Catalog.RegisterAt` | software/bonsai/Interface/AllenNeuralDynamics.EnvironmentSensor/Device.Generated.cs:170-180 | Inverts `Address`: an address maps to the register that has it, and an address outside 32..36 maps to no register at all. |
| `Catalog.AddressesDistinct` | software/bonsai/Interface/AllenNeuralDynamics.EnvironmentSensor/Device.Generated.cs:170-180 | The five addresses are pairwise distinct, and `RegisterAt(Address(r)) == r`. |
| `Catalog.RegisterConstants` | software/bonsai/Interface/AllenNeuralDynamics.EnvironmentSensor/Device.Generated.cs:170-180 | The constants are (32, U32, 1), (33, Float, 1), (34, Float, 1), (35, Float, 1) and (36, U8, 1), as at lines 170-180, 266-276, 362-372, 458-468 and 554-564. Register `r` is entry `Address(r) - 32` of the five-entry list. |
| `Catalog.GetPayload` | software/bonsai/Interface/AllenNeuralDynamics.EnvironmentSensor/Device.Generated.cs:187-190 | Succeeds exactly when the message has the register's payload type and a first element of that type. The value it returns is the message's first payload element, so it has the register's type. The address is not checked. |
| `Catalog.GetTimestampedPayload` | software/bonsai/Interface/AllenNeuralDynamics.EnvironmentSensor/Device.Generated.cs:197-200 | Succeeds exactly when `GetPayload` does and the message carries a timestamp. It returns that timestamp paired with `GetPayload`'s value. |
| `Catalog.FromPayload` | software/bonsai/Interface/AllenNeuralDynamics.EnvironmentSensor/Device.Generated.cs:211-214 | Builds a message at the register's own address, of the given message type and the register's payload type, carrying exactly the one value, with no timestamp. |
| `Catalog.FromTimestampedPayload` | software/bonsai/Interface/AllenNeuralDynamics.EnvironmentSensor/Device.Generated.cs:227-230 | Builds the untimestamped message with the timestamp set. Address, type and payload are unchanged. |
| `Catalog.PayloadRoundTrip` | software/bonsai/Interface/AllenNeuralDynamics.EnvironmentSensor/Device.Generated.cs:187-230 | `GetPayload` reads back the value `FromPayload` stored, with or without a timestamp. The timestamped reader returns `(t, v)` from the timestamped message and fails on the untimestamped one. |
| `Catalog.TimestampedAddress` | software/bonsai/Interface/AllenNeuralDynamics.EnvironmentSensor/Device.Generated.cs:244 | A `Timestamped*` class's address identifies its base register. |
| `Catalog.TimestampedGetPayload` | software/bonsai/Interface/AllenNeuralDynamics.EnvironmentSensor/Device.Generated.cs:251-254 | A `Timestamped*` class's `GetPayload` yields the base register's value and the message timestamp, and fails when either is missing. |
| `Catalog.CreatePayload.GetPayload` | software/bonsai/Interface/AllenNeuralDynamics.EnvironmentSensor/Device.Generated.cs:692-695 | Returns the stored property as a value of the target register's payload type. The builder for that register and value is the builder itself. |
| `Catalog.CreatePayload.GetMessage` | software/bonsai/Interface/AllenNeuralDynamics.EnvironmentSensor/Device.Generated.cs:702-705 | Builds the target register's `FromPayload` message for the stored property: its address, the given message type, no timestamp, and a one-element payload holding the property. Reading it back gives the stored property. |
| `Catalog.CreatePayloadFor` | software/bonsai/Interface/AllenNeuralDynamics.EnvironmentSensor/Device.Generated.cs:680-686 | Builds the `Create*Payload` object of register r whose property is set to v. It is defined only for a v of r's payload type. |
| `Catalog.CreatePayloadRoundTrip` | software/bonsai/Interface/AllenNeuralDynamics.EnvironmentSensor/Device.Generated.cs:680-695 | Setting the property and reading it with `GetPayload` gives the same value back, and the builder targets r. Every builder is the one built from its own target and property. |
| `Catalog.CreateTimestampedPayload.GetMessage` | software/bonsai/Interface/AllenNeuralDynamics.EnvironmentSensor/Device.Generated.cs:722-725 | Builds the untimestamped builder's message plus the timestamp only. Reading it back gives `(t, property)`. |
| `Catalog.AppEntries` | software/bonsai/Interface/AllenNeuralDynamics.EnvironmentSensor/Device.Generated.cs:40-44 | The five entries of the device's own register map, in order: each application register keyed by its own address. |
| `Catalog.AddAll` | software/bonsai/Interface/AllenNeuralDynamics.EnvironmentSensor/Device.Generated.cs:37-45 | Adding the entries one by one succeeds exactly when their keys are distinct and absent from the map. The result then has the old entries and the new ones. A failure names a key that is already present or repeated. |
| `Catalog.BuildRegisterMap` | software/bonsai/Interface/AllenNeuralDynamics.EnvironmentSensor/Device.Generated.cs:37-45 | Succeeds exactly when no base key is in 32..36. The map then holds every base entry unchanged, maps each `Address(r)` to `r`, and has no other keys. A failure names a base key that collides with an application address. |
| `Catalog.GroupByRegister` | software/bonsai/Interface/AllenNeuralDynamics.EnvironmentSensor/Device.Generated.cs:63-66 | Every grouped message is keyed by `RegisterMap[address]`, in stream order. The stream ends with a key-not-found error exactly at the first message whose address is not in the map, and nothing after that message is grouped. |
| `Catalog.AppKeyAtAddress` | software/bonsai/Interface/AllenNeuralDynamics.EnvironmentSensor/Device.Generated.cs:37-45 | In the device's map built over a base map of core registers, an address is keyed to an application register exactly when it is that register's address. |
| `Catalog.GroupOfKeyedAddress` | software/bonsai/Interface/AllenNeuralDynamics.EnvironmentSensor/Device.Generated.cs:63-66 | For any map that keys to a register exactly that register's address, the register's group is the grouped messages at that address, in stream order. |
| `Catalog.GroupOfRegister` | software/bonsai/Interface/AllenNeuralDynamics.EnvironmentSensor/Device.Generated.cs:63-66 | With the device's map, the group of an application register holds exactly the grouped messages at that register's address, in order. |
| `AsyncApi.CreateAsync` | software/bonsai/Interface/AllenNeuralDynamics.EnvironmentSensor/AsyncDevice.Generated.cs:22-35 | Returns the device on the given port exactly when the reported identity is 1405. Otherwise it fails with an exception that names the port and the reported identity. |
| `AsyncApi.ReadRequest` | software/bonsai/Interface/AllenNeuralDynamics.EnvironmentSensor/AsyncDevice.Generated.cs:58-206 | The command each register's read method sends is a read at the register's address, with an empty payload of the register's catalog type and no timestamp. |
| `AsyncApi.Request` | software/bonsai/Interface/AllenNeuralDynamics.EnvironmentSensor/AsyncDevice.Generated.cs:58-220 | Every read, plain or timestamped, sends the empty `Read` command for the register's address and payload type. The write operation sends `FromPayload(EnableSensorDispatchEvents, Write, v)`. |
| `AsyncApi.DecodeReply` | software/bonsai/Interface/AllenNeuralDynamics.EnvironmentSensor/AsyncDevice.Generated.cs:74-78 | A read succeeds exactly when the reply has the register's payload type and a first element of that type, and it returns that element. A timestamped read also needs the reply's timestamp, and it returns the timestamp paired with the element. The write ignores the reply. |
| `AsyncApi.Invoke` | software/bonsai/Interface/AllenNeuralDynamics.EnvironmentSensor/AsyncDevice.Generated.cs:58-220 | A read sends an empty `Read` command for the register's address and payload type. The write sends a `Write` of one U8 element to address 36; the generated code does not inspect the reply, so the write's result is `Written` whatever comes back. A read succeeds exactly when the reply has the register's payload type and a first element of that type (and, for a timestamped read, a timestamp). It then returns that first element, with the reply's timestamp when timestamped. |
| `AsyncApi.ReadCommandsMatchCatalog` | software/bonsai/Interface/AllenNeuralDynamics.EnvironmentSensor/AsyncDevice.Generated.cs:58-206 | Register 32 is read with `ReadUInt32`, registers 33 to 35 with `ReadSingle`, and register 36 with `ReadByte`, exactly as the catalog types. A timestamped read sends the same command as the plain read. |
| `AsyncApi.WriteCommandShape` | software/bonsai/Interface/AllenNeuralDynamics.EnvironmentSensor/AsyncDevice.Generated.cs:216-220 | The write sends a Write message at address 36, of type U8, whose payload is exactly `[v]`, with no timestamp. |
| `AsyncApi.OnlyEnableSensorDispatchEventsWritable` | software/bonsai/Interface/AllenNeuralDynamics.EnvironmentSensor/AsyncDevice.Generated.cs:58-220 | An operation sends a Write exactly when it is the register-36 write. Every other operation sends a Read, so registers 32 to 35 are read-only here. |
| `AsyncApi.ReadReturnsRepliedValue` | software/bonsai/Interface/AllenNeuralDynamics.EnvironmentSensor/AsyncDevice.Generated.cs:58-78 | When the device replies with the register message carrying `v` at time `t`, the read returns `v` and the timestamped read returns `(t, v)`. |
| `AsyncApi.ReadsAreTyped` | software/bonsai/Interface/AllenNeuralDynamics.EnvironmentSensor/AsyncDevice.Generated.cs:58-206 | Whatever the reply is, a successful read returns a value of the register's catalog type, and a read never yields a write acknowledgement. |
| `Firmware.ResetRegs` | firmware/src/main.cpp:89-99 | After reset, pressure, temperature, humidity and all three aggregate slots are zero, the offset register holds -5.49f and the enable flag is 1. |
| `Firmware.Reset` | firmware/src/main.cpp:89-103 | Reset sets the registers to `ResetRegs` and appends exactly one 0xff to `cmd_queue`. The sensor queue and the events are unchanged. |
| `Firmware.App.constructor` | firmware/src/main.cpp:56-66 | The register file in static storage starts with every register zero and both queues empty. |
| `Firmware.Booted` | firmware/src/main.cpp:157-158 | `main`'s two writes before its run loop: the enable flag becomes 1 and the offset register `TEMPERATURE_OFFSET_C`; every other register, both queues and the event log are unchanged. |
| `Firmware.BootOfZeroedRecordIsResetRegs` | firmware/src/main.cpp:89-102 | On the zeroed static record, those two writes give exactly the registers `app_reset` gives, but, unlike `app_reset`, post no command to the sensor core. |
| `Firmware.App.Boot` | firmware/src/main.cpp:157-158 | The new state is `Booted` of the old one. |
| `Firmware.App.AppReset` | firmware/src/main.cpp:89-103 | The method's new state is `Reset` of its old state, with the aggregate array updated in place. |
| `Firmware.App.UpdateAppState` | firmware/src/main.cpp:105-128 | The method's new state is `Step` of its old state, given HarpCore's muted and events-enabled flags. |
| `Firmware.DispatchesEvent` | firmware/src/main.cpp:122 | No contract of its own: the event condition, true exactly when the device is not muted, events are enabled and the enable register is non-zero. `StepWithSample` states its use. |
| `Firmware.ApplySample` | firmware/src/main.cpp:112-119 | The sample's pressure and humidity land in their registers, the temperature is the sample's plus the offset constant, the aggregate mirrors the three, and the enable flag and the offset register keep their values. |
| `Firmware.Step` | firmware/src/main.cpp:105-124 | One call of `update_app_state` leaves the command queue alone. With a sample waiting it removes exactly the head of the sensor queue and the registers become `ApplySample` of it. It appends at most one event and keeps the earlier ones. |
| `Firmware.StepWithoutSample` | firmware/src/main.cpp:105-108 | With the sensor queue empty, the update changes no register and no queue, and emits no event. |
| `Firmware.StepWithSample` | firmware/src/main.cpp:108-123 | With a sample waiting, exactly the head sample is removed. Its pressure and humidity are stored, and its temperature plus the offset constant. The aggregate mirrors them. `cmd_queue`, the offset register and the enable flag are untouched. One event for address 35 is appended exactly when the device is unmuted, events are enabled and the flag is non-zero. |
| `Firmware.StepKeepsMirrored` | firmware/src/main.cpp:117-119 | The update preserves the invariant that the aggregate equals `[float(pressure_pa), temperature_c, humidity_prh]`. |
| `Firmware.StepIgnoresOffsetRegister` | firmware/src/main.cpp:112 | The update never reads the `temperature_offset_c` register. Changing that register before the update changes only that register after it. |
| `Firmware.StepsDrainQueue` | firmware/src/main.cpp:105-128 | After n updates, min(n, queue length) samples have been consumed in FIFO order. The registers hold the last sample consumed. There is one event per consumed sample when the dispatch condition holds, and none otherwise. |
| `Firmware.AppRegSpecs` | firmware/src/main.cpp:69-77 | Six specs, one per application register, each of a non-zero size that is a whole number of elements of its type. `SpecsTilePackedRecord` gives their sizes, types and offsets; `PackedLayoutMatchesSpecs` ties them to the fields. |
| `Firmware.ElementCount` | firmware/src/main.cpp:69-77 | Each spec's size is its element count times the size of its type. The counts are 1, 1, 1, 3, 1 and 1. |
| `Firmware.SpecsTilePackedRecord` | firmware/src/main.cpp:56-77 | The six specs have sizes 4, 4, 4, 12, 1 and 4 and types U32, Float, Float, Float, U8 and Float. Their offsets start at 0 and each spec ends where the next begins, the last at byte 29, so they cover the record with no gap and no overlap. Their element counts are 1, 1, 1, 3, 1 and 1. That spec i describes field i of `app_regs_t` is `PackedLayoutMatchesSpecs`. |
| `Firmware.RegisterElements` | firmware/src/main.cpp:69-77 | The contents of register i are the `ElementCount(i)` fields of the packed record that start at element `ElementOffset(i)`, in field order. They all have the spec's type. |
| `Firmware.PackedElements` | firmware/src/main.cpp:57-65 | The eight elements of `app_regs_t` in declaration order. `PackedLayoutMatchesSpecs` ties them to the specs' offsets and types. |
| `Firmware.ElementOffset` | firmware/src/main.cpp:56-77 | Register i starts at element 0, 1, 2, 3, 6 or 7 of the packed record, and the record holds 8 elements. |
| `Firmware.PackedLayoutMatchesSpecs` | firmware/src/main.cpp:56-77 | The elements before register i take up exactly that register's byte offset in `app_reg_specs`. The register's own elements have its spec type. The whole record is 29 bytes. |
| `Firmware.RegisterReply` | firmware/src/main.cpp:123 | The reply for register i is addressed to `APP_REG_START_ADDRESS + i`. It carries the register's spec type, the fields that `RegisterElements` gives for it, and the timestamp. |
| `Firmware.RegHandlerFnsAsWritten` | firmware/src/main.cpp:80-87 | The handler table as written has `reg_count` (6) pairs. Pairs 0-4 are the generic read with the read-only write error. Pair 5 is two null handlers. |
| `Firmware.OffsetRegisterHasNullHandlers` | firmware/src/main.cpp:80-87 | With the table as written, a read or a write of address 37 reaches a null handler. |
| `Firmware.RegHandlerFns` | firmware/src/main.cpp:80-87 | The corrected table has six pairs, each a generic read with a write error. |
| `Firmware.HandleAppRequest` | firmware/src/main.cpp:80-87 | Dispatch reaches a handler exactly for addresses 32..37, and the handler used is pair `address - 32` of the table. A read replies with the register exactly when that pair's read handler is the generic read; a write is rejected exactly when its write handler is the read-only error. A null handler in that slot gives a null-handler call. |
| `Firmware.EveryAppRegisterHandled` | firmware/src/main.cpp:80-87 | With the corrected table, every application register can be read and every write to one is rejected. |
| `CrossChecks.IdentityAgrees` | software/bonsai/Interface/AllenNeuralDynamics.EnvironmentSensor/Device.Generated.cs:25 | The host's `WhoAmI` (1405) equals the firmware's `ENV_SENSOR_DEVICE_ID` (0x057D, firmware/inc/config.h:31), so `CreateAsync` accepts this firmware. |
| `CrossChecks.CatalogMatchesSpecTable` | firmware/src/main.cpp:69-77 | Host registers 32 to 36 are firmware application registers 0 to 4, with the same payload types. Every length except register 35's agrees. Firmware register 37 has no host register. |
| `CrossChecks.AggregateLengthDisagrees` | software/bonsai/Interface/AllenNeuralDynamics.EnvironmentSensor/Device.Generated.cs:458-468 | For register 35 the host declares Float × 1, while the firmware stores 12 bytes, which is Float × 3. |
| `CrossChecks.HostReadsFirstAggregateSlot` | firmware/src/main.cpp:117-123 | The firmware's aggregate event is addressed to the host's PressureTempHumidity register and carries three floats. The host decodes the first one only, which after a sample is `float(pressure_pa)`. |
| `CrossChecks.AggregateEventGroupsUnderAggregate` | software/bonsai/Interface/AllenNeuralDynamics.EnvironmentSensor/Device.Generated.cs:63-66 | Through the device's register map, the firmware's aggregate event is grouped under PressureTempHumidity. |
| `CrossChecks.HostWriteRejectedByFirmware` | software/bonsai/Interface/AllenNeuralDynamics.EnvironmentSensor/AsyncDevice.Generated.cs:216-220 | The host's write to register 36 reaches the firmware's handler for application register 4, which rejects the write. |
| `CrossChecks.HostReadsAnswered` | software/bonsai/Interface/AllenNeuralDynamics.EnvironmentSensor/AsyncDevice.Generated.cs:58-206 | Every read the host can issue is dispatched to the register's generic read handler, both by the handler table as written and by the six-pair table. The host decodes the firmware's reply for that register as the register's first element, with the reply's timestamp for a timestamped read. |

## Findings

| source | as written | input that shows it | evidently intended | confidence | as-written member | corrected member |
|---|---|---|---|---|---|---|
| firmware/src/main.cpp:80-87 | `reg_handler_fns[reg_count]` with `reg_count` = 6 has only five initialisers. The sixth pair, for `temperature_offset_c` at address 37, is therefore value-initialised to two null function pointers. | A host read or write of address 37 (application register 5). | Six handler pairs, so that every register in `app_reg_specs` has a handler. The model takes the sixth as the same generic-read / write-error pair as the others. | medium, not executed. This assumes that the Harp core dispatches every address below `APP_REG_START_ADDRESS + reg_count` through the table without a null check; that code is not part of this model. | `Firmware.RegHandlerFnsAsWritten`, `Firmware.OffsetRegisterHasNullHandlers` | `Firmware.RegHandlerFns`, `Firmware.EveryAppRegisterHandled` |

## Left out

- The Bonsai.Harp library: the wire format, the checksum, the timestamp encoding, and the internals of `HarpMessage` and `HarpCommand`. Messages and commands are abstract records. What `GetPayload*` does with a mismatched or empty payload is an assumption of this model.
- `CommandAsync`, the serial port, `CancellationToken` and async scheduling. The reply is an input: the oracle in `AsyncApi.Invoke`, and the reported identity in `AsyncApi.CreateAsync`.
- `AsyncApi.Invoke`: error replies, timeouts and cancellation raised inside `CommandAsync` are not represented; the reply oracle always returns a message. So the model says nothing about what the host sees when the firmware rejects the write to address 36; it states only that the generated code ignores the reply.
- `Catalog.PayloadRoundTrip`: the timestamp is carried as an abstract `Double` and read back unchanged. On the wire a Harp timestamp is whole seconds plus a sub-second tick count, so a real read-back gives the timestamp rounded to the tick resolution.
- `ReadWhoAmIAsync` and the base device's register map belong to the base Harp device class, which is not part of this model. The base map is a parameter of `Catalog.BuildRegisterMap`.
- `AsyncApi.CreateAsync`: the exception carries the port and the identity, but the model does not build the formatted message text.
- The Bonsai operator classes `FilterRegister`, `Parse`, `Format` and `CreateMessage`, together with XML, `Description` and `INamedElement` metadata. These are workflow-editor glue.
- Floating-point arithmetic. The offset addition and `float(pressure_pa)` are uninterpreted functions (`Firmware.FloatOps`).
- `configure_clock`, `set_led_state`, `main`'s run loop (its two register writes before the loop are `Firmware.Booted`), `HarpSynchronizer` and the second core (`core1_setup`, `core1_main`). These are hardware and multi-core concerns, and those bodies are not part of this model.
- `Firmware.App`: `sensor_queue` and `cmd_queue` are unbounded sequences. The blocking behaviour and the capacity of the Pico SDK queues are not modelled. `HarpCore::is_muted()` and `HarpCore::events_enabled()` are inputs of `UpdateAppState`.
- `Firmware.App.UpdateAppState`: an event is logged as the address it is dispatched for. The message that `send_harp_reply` builds belongs to the Harp core library. `Firmware.RegisterReply` gives the modelled contents of that message, with the timestamp as a parameter.
- `Firmware.APP_REG_START_ADDRESS` is defined by the Harp core library, which is not part of this model. It is taken as 32, the first application address, matching the host catalog.
- `Firmware.HandleAppRequest` models only table selection. What `read_reg_generic` and `write_to_read_only_reg_error` send back is left to the Harp core library.
- The Python demonstration script and the Arduino timing shims. Both are I/O only.
