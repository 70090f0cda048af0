# ecAsyn frame decode and dispatch, modelled in Dafny

This project models the IOC side of the EtherCAT scanner bridge in
`ethercatApp/src/ecAsyn.cpp`. It covers the following:

- **Channel naming and lookup.** `makeParamName` joins a PDO's name and an
  entry's name with `.` and strips every space. `mapping_by_name` finds a
  device's first mapping with a given name.
- **Samplers.** A plain `Sampler` pushes one decoded value per frame into its
  ADC. An `Oversampler` reads a sub-cycle counter from the frame, ignores a
  repeated sub-cycle, counts gaps modulo 65536 in an `XFC<n>_MISSED`
  parameter, and pushes `oversampling_rate` int16 samples.
- **The master's health tracker** (`ecMaster`). It republishes each frame's
  cycle, working counter and working-counter state, and counts cycle breaks.
- **One port per device** (`ecAsyn`):
  - Construction wires the registered sampler configs. It then creates one
    parameter per PDO entry mapping, plus `AL_STATE` and `ERROR_FLAG`.
  - Per frame it runs every sampler, publishes every mapping's value and the
    device's two status bytes.
  - A parameter write goes to the ADC that owns the parameter. Otherwise the
    code sends a `MSG_WRITE` message for `mappings[reason]` (see Findings);
    the model routes it to the mapping behind the parameter.
- **The configuration handshake.** The first configuration received is kept.
  Every later non-empty delivery must carry the same bytes, or the process
  stops; an empty one changes nothing.

The model's modules:

| module | file | what it models |
|---|---|---|
| `Wrappers` | `wrappers.dfy` | `Option` |
| `CInt` | `c_int.dfy` | C integer behaviour: int32 increment with wrap-around, `& INT32_MAX`, truncating `%`, signed `char`, little-endian `int16_t` |
| `Names` | `names.dfy` | `makeParamName` (an in-place compaction over an array) and `mapping_by_name` |
| `Params` | `params.dfy` | the asyn parameter table as the driver uses it: `createParam` hands out indices in creation order; `setIntegerParam` stores a value under a created index and refuses any other |
| `Sampling` | `sampling.dfy` | `Sampler`/`Oversampler` as a class; the step functions and lemmas over runs of frames |
| `Master` | `master.dfy` | `ecMaster` |
| `Device` | `device.dfy` | `ecAsyn`: constructor wiring, `on_pdo_message`, `writeInt32` |
| `ConfigCheck` | `config_check.dfy` | `receive_config_on_connect` |

The stateful parts are classes whose methods are proved against value-level
functions. `Sampler.OnPdoMessage` is proved against `SamplerStep`,
`EcMaster.OnPdoMessage` against `MasterStep`, `EcAsyn.OnPdoMessage` against
`PublishAll`, `SetMappings` and `SetStatusBytes`, and
`ConfigReceiver.ReceiveConfigOnConnect` against `ConfigStep`. Lemmas then
state what the source promises about those functions over whole runs of
frames or connections.

Some things the code does are outside the model and become parameters:

- `cast_int32` (bit-field extraction) is a function parameter `cast`.
- The gadc ADC driver is modelled by three things:
  - each ADC owns a contiguous range of `adcParamCount` parameters
    (`gadc_has_parameter`);
  - its sink is the sequence of samples handed to `gadc_put_sample`;
  - its `gadc_writeInt32` result is a function parameter.

Points of the code's behaviour worth keeping in mind:

- **The master's missed count.** Unlike the Oversampler, the master compares
  `pdo->cycle != lastCycle + 1` exactly, with no modulo. So the wrap from
  65535 to 0 counts as missed there (`Master.WrapCountsAsMissed`).
- **What the Oversampler publishes.** On a gap it publishes `missed++`, which
  is the count *before* the increment (`Sampling.GapPublishesPreviousCount`).
- **Counter types.** `lastCycle` and `missed` are plain `int`. `missed` is
  modelled as a wrapping int32, and the published value is masked with
  `INT32_MAX`.

## Model

| member | source | states |
|---|---|---|
| CInt.Inc32 | ethercatApp/src/ecAsyn.cpp:148 | `missed++` on an int: the result is congruent to x + 1 modulo 2^32, and equals x + 1 below INT32_MAX |
| CInt.MaskInc32 | ethercatApp/src/ecAsyn.cpp:148 | masking with INT32_MAX after one increment is the masked value plus one, modulo 2^31 |
| CInt.MaskInt32Max | ethercatApp/src/ecAsyn.cpp:148 | `x & INT32_MAX` on an int: in 0..INT32_MAX and congruent to x modulo 2^31 |
| CInt.MaskedCount | ethercatApp/src/ecAsyn.cpp:273 | after n increments from 0, the published `missed & INT32_MAX` is n modulo 2^31 |
| CInt.CRem65536 | ethercatApp/src/ecAsyn.cpp:146 | C's `% 65536`: congruent to its operand and takes the operand's sign |
| CInt.SignedChar | ethercatApp/src/ecAsyn.cpp:293-294 | a status byte read through `char` is in -128..127 and congruent to the byte modulo 256 |
| CInt.Int16LE | ethercatApp/src/ecAsyn.cpp:151-154 | an `int16_t` read from two bytes is in range and congruent to lo + 256*hi modulo 65536 |
| Names.RemoveSpacesAppend | ethercatApp/src/ecAsyn.cpp:64-73 | stripping spaces distributes over concatenation |
| Names.RemoveSpacesFixed | ethercatApp/src/ecAsyn.cpp:64-73 | a name is unchanged by stripping exactly when it holds no space |
| Names.RemoveSpacesKeepsOthers | ethercatApp/src/ecAsyn.cpp:64-73 | stripping removes every space and keeps every other character with its multiplicity |
| Names.RemoveSpacesLength | ethercatApp/src/ecAsyn.cpp:64-73 | the stripped length is the length minus the number of spaces |
| Names.MakeParamName | ethercatApp/src/ecAsyn.cpp:61-75 | the in-place compaction over the formatted buffer yields "pdo.entry" with every space removed, no space left and no longer than the input |
| Names.ResolveFrom | ethercatApp/src/ecAsyn.cpp:79-90 | the result is the first mapping at or after `from` with the name; None exactly when no later mapping has it |
| Names.ResolveFirstMatch | ethercatApp/src/ecAsyn.cpp:77-91 | a lookup succeeds exactly when some mapping carries the name, and then returns the first such mapping |
| Names.QueryWithSpaceNeverResolves | ethercatApp/src/ecAsyn.cpp:83 | the query is compared unnormalised, so a name containing a space never resolves |
| Names.MappingByName | ethercatApp/src/ecAsyn.cpp:77-91 | the loop returns the first mapping whose parameter name equals the query, or None when there is none |
| Params.ParamTable.CreateParam | ethercatApp/src/ecAsyn.cpp:251 | `createParam` returns the next index in creation order and adds one parameter; the values stay as they were |
| Params.ParamTable.SetIntegerParam | ethercatApp/src/ecAsyn.cpp:289 | `setIntegerParam` stores the value under a created index and reports success; any other index leaves the table alone and is refused |
| Sampling.Int16Samples | ethercatApp/src/ecAsyn.cpp:151-155 | the burst has `stride` samples; sample k is the int16 at byte offset + 2k |
| Sampling.Sampler.Plain | ethercatApp/src/ecAsyn.cpp:106-112 | the ADC's parameters are the next adcParamCount indices; the sampler starts with an empty sink and zero counters |
| Sampling.Sampler.Oversampler | ethercatApp/src/ecAsyn.cpp:129-135 | lastCycle and missed start at 0; XFC<n>_MISSED is created right after the ADC's parameters |
| Sampling.OversampleStep | ethercatApp/src/ecAsyn.cpp:138-157 | the Oversampler's step on a frame with cycle `cyc`; its properties are stated by RepeatIsNoOp, GapPublishesPreviousCount and the run lemmas below |
| Sampling.SamplerStep | ethercatApp/src/ecAsyn.cpp:113-157 | the step of either sampler class on a frame: a plain sampler appends one cast value; an Oversampler takes OversampleStep with its cycle and int16 burst; Sampler.OnPdoMessage is proved to follow it |
| Sampling.Sampler.OnPdoMessage | ethercatApp/src/ecAsyn.cpp:113-157 | the new state and parameter table are those of SamplerStep: one cast value for a plain sampler; for an Oversampler, a repeated cycle changes nothing, and otherwise a gap publishes the masked old count, increments missed, and the burst is appended |
| Sampling.PublishAllTouchesOnlyMissed | ethercatApp/src/ecAsyn.cpp:281-284 | running all samplers changes no parameter other than the Oversamplers' missed parameters |
| Sampling.OversampleRunLast | ethercatApp/src/ecAsyn.cpp:140-150 | after any run, lastCycle is the last frame's cycle |
| Sampling.OversampleRunSink | ethercatApp/src/ecAsyn.cpp:140-155 | over any run, the sink receives exactly the bursts of the non-repeated frames, in order |
| Sampling.OversampleRunMissed | ethercatApp/src/ecAsyn.cpp:140-149 | over any run, missed advances once per gap frame (neither a repeat nor the successor modulo 65536), however long the gap |
| Sampling.ContiguousRunMissesNothing | ethercatApp/src/ecAsyn.cpp:146 | cycles that count up by one modulo 65536 never raise missed |
| Sampling.RepeatIsNoOp | ethercatApp/src/ecAsyn.cpp:140-144 | delivering the same cycle again changes nothing and publishes nothing |
| Sampling.GapPublishesPreviousCount | ethercatApp/src/ecAsyn.cpp:146-149 | a gap publishes the count before the increment, masked, and increments missed |
| Sampling.FirstFrameAtCycleZeroSkipped | ethercatApp/src/ecAsyn.cpp:131-144 | since lastCycle starts at 0, a first frame with cycle 0 is dropped as a repeat |
| Sampling.SkippedCycleCountsOnce | ethercatApp/src/ecAsyn.cpp:136-157 | cycles 0, 1, 3 give missed = 1 and a sink holding the bursts of 1 and 3 |
| Sampling.WrapIsContiguous | ethercatApp/src/ecAsyn.cpp:146 | cycles 65534, 65535, 0 after 65533 leave missed unchanged |
| Master.MasterStep | ethercatApp/src/ecAsyn.cpp:265-269 | the master's counters on one frame; its properties over runs are MasterRunCounts, RepeatCountsAsMissed and WrapCountsAsMissed |
| Master.EcMaster.constructor | ethercatApp/src/ecAsyn.cpp:176-193 | Cycle, WorkingCounter, Missed and WcState get indices 0..3 in creation order; both counters start at 0 |
| Master.EcMaster.OnPdoMessage | ethercatApp/src/ecAsyn.cpp:262-276 | the counters advance by MasterStep; Cycle, WorkingCounter and WcState get the frame's fields, and Missed the masked count |
| Master.MasterRunCounts | ethercatApp/src/ecAsyn.cpp:265-269 | over any run, lastCycle is the last cycle and missed advanced once per frame whose cycle is not exactly the previous one plus 1 |
| Master.PublishedMissedFromStart | ethercatApp/src/ecAsyn.cpp:265-273 | from construction, the published Missed value is the number of broken frames modulo 2^31 |
| Master.RepeatCountsAsMissed | ethercatApp/src/ecAsyn.cpp:265-268 | the master has no duplicate suppression: a repeated cycle counts as missed |
| Master.WrapCountsAsMissed | ethercatApp/src/ecAsyn.cpp:265-268 | 65535 followed by 0 counts as missed |
| Device.WireOne | ethercatApp/src/ecAsyn.cpp:220-238 | the sampler one config yields; what it yields is stated by WireOneResolves |
| Device.WireOneResolves | ethercatApp/src/ecAsyn.cpp:220-243 | a config yields a sampler exactly when its port is the device's and its sample (and cycle, if given) name a mapping; the sampler carries the channel and those mappings |
| Device.WirePlansAppend | ethercatApp/src/ecAsyn.cpp:217-244 | samplers are wired in config order: the configs a + b yield a's samplers followed by b's |
| Device.OtherPortsWireNothing | ethercatApp/src/ecAsyn.cpp:220 | configs for other ports create no sampler |
| Device.WiredSamplersResolve | ethercatApp/src/ecAsyn.cpp:223-238 | every wired sampler refers to mappings of the device; when every config resolves, every config yields a sampler |
| Device.OversamplerShiftsMappingParams | ethercatApp/src/ecAsyn.cpp:133-134 | with any Oversampler, the parameters created before the mapping parameters number at least one |
| Device.WireSampler | ethercatApp/src/ecAsyn.cpp:220-242 | creates a fresh sampler exactly when WireOne yields one, of the class and on the mappings it names; its gadc takes the next adcParamCount parameters and an Oversampler's missed parameter the one after |
| Device.WireSamplers | ethercatApp/src/ecAsyn.cpp:217-244 | the sampler list realises WirePlans in order: distinct samplers sharing the port's table, each in its initial state, laid out one after another from the table's old count in list order (sampler j's gadc owns the adcParamCount parameters after those of the samplers before it, and an Oversampler's missed parameter follows its gadc's), every sampler's parameters below the table's new count, with the table grown by SamplerParamCount |
| Device.CreateParams | ethercatApp/src/ecAsyn.cpp:246-255 | the mapping parameters are consecutive indices from the table's count |
| Device.CreatePortParams | ethercatApp/src/ecAsyn.cpp:246-258 | after the samplers: one parameter per mapping from the table's count, then AL_STATE, then ERROR_FLAG |
| Device.LaidOutCounts | ethercatApp/src/ecAsyn.cpp:217-244 | laid out in config order, sampler j's first gadc parameter is base plus the parameters of the samplers planned before it (SamplerParamCount), and all samplers together take SamplerParamCount parameters |
| Device.LaidOutOrdered | ethercatApp/src/ecAsyn.cpp:217-244 | laid out in config order, every parameter of an earlier sampler comes before the first gadc parameter of a later one |
| Device.LaidOutFirstParam | ethercatApp/src/ecAsyn.cpp:217-244 | laid out from 0, sampler j's first gadc parameter is SamplerParamCount of the plans before j, lies below the first mapping parameter, and the first gadc claiming it is sampler j's |
| Device.LaidOutOwner | ethercatApp/src/ecAsyn.cpp:341-347 | with the constructor's layout, sampler j's first gadc parameter is claimed by sampler j's adc and by no sampler before it |
| Device.EcAsyn.constructor | ethercatApp/src/ecAsyn.cpp:195-260 | distinct samplers realising WirePlans, each in its initial state, with their gadc and missed parameters laid out from 0 in config order and all below the first mapping parameter; then one parameter per mapping from SamplerParamCount on, then AL_STATE and ERROR_FLAG; values empty, no write sent |
| Device.EcAsyn.RunSamplers | ethercatApp/src/ecAsyn.cpp:281-284 | each sampler takes its SamplerStep, and the table equals PublishAll over the samplers in list order |
| Device.EcAsyn.PublishMappings | ethercatApp/src/ecAsyn.cpp:285-290 | the table equals SetMappings: each mapping's parameter set to its cast value, in list order |
| Device.SetMappingsValues | ethercatApp/src/ecAsyn.cpp:285-290 | with distinct created parameters, each mapping's parameter holds that mapping's value and no other key changes |
| Device.DispatchPublishes | ethercatApp/src/ecAsyn.cpp:285-294 | with the constructor's layout, every mapping parameter holds its value, and AL_STATE and ERROR_FLAG hold the device's two status bytes as signed chars |
| Device.EcAsyn.PublishStatus | ethercatApp/src/ecAsyn.cpp:293-294 | the table equals SetStatusBytes: AL_STATE and ERROR_FLAG take the two bytes at `meta`, read as signed chars |
| Device.EcAsyn.OnPdoMessage | ethercatApp/src/ecAsyn.cpp:278-297 | samplers, then mappings, then status bytes; it aborts exactly when the status bytes at pdo.size + 2*devid are not before `size`, and then the status bytes are not set |
| Device.AdcOwnerFrom | ethercatApp/src/ecAsyn.cpp:341-348 | the first sampler whose ADC owns the parameter; None exactly when none does |
| Device.WriteTargetAsWritten | ethercatApp/src/ecAsyn.cpp:349-351 | the mapping index writeInt32 uses as written: `reason` itself when 0 <= reason < pdos; AsWrittenMisroutes and OversamplerDeviceMisroutes show where it differs from WriteTarget |
| Device.WriteTarget | ethercatApp/src/ecAsyn.cpp:349-351 | corrected routing: the mapping whose parameter the write addresses, None exactly for parameters outside the mapping range |
| Device.WriteTargetFindsOwnMapping | ethercatApp/src/ecAsyn.cpp:252 | writing mapping k's own parameter addresses mapping k, and a parameter that is not a mapping's addresses none |
| Device.AsWrittenAgreesWithoutSamplerParams | ethercatApp/src/ecAsyn.cpp:349-351 | with no parameter created before the mapping parameters, the lookup as written is right |
| Device.AsWrittenMisroutes | ethercatApp/src/ecAsyn.cpp:349-351 | with `first` earlier parameters, mapping 0's parameter is routed to mapping `first`, and the last mapping's parameter sends nothing |
| Device.OversamplerDeviceMisroutes | ethercatApp/src/ecAsyn.cpp:349-351 | a device type with exactly two PDOs of one entry each (PdoA.a, PdoB.b) and one Oversampler whose gadc has g parameters: PdoA.a is parameter g + 1 and PdoB.b g + 2; as written, a write to PdoB.b reaches no mapping, a write to PdoA.a reaches PdoB.b when g = 0 and nothing otherwise, and for g <= 1 a write to XFC1_MISSED (parameter g) is sent as a write to mapping g |
| Device.EcAsyn.WriteInt32 | ethercatApp/src/ecAsyn.cpp:337-361 | the base class stores the value first; the first sampler whose ADC owns the parameter handles the write (gadc_writeInt32 on that sampler's own adc) and no message is queued; otherwise a MSG_WRITE with the mapping's offset, bit position and width is queued for a mapping parameter, and nothing for any other; in particular mapping k's own parameter queues mapping k's message, since no gadc owns a mapping parameter |
| Device.NoAdcOwnsParamsAbove | ethercatApp/src/ecAsyn.cpp:341-348 | when every sampler's parameters lie below `limit`, no gadc claims a parameter at or above it, so the ADC loop passes mapping parameters on |
| Device.WriteAdcParamOnNewPort | ethercatApp/src/ecAsyn.cpp:341-347 | on a port fresh from its constructor, with gadcs of at least one parameter, writing sampler j's first gadc parameter returns sampler j's gadc_writeInt32 answer, stores the value and queues no message |
| Device.WriteOnNewPort | ethercatApp/src/ecAsyn.cpp:195-260 | on a port fresh from its constructor, writing mapping k's parameter (SamplerParamCount + k) succeeds, stores the value and queues exactly mapping k's write message |
| ConfigCheck.ConfigStep | ethercatApp/src/ecAsyn.cpp:429-445 | an empty receive changes nothing; the first configuration is stored; a stored one survives only identical or empty deliveries, and any other non-empty delivery aborts |
| ConfigCheck.ConfigRunKeepsFirst | ethercatApp/src/ecAsyn.cpp:429-445 | over any connections, the IOC keeps the first configuration and stops exactly when a later connection delivers different non-empty bytes |
| ConfigCheck.SameConfigNeverAborts | ethercatApp/src/ecAsyn.cpp:441-444 | reconnecting any number of times with the loaded configuration never stops the IOC |
| ConfigCheck.ConfigReceiver.ReceiveConfigOnConnect | ethercatApp/src/ecAsyn.cpp:423-447 | reports a connection exactly when size > 0; the new state is ConfigStep's; config_ready is signalled once, when the configuration is first stored |

## Left out

- Locking: `lock`/`unlock` and the list lock are not modelled. Each method is one atomic step.
- `callParamCallbacks` and the asyn interrupt machinery.
- Params.ParamTable.CreateParam: takes no name and always hands out the next fresh index, so every name the port creates is assumed to be new. asyn's `createParam` looks the name up first and, for a name it already has, returns the existing index together with an error status. Names can repeat: two Oversamplers on the same channel both create `XFC<n>_MISSED` (line 133), and two mappings can share a `makeParamName` result (line 251), since removing spaces makes `A.b c` and `A.bc` equal. With a repeated name, two mappings would share one parameter and dispatch (line 289) would leave only the later value there. The layout contracts (`Consecutive`, `LaidOut`) and `DispatchPublishes` therefore describe only ports whose parameter names are all distinct.
- The asyn parameter capacity given to the base class (`pdos + N_RESERVED_PARAMS + ...`) is not modelled. The table never refuses `createParam`.
- `cast_int32`, the unpack functions, `init_unpack` and `readConfig` are not modelled. Bit-field decoding is the parameter `cast`, and the configuration's parsing is outside the model.
- The gadc driver's internals are left out, and so is `gadc_new`'s real parameter count. Each ADC is assumed to create `adcParamCount` consecutive parameters.
- `readInt32` and `readInt32Array` are not modelled. They only forward to the ADC.
- `pdo_data`'s fan-out to the master and then each port is not modelled as its own operation. The pieces are `EcMaster.OnPdoMessage` and `EcAsyn.OnPdoMessage`.
- The `Configure_Sampler` iocsh registration, `printf`, and the memory leaks of the `PdoParam` and `mappings` arrays are left out.
- The message queue behind `writeq` and `config_ready` is not modelled. A write is appended to `writes`, and `config_ready` is counted in `readySignals`.
- The assert in `on_pdo_message` compares an offset measured from the payload with the size of the whole message, so a status-byte read up to the header's length past the end of the message passes it. The layout of the message header is not part of this model, so the model takes `size <= |pdo.buffer|` as given and does not model reads past the buffer.
- Device.EcAsyn.constructor: takes `|device.mappings| == pdos` as a precondition. In the code, `pdos` counts PDOs across the sync managers, which can differ from the number of entry mappings.
- Sampling.Sampler.OnPdoMessage: requires the Oversampler's burst to lie inside the frame buffer. The code reads whatever memory follows.
- Names.MappingByName: requires the mapping names to contain no NUL. `strlen` would cut a name at a NUL.
- The code's `lastCycle + 1` overflows `int` when `lastCycle` is `INT32_MAX`, which is undefined behaviour in C. In `ecMaster` the model types the frame's cycle as `uint16` (`Sampling.Pdo`), so there the increment stays in range. The Oversampler's cycle is `cast_int32` of an arbitrary mapping, so there it can: the model computes `lastCycle + 1` without bounds, which gives `CRem65536(2^31) == 0`, the usual two's-complement outcome.
- Device.EcAsyn.OnPdoMessage: assumes no other port rewrites the parameter indices of this device's entries. The code keeps each mapping's index in the shared entry record (`pdo_entry->parameter`, set at line 252 and read at line 289), and an entry can be shared by the devices of one device type. A later port's constructor would then overwrite the indices an earlier port publishes to; the model keeps each port's indices in its own `mappingParams` and does not capture that aliasing.
- C `char` is taken as signed and `int16_t` as little-endian, as on the x86 IOC hosts.
- Device.EcAsyn.WriteInt32: routes mapping parameters by `reason - firstMappingParam` (see Findings), not by `reason` as written.

## Findings

| source | as written | input that shows it | evidently intended | confidence | as-written member | corrected member |
|---|---|---|---|---|---|---|
| ethercatApp/src/ecAsyn.cpp:349-351 | `writeInt32` indexes `mappings[reason]` for `0 <= reason < pdos`. Mapping parameters are created only after every sampler's ADC parameters and each Oversampler's `XFC<n>_MISSED` (lines 133, 228-235, 251), so their indices start at the number of those parameters, not at 0. | a device type with exactly two PDOs, `PdoA` and `PdoB`, of one entry each (so `pdos` is 2 and the mappings are `PdoA.a`, `PdoB.b`), and one Oversampler on them whose gadc creates g parameters: the gadc takes 0 .. g - 1, `XFC1_MISSED` is g, `PdoA.a` is g + 1 and `PdoB.b` is g + 2. A write to `PdoB.b` is never sent. A write to `PdoA.a` is sent for `PdoB.b` when g is 0 and not at all otherwise. When g is at most 1, a write to `XFC1_MISSED` is sent for mapping g. | a write to a mapping's parameter goes to that mapping: `mappings[reason - first]`, with `first` the first mapping parameter | medium, not executed; it assumes the asyn base class numbers parameters in creation order from 0 | Device.WriteTargetAsWritten, Device.AsWrittenMisroutes, Device.OversamplerDeviceMisroutes | Device.WriteTarget, Device.WriteTargetFindsOwnMapping, Device.EcAsyn.WriteInt32, Device.WriteOnNewPort |
