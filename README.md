# mining-power-controller in Dafny

A model of the controller that runs a solar-powered mining PC. A PV charge
controller is polled over Modbus every 3 seconds. The samples are summarised
into 1-minute and 15-minute values. Each 1-minute value decides whether the PC
is switched on (through a resistor, then the charge controller's load output,
then the power button) or switched off. Each 15-minute value steps the rig's
Nicehash power mode between LOW, MEDIUM and HIGH. A battery heater and a
cooling fan have their own rules. Around the controller sit small clients for
three services:

- Nicehash: signed requests, the POWER_MODE body, rig lookup.
- Hive OS: choosing an overclocking profile and the PATCH that applies it.
- AmbientData: the JSON document of one sample.

Modules, one per source file, plus three helpers:

- `Wrappers`: `Option` and `Result`.
- `Text`: decimal rendering, and joining and splitting at a separator.
- `Json`: Jackson object nodes, where `put` on an existing key replaces it in place.
- `ControlProperties`: `PowerCondition.graterEqual` and `lessEqual`.
- `ControlConfig`: `PowerCondition.compare`.
- `PvDevice`: the register map and the decoding in `PvControllerDevice`.
- `Nicehash`, `Hive`, `Ambient`: the three service clients.
- `Tasks`: the class `PvControllerTasks`. Its fields are `initialized`, the three sample buffers, `shutdownRequest`, `pcStartTime`, the pending fan stop, the cached rig status, and a `trace` of actuator events. The summary of a buffer (`summarize`) is a constant function given at construction.

Modelling choices:

- Things the source reads from outside are parameters: the PC power pin, the clock, the temperature sensor, HTTP replies, and whether the executor is busy.
- The delayed fan stop sleeps on an executor thread, so the executor is never idle while a fan stop is pending. `PowerControl`, `PowerOffSequence` and `FanControl` require `fanStopPending ==> !executorIdle`.
- Values are `real`. Register values are unsigned 16-bit words in hundredths.
- Boxed `Double` `==` in the threshold tests compares object identity. The measured value always comes from a fresh summary object, so a value tie scores +1, not 0.
- Time is in seconds. `ChronoUnit.MINUTES.between` becomes truncating division by 60.
- HMAC-SHA256 followed by hex encoding is a function parameter `hmacHex(secret, message)`.
- The UTF-8 bytes of the signed message are modelled as characters, with NUL as `'\0'`.
- `lessEqual` gates each field with `ret <= 0`, exactly like `graterEqual`.
- Outside the heater hours `batteryTempControl` only returns. Its test `now < start && now > end` can hold only for a window that wraps midnight.

## Model

| member | source | states |
|---|---|---|
| ControlProperties.Score | src/main/java/com/heterodain/mining/powercontroller/config/ControlProperties.java:60 | a numeric field scores -1 exactly when the reading is below the threshold and +1 otherwise; the boxed `==` never yields 0 |
| ControlProperties.Verdict | src/main/java/com/heterodain/mining/powercontroller/config/ControlProperties.java:57-72 | with nothing configured `ret` is 0; power at or above its threshold gives 1; without a stage it is -1, 0 or 1; it is 0 only with nothing configured or with the stage exactly at its threshold |
| ControlProperties.VerdictIsFirstPositiveElseLast | src/main/java/com/heterodain/mining/powercontroller/config/ControlProperties.java:57-72 | the running `ret` equals the first positive score among the configured fields (order power, voltage, soc, stage), else the last score, else 0 |
| ControlProperties.GraterEqual | src/main/java/com/heterodain/mining/powercontroller/config/ControlProperties.java:57-72 | holds iff the first positive score of the configured fields, else the last score, else 0, is at least 0 |
| ControlProperties.LessEqual | src/main/java/com/heterodain/mining/powercontroller/config/ControlProperties.java:75-90 | holds iff the first positive score of the configured fields, else the last score, else 0, is at most 0 |
| ControlProperties.FirstPositiveElseLastSnoc | src/main/java/com/heterodain/mining/powercontroller/config/ControlProperties.java:62-70 | each guarded assignment keeps a positive running result and otherwise takes the new score, as the reference rule does for an appended score |
| ControlProperties.NothingConfiguredAcceptsBoth | src/main/java/com/heterodain/mining/powercontroller/config/ControlProperties.java:57-90 | with no field configured both `graterEqual` and `lessEqual` are true |
| ControlProperties.GraterOrLess | src/main/java/com/heterodain/mining/powercontroller/config/ControlProperties.java:75-90 | at least one of `graterEqual`/`lessEqual` holds, and both hold iff the result is 0 |
| ControlProperties.PowerAboveIsFinal | src/main/java/com/heterodain/mining/powercontroller/config/ControlProperties.java:59-70 | a power reading at or above its threshold makes the result +1 whatever the later fields say |
| ControlProperties.PowerTieRejectsLessEqual | src/main/java/com/heterodain/mining/powercontroller/config/ControlProperties.java:77-79 | a reading equal to the power threshold passes `graterEqual` and fails `lessEqual` |
| ControlProperties.StageFollowsIndexOrder | src/main/java/com/heterodain/mining/powercontroller/config/ControlProperties.java:68-71 | with only the stage configured, `graterEqual`/`lessEqual` hold iff the measured stage index is at or above / at or below the configured one |
| ControlProperties.BelowThenLaterOverrides | src/main/java/com/heterodain/mining/powercontroller/config/ControlProperties.java:59-64 | a power reading below its threshold leaves the decision to the voltage field |
| ControlConfig.Compare | src/main/java/com/heterodain/mining/powercontroller/config/ControlConfig.java:46-57 | a configured stage gives the index difference; otherwise soc alone, then voltage alone, gives -1 or +1 by the side of the threshold; nothing configured gives 0 |
| ControlConfig.FirstConfiguredWins | src/main/java/com/heterodain/mining/powercontroller/config/ControlConfig.java:47-52 | fields after the first configured one do not influence the result |
| PvDevice.Combine | src/main/java/com/heterodain/mining/powercontroller/device/PvControllerDevice.java:46-47 | low word + 65536 × high word is below 2^32, and `% 65536` / `/ 65536` give back the two words |
| PvDevice.SplitWords | src/main/java/com/heterodain/mining/powercontroller/device/PvControllerDevice.java:46-47 | every 32-bit count is the combination of its two words |
| PvDevice.RealtimeRequests | src/main/java/com/heterodain/mining/powercontroller/device/PvControllerDevice.java:37-50 | the reads are 16 input registers from 0x3100, then 1 register at 0x311A |
| PvDevice.ReadCurrent | src/main/java/com/heterodain/mining/powercontroller/device/PvControllerDevice.java:36-62 | decoding succeeds iff both reads answered with enough registers (always for complete replies); PV and load power are reg2+65536·reg3 and reg14+65536·reg15 hundredths (the intended unsigned decode, see Findings), voltage reg4 hundredths, SOC the unscaled register |
| PvDevice.DecodeEncoded | src/main/java/com/heterodain/mining/powercontroller/device/PvControllerDevice.java:45-57 | a block carrying given hundredths decodes to exactly those values |
| PvDevice.CombineAsWritten | src/main/java/com/heterodain/mining/powercontroller/device/PvControllerDevice.java:46 | the source's `int` product result differs from the unsigned count by a multiple of 2^32: it is the count or the count minus 2^32 |
| PvDevice.AsWrittenAgreesBelowSignBit | src/main/java/com/heterodain/mining/powercontroller/device/PvControllerDevice.java:46-47 | the source's `int` product gives the intended count while the high word is below 0x8000 |
| PvDevice.AsWrittenOverflows | src/main/java/com/heterodain/mining/powercontroller/device/PvControllerDevice.java:46-47 | from high word 0x8000 on the source's value is the intended one minus 2^32, hence negative |
| PvDevice.AsWrittenOverflowExample | src/main/java/com/heterodain/mining/powercontroller/device/PvControllerDevice.java:46 | low word 0, high word 0x8000: the source computes -2^31 hundredths where 2^31 is meant |
| PvDevice.ReadLoadSwitchRequest | src/main/java/com/heterodain/mining/powercontroller/device/PvControllerDevice.java:73 | the request reads one coil at address 2 |
| PvDevice.ReadLoadSwitch | src/main/java/com/heterodain/mining/powercontroller/device/PvControllerDevice.java:72-83 | the result is the first coil status, and reading fails iff the reply is missing or empty |
| PvDevice.ChangeLoadSwitchRequest | src/main/java/com/heterodain/mining/powercontroller/device/PvControllerDevice.java:93-95 | the write is a coil write carrying the requested state |
| PvDevice.LoadSwitchSameCoil | src/main/java/com/heterodain/mining/powercontroller/device/PvControllerDevice.java:73-95 | reading and writing the load switch both address coil 2 |
| Nicehash.StatusValue | src/main/java/com/heterodain/mining/powercontroller/service/NicehashService.java:171-175 | each mode's status value is a whole number between 5 and 15 |
| Nicehash.StatusValueInjective | src/main/java/com/heterodain/mining/powercontroller/service/NicehashService.java:171-175 | distinct modes have distinct status values (UNKNOWN 5, MIXED 15, HIGH 9, MEDIUM 11, LOW 12) |
| Nicehash.ModeFromNameOfName | src/main/java/com/heterodain/mining/powercontroller/service/NicehashService.java:171-175 | every power mode is read back from its enum name |
| Nicehash.CreateAuthHeader | src/main/java/com/heterodain/mining/powercontroller/service/NicehashService.java:127-164 | the MAC input is the NUL-joined signed fields; the headers are exactly X-Time, X-Nonce, X-Auth = key ":" digest of that input, X-Organization-Id |
| Nicehash.SigningInput | src/main/java/com/heterodain/mining/powercontroller/service/NicehashService.java:134-154 | the signed message begins with the API key followed by one NUL |
| Nicehash.SigningInputLayout | src/main/java/com/heterodain/mining/powercontroller/service/NicehashService.java:134-154 | the signed message is key 0 time 0 nonce 0 0 org 0 0 method 0 path 0, then the query, then 0 and the body when there is one |
| Nicehash.SigningInputFields | src/main/java/com/heterodain/mining/powercontroller/service/NicehashService.java:134-154 | for NUL-free fields, splitting the signed message at NUL gives back the signed fields |
| Nicehash.AbsentQuerySignsAsEmpty | src/main/java/com/heterodain/mining/powercontroller/service/NicehashService.java:147-150 | no separator follows the query, so an absent query signs like an empty one |
| Nicehash.BodyAppendedAfterOneNul | src/main/java/com/heterodain/mining/powercontroller/service/NicehashService.java:151-154 | a body adds exactly one NUL and the body to the bodiless message |
| Nicehash.PowerModeBody | src/main/java/com/heterodain/mining/powercontroller/service/NicehashService.java:101 | the body starts with `{"rigId":"`, then the rig id, and ends with `"]}` |
| Nicehash.ParsePowerModeBodyOfBody | src/main/java/com/heterodain/mining/powercontroller/service/NicehashService.java:101 | the POWER_MODE body names the rig and the mode: both are read back from it |
| Nicehash.SetRigPowerMode | src/main/java/com/heterodain/mining/powercontroller/service/NicehashService.java:98-122 | POST to the status path with the POWER_MODE body, which is also the signed body; true iff `success` is true, false when it is false, an error when a read field is missing |
| Nicehash.SignedBodyIsSentBody | src/main/java/com/heterodain/mining/powercontroller/service/NicehashService.java:101-111 | the last signed field is the body that is sent |
| Nicehash.GetRigStatus | src/main/java/com/heterodain/mining/powercontroller/service/NicehashService.java:79-85 | the first rig whose id is the configured one, or none iff no rig has it |
| Hive.GetOcProfiles | src/main/java/com/heterodain/mining/powercontroller/service/HiveService.java:135-159 | status other than 200 is an error; otherwise the map exists iff ids are distinct, is keyed by id and holds exactly the listed profiles |
| Hive.GetWorkerOcProfileId | src/main/java/com/heterodain/mining/powercontroller/service/HiveService.java:57-79 | status other than 200 is an error; a missing `oc_id` gives none, JSON null gives 0, a number gives itself |
| Hive.FindByName | src/main/java/com/heterodain/mining/powercontroller/service/HiveService.java:173-175 | the result is a listed profile with the name and no earlier profile has that name (first match); none iff no profile has the name |
| Hive.SelectionIgnoresOrder | src/main/java/com/heterodain/mining/powercontroller/service/HiveService.java:173-175 | when one profile has the name, the map's iteration order does not change the choice |
| Hive.OcPayload | src/main/java/com/heterodain/mining/powercontroller/service/HiveService.java:103-106 | the payload has two members, `oc_id` = the profile id and `oc_apply_mode` = "replace" |
| Hive.ChangeWorkerOcProfile | src/main/java/com/heterodain/mining/powercontroller/service/HiveService.java:90-125 | an unknown id fails before any PATCH; otherwise the PATCH carries the id, and the profile is returned iff the status is 200 |
| Hive.SetProfileByName | src/main/java/com/heterodain/mining/powercontroller/service/HiveService.java:168-207 | an error of either GET is returned; no profile with the name gives `ProfileNameNotFound`; the first profile with the name is returned without a PATCH when its id is the worker's; otherwise a PATCH carrying its id is sent and it is returned iff the status is 200, an unknown id or a failing re-fetch fails without a PATCH |
| Hive.TurnUpPowerLimit | src/main/java/com/heterodain/mining/powercontroller/service/HiveService.java:168-183 | the cases of `SetProfileByName` for `highProfileName`: GET errors, name not found, same id returned without PATCH, different id PATCHed and returned on status 200, unknown id or failed re-fetch; a returned profile is listed and has that name |
| Hive.TurnDownPowerLimit | src/main/java/com/heterodain/mining/powercontroller/service/HiveService.java:192-207 | the same cases with `lowProfileName` |
| Ambient.DataKey | src/main/java/com/heterodain/mining/powercontroller/service/AmbientService.java:53 | the key is `d` followed by the decimal digits of the position |
| Ambient.DataKeyInjective | src/main/java/com/heterodain/mining/powercontroller/service/AmbientService.java:53 | `d<i>` keys of distinct positions differ, and none is `created` |
| Ambient.DataNodeLookup | src/main/java/com/heterodain/mining/powercontroller/service/AmbientService.java:50-55 | `created` is kept; `d<i>` is present iff `datas[i-1]` is non-null and then carries it, so nulls do not renumber later keys |
| Ambient.DataNodeKeys | src/main/java/com/heterodain/mining/powercontroller/service/AmbientService.java:48-55 | the data object holds no member other than `created` and the keys of non-null values |
| Ambient.DataNodeAppends | src/main/java/com/heterodain/mining/powercontroller/service/AmbientService.java:51-55 | members appear in the order of the values: each put adds a new key at the end |
| Ambient.BuildDataNode | src/main/java/com/heterodain/mining/powercontroller/service/AmbientService.java:48-55 | the loop's object is `created` followed by one put per non-null value, in order (the `DataNode` the lemmas above describe) |
| Ambient.ChannelUrl | src/main/java/com/heterodain/mining/powercontroller/service/AmbientService.java:62 | the URL is the fixed prefix, the decimal channel id and `/dataarray`, each at its place |
| Ambient.Send | src/main/java/com/heterodain/mining/powercontroller/service/AmbientService.java:40-79 | the root is `writeKey` verbatim and a `data` array of exactly one data object; the URL is `/api/v2/channels/<channelId>/dataarray`; success iff status 200 |
| Json.Put | src/main/java/com/heterodain/mining/powercontroller/service/AmbientService.java:53 | after `put`, the key maps to the value, other keys are unchanged, and a new key goes at the end |
| Tasks.Decide | src/main/java/com/heterodain/mining/powercontroller/task/PvControllerTasks.java:198-228 | power-on only with the PC off and `graterEqual` on the on-condition; a running PC whose reading satisfies `lessEqual` on the off-condition powers off, and so does a stopped PC with a shutdown request that does not power on; power-off happens only on a shutdown request or for a running PC with `lessEqual`; holding implies no shutdown request |
| Tasks.DecideGuards | src/main/java/com/heterodain/mining/powercontroller/task/PvControllerTasks.java:198-228 | power-on iff the PC is off and `graterEqual` holds; power-off with the PC off only on a shutdown request; a shutdown request with the PC on always powers off; without a request a running PC powers off iff `lessEqual` holds |
| Tasks.SameConditionRunningPc | src/main/java/com/heterodain/mining/powercontroller/task/PvControllerTasks.java:227-228 | with one condition for both directions, a running PC is kept only while the result is strictly positive |
| Tasks.PowerOnTrace | src/main/java/com/heterodain/mining/powercontroller/task/PvControllerTasks.java:206-225 | starts by switching the resistor on; the PC switch is pressed iff the coil write succeeds, and then the fan comes on last; a pending fan stop is cancelled iff one was pending and the coil write succeeded; a cancelled fan stop comes right after the PC switch release and is followed by the fan switched off |
| Tasks.PowerOnOrder | src/main/java/com/heterodain/mining/powercontroller/task/PvControllerTasks.java:206-225 | resistor on, coil on, resistor off, PC switch high then low, fan on, in that order; the fan ends on; the fan stop is cancelled iff one is pending |
| Tasks.PowerOnCoilFailure | src/main/java/com/heterodain/mining/powercontroller/task/PvControllerTasks.java:206-208 | a failed coil write leaves the resistor on and the PC untouched |
| Tasks.PowerOffTrace | src/main/java/com/heterodain/mining/powercontroller/task/PvControllerTasks.java:231-252 | starts with the PC switch press; the load coil is switched off iff the coil write succeeds; the fan stop is scheduled iff that write succeeds and the executor is idle; never switches the resistor or the fan on |
| Tasks.PowerOffOrder | src/main/java/com/heterodain/mining/powercontroller/task/PvControllerTasks.java:231-252 | PC pulse first, then load coil off; a fan stop is scheduled iff the coil write succeeded and the executor is idle |
| Tasks.StepUp | src/main/java/com/heterodain/mining/powercontroller/task/PvControllerTasks.java:361-362 | never LOW; LOW steps to MEDIUM, every other mode or none to HIGH |
| Tasks.StepDown | src/main/java/com/heterodain/mining/powercontroller/task/PvControllerTasks.java:374-375 | never HIGH; HIGH steps to MEDIUM, every other mode or none to LOW |
| Tasks.StepsMoveOneRank | src/main/java/com/heterodain/mining/powercontroller/task/PvControllerTasks.java:360-375 | a step moves one rank and stays only at the end of the scale; up then down, or down then up, returns from the middle |
| Tasks.StepsFromOutsideTheScale | src/main/java/com/heterodain/mining/powercontroller/task/PvControllerTasks.java:361-375 | UNKNOWN, MIXED or no mode steps up to HIGH and down to LOW |
| Tasks.TdpRequest | src/main/java/com/heterodain/mining/powercontroller/task/PvControllerTasks.java:358-383 | a request is issued only with the PC running and only for a mode different from the current one: the step up on a surplus, otherwise the step down on a deficit |
| Tasks.TdpRequestProperties | src/main/java/com/heterodain/mining/powercontroller/task/PvControllerTasks.java:358-383 | a mode request needs the PC on and the balance beyond the hysteresis; it never names the current mode; it goes up on a surplus and down on a deficit |
| Tasks.SurplusExcludesDeficit | src/main/java/com/heterodain/mining/powercontroller/task/PvControllerTasks.java:358-371 | with a non-negative hysteresis, surplus and deficit exclude each other |
| Tasks.TruncDiv | src/main/java/com/heterodain/mining/powercontroller/task/PvControllerTasks.java:350 | the quotient is truncated toward zero |
| Tasks.GraceElapsedAfter900Seconds | src/main/java/com/heterodain/mining/powercontroller/task/PvControllerTasks.java:350 | the grace check passes iff at least 900 seconds have passed since power-on |
| Tasks.HeaterWindow | src/main/java/com/heterodain/mining/powercontroller/task/PvControllerTasks.java:311-317 | a window that does not wrap never returns early; a wrapping one returns exactly strictly between its end and its start |
| Tasks.HeaterCommand | src/main/java/com/heterodain/mining/powercontroller/task/PvControllerTasks.java:324-330 | on iff below the low bound; off iff not below the low bound and above the high bound; no change iff within the bounds |
| Tasks.HeaterBands | src/main/java/com/heterodain/mining/powercontroller/task/PvControllerTasks.java:324-330 | heater on iff below the range, off iff above it, untouched iff inside it |
| Tasks.HeaterInvertedRange | src/main/java/com/heterodain/mining/powercontroller/task/PvControllerTasks.java:324-327 | with an inverted range the "below" test wins |
| Tasks.PvControllerTasks.constructor | src/main/java/com/heterodain/mining/powercontroller/task/PvControllerTasks.java:88-102 | empty buffers, flags clear, nothing cached, no events |
| Tasks.PvControllerTasks.Init | src/main/java/com/heterodain/mining/powercontroller/task/PvControllerTasks.java:133-147 | the fan starts iff the PC is already on; the rig status is cached; the component becomes initialised |
| Tasks.PvControllerTasks.Realtime | src/main/java/com/heterodain/mining/powercontroller/task/PvControllerTasks.java:154-167 | once initialised, each successful reading is appended to the 3-second buffer; nothing else changes |
| Tasks.PvControllerTasks.PowerControl | src/main/java/com/heterodain/mining/powercontroller/task/PvControllerTasks.java:173-260 | under 5 samples nothing changes; otherwise the 3-second buffer is emptied, one summary is appended to the 1-minute buffer, and the decided sequence runs. `pcStartTime`, the pending fan stop and `shutdownRequest` change only when the sequence completes |
| Tasks.PvControllerTasks.PowerOnSequence | src/main/java/com/heterodain/mining/powercontroller/task/PvControllerTasks.java:206-225 | the power-on events; on completion `pcStartTime` is now and no fan stop is pending |
| Tasks.PvControllerTasks.PowerOffSequence | src/main/java/com/heterodain/mining/powercontroller/task/PvControllerTasks.java:231-254 | the power-off events; on completion `shutdownRequest` is cleared, and a fan stop is pending if one was scheduled |
| Tasks.PvControllerTasks.SendAmbient | src/main/java/com/heterodain/mining/powercontroller/task/PvControllerTasks.java:266-292 | an empty 1-minute buffer changes nothing; otherwise it is emptied and its summary appended to the 15-minute buffer; the values sent are PV power, voltage, load power, mode status value and temperature |
| Tasks.PvControllerTasks.BatteryTempControl | src/main/java/com/heterodain/mining/powercontroller/task/PvControllerTasks.java:305-331 | outside the hours nothing happens; otherwise the heater events follow `HeaterCommand` |
| Tasks.PvControllerTasks.TdpControl | src/main/java/com/heterodain/mining/powercontroller/task/PvControllerTasks.java:337-389 | an empty buffer changes nothing; otherwise the buffer is emptied, and after the grace period the requested mode is cached only on a true reply, and a running PC under 100 W sets `shutdownRequest` |
| Tasks.PvControllerTasks.FanControl | src/main/java/com/heterodain/mining/powercontroller/task/PvControllerTasks.java:395-409 | with the PC off and the executor idle the fan runs for the configured duration; otherwise nothing happens |
| Tasks.PvControllerTasks.FanStopFires | src/main/java/com/heterodain/mining/powercontroller/task/PvControllerTasks.java:242-251 | a pending delayed fan stop turns the fan off and is no longer pending |
| Tasks.PvControllerTasks.Destroy | src/main/java/com/heterodain/mining/powercontroller/task/PvControllerTasks.java:415-426 | the component is no longer initialised; the rest of the state is kept |

## Left out

- Concurrency is not modelled. This covers `synchronized`, `@Scheduled` cadences, the thread pool and `getActiveCount`. Each task is a sequential method, and "executor idle" is a parameter.
- The delayed fan stop and its cancellation are not modelled as threads. The delayed fan stop is the `FanStopFires` method. Cancelling it appends `CancelFanStop` followed by the `FanOff` that the interrupted task still performs.
- Sleeps are not timed. They appear as `Sleep` events.
- Hardware and transport are not modelled: GPIO pins, I2C, the serial line and the Modbus transactions. `init` keeps only the fan start, the rig status and the initialised flag. Pin provisioning and its retry loop are left out.
- Tasks.PvControllerTasks.Init: an exception while fetching the server time or the rig status is not modelled.
- `RealtimeData.summary` is not part of the shown code. It is the function value `summarize` of the class, with no properties assumed.
- `STAGE` and the summary's `getStage` are not part of the shown code. The stage is an integer priority index passed as a parameter.
- The configuration classes are left out: AppConfig, DeviceConfig, DeviceProperties, ServiceProperties and ServiceConfig. The values the tasks read from them are parameters.
- The thin device wrappers are left out: MiningRigDevice, CoolingFanDevice, BatteryHeaterDevice, Lm75aDevice and RaspberryPiDevice.
- HTTP, JSON parsing and serialisation are left out. Replies enter as status codes and the fields the source reads.
- HMAC-SHA256 and hex encoding are an uninterpreted function parameter.
- The random UUID nonce and the server time are parameters.
- Floating-point rounding is not modelled. `Double` values are `real`, so the division by 100 is exact.
- Formatting the Ambient timestamp as UTC ISO local date-time is not modelled. The rendered string is an input.
- `LocalTime.parse` of the heater hours is not modelled. Times of day are integers.
- Hive.GetOcProfiles: a duplicate id is reported without naming the id.
- Hive.GetWorkerOcProfileId: `oc_id` values other than absent, null or an integer are not modelled. Jackson's `asInt` on text or fractions is out of scope.
- Hive.TurnUpPowerLimit: the profile map's iteration order is given as the `values` sequence. `Hive.SelectionIgnoresOrder` shows the order matters only when two profiles share the name.
- Tasks.PvControllerTasks.TdpControl: `reply` folds the server-time call and `setRigPowerMode` into one outcome. `None` means either call threw. The `PowerModeRequest` event marks the attempt, so it is recorded even when the server-time call fails.
- PvDevice.ReadCurrent: decodes with the intended unsigned count (`Combine`), not the source's 32-bit `int` product. The Findings row and `PvDevice.CombineAsWritten` model the product as written.
- Tasks.PvControllerTasks.SendAmbient: the Ambient post itself is not part of this task model. `Ambient.Send` models the post on its own.
- Tasks.GraceElapsedAfter900Seconds: time is in whole seconds. The source's nanosecond precision is not modelled.
- Tasks.PvControllerTasks.FanControl: the `int` overflow of `duration * 1000` is not modelled.

## Findings

| source | as written | input that shows it | evidently intended | confidence | as-written member | corrected member |
|---|---|---|---|---|---|---|
| src/main/java/com/heterodain/mining/powercontroller/device/PvControllerDevice.java:46-47 | `reg3 * 0x10000` (and `reg15 * 0x10000`) is 32-bit `int` arithmetic, evaluated before the widening to `double` | high word 0x8000, low word 0: the power is -2^31 hundredths | the unsigned 32-bit count low + 65536·high | not executed; needs a reading of at least 21 474 836.48 W, so real hardware is unlikely to reach it | PvDevice.AsWrittenOverflowExample | PvDevice.Combine |

