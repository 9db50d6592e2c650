/**
 * The scheduled control tasks of `PvControllerTasks`: 3-second samples are
 * summarised into 1-minute, 15-minute values; each 1-minute summary decides
 * whether the mining PC is switched on or off; each 15-minute summary steps
 * the rig's power mode; the battery heater and the cooling fan are switched
 * by their own rules.
 *
 * The tasks run one at a time here. Everything the source reads from the
 * outside (the PC power pin, the clock, the temperature sensor, the Nicehash
 * reply, whether the executor is busy) is a method parameter, and every
 * output pin change, Modbus coil write, sleep and executor action is an
 * event appended to `trace`. The delayed fan stop sleeps on an executor
 * thread, so while it is pending the executor is not idle: the methods that
 * take `executorIdle` require `fanStopPending ==> !executorIdle`.
 */
module Tasks {
  import opened Wrappers
  import ControlProperties
  import PvDevice
  import Nicehash

  type RealtimeData = PvDevice.RealtimeData
  type PowerMode = Nicehash.PowerMode

  /** What the controller does to the outside world, in order. */
  datatype Event =
    | ResistorOn | ResistorOff          // loadPowerRegisterSw high / low
    | LoadCoil(on: bool)                // changeLoadSwith: the load output of the charge controller
    | PcSwitchHigh | PcSwitchLow        // pcPowerSw: the PC's power button
    | FanOn | FanOff                    // fanPowerSw
    | HeaterOn | HeaterOff              // battHeaterSw
    | Sleep(ms: int)                    // Thread.sleep
    | CancelFanStop                     // fanStopFuture.cancel(true)
    | ScheduleFanStop(minutes: int)     // taskExecutor.submit of the delayed fan stop
    | PowerModeRequest(mode: PowerMode) // nicehashService.setRigPowerMode

  /** The branch `powerControl` takes. */
  datatype PowerAction = PowerOn | PowerOff | Hold

  /** Number of 3-second samples `powerControl` waits for. */
  const MinSamples: nat := 5
  /** Minutes after power-on during which `tdpControl` does nothing. */
  const GraceMinutes: int := 15
  /** Load power (W) under which a running PC is taken to have failed to start. */
  const MinLoadPower: real := 100.0

  /** The four values `graterEqual` / `lessEqual` are called with. */
  function Measure(s: RealtimeData, stage: int): ControlProperties.Measured {
    ControlProperties.Measured(s.pvPower, s.battSOC, s.battVolt, stage)
  }

  // ---------------------------------------------------------------------------
  // powerControl

  /** The `if` / `else if` of `powerControl`. */
  function Decide(pcPowerOn: bool, shutdownRequest: bool, onCondition: ControlProperties.PowerCondition,
                  offCondition: ControlProperties.PowerCondition, m: ControlProperties.Measured): (a: PowerAction)
    ensures a == PowerOn ==> !pcPowerOn && ControlProperties.GraterEqual(onCondition, m)
    ensures a == PowerOff ==> shutdownRequest || pcPowerOn
    ensures pcPowerOn && shutdownRequest ==> a == PowerOff
    ensures a == Hold ==> !shutdownRequest
    ensures pcPowerOn && ControlProperties.LessEqual(offCondition, m) ==> a == PowerOff
    ensures !pcPowerOn && shutdownRequest && !ControlProperties.GraterEqual(onCondition, m) ==> a == PowerOff
    ensures a == PowerOff ==> shutdownRequest || (pcPowerOn && ControlProperties.LessEqual(offCondition, m))
  {
    if !pcPowerOn && ControlProperties.GraterEqual(onCondition, m) then PowerOn
    else if shutdownRequest || (pcPowerOn && ControlProperties.LessEqual(offCondition, m)) then PowerOff
    else Hold
  }

  /**
   * Power-on never happens with the PC running; power-off with the PC stopped
   * happens only on a shutdown request; a shutdown request with the PC running
   * always powers off; otherwise a running PC is switched off exactly when
   * `lessEqual` holds for the off-condition.
   */
  lemma DecideGuards(pcPowerOn: bool, shutdownRequest: bool, onCondition: ControlProperties.PowerCondition,
                     offCondition: ControlProperties.PowerCondition, m: ControlProperties.Measured)
    ensures Decide(pcPowerOn, shutdownRequest, onCondition, offCondition, m) == PowerOn
            <==> !pcPowerOn && ControlProperties.GraterEqual(onCondition, m)
    ensures Decide(pcPowerOn, shutdownRequest, onCondition, offCondition, m) == PowerOff && !pcPowerOn
            ==> shutdownRequest && !ControlProperties.GraterEqual(onCondition, m)
    ensures pcPowerOn && shutdownRequest ==> Decide(pcPowerOn, shutdownRequest, onCondition, offCondition, m) == PowerOff
    ensures pcPowerOn && !shutdownRequest ==> (Decide(pcPowerOn, shutdownRequest, onCondition, offCondition, m) == PowerOff <==> ControlProperties.LessEqual(offCondition, m))
  {
  }

  /**
   * With one condition used for both directions, a running PC is either kept
   * or switched off: it is switched off exactly when the measurement is not
   * strictly above the condition.
   */
  lemma SameConditionRunningPc(shutdownRequest: bool, c: ControlProperties.PowerCondition, m: ControlProperties.Measured)
    ensures !ControlProperties.GraterEqual(c, m) ==> Decide(true, shutdownRequest, c, c, m) == PowerOff
    ensures Decide(true, shutdownRequest, c, c, m) == Hold ==> ControlProperties.Verdict(c, m) > 0
  {
    ControlProperties.GraterOrLess(c, m);
  }

  /**
   * The power-on sequence: connect the load through the resistor, switch the
   * charge controller's load output on, bypass the resistor, press the PC's
   * power button, stop a pending fan stop (the interrupted task still turns the
   * fan off), start the fan. A failed coil write ends it after the first step.
   */
  function PowerOnTrace(coilOk: bool, fanStopPending: bool): (t: seq<Event>)
    ensures |t| >= 2 && t[0] == ResistorOn
    ensures PcSwitchHigh in t <==> coilOk
    ensures coilOk ==> t[|t| - 1] == FanOn
    ensures coilOk && fanStopPending ==> |t| == 13 && t[8] == PcSwitchLow && t[9] == CancelFanStop && t[10] == FanOff
    ensures CancelFanStop in t <==> coilOk && fanStopPending
  {
    if !coilOk then [ResistorOn, Sleep(300)]
    else
      [ResistorOn, Sleep(300), LoadCoil(true), Sleep(1000), ResistorOff, Sleep(4000),
       PcSwitchHigh, Sleep(300), PcSwitchLow]
      + (if fanStopPending then [CancelFanStop, FanOff] else [])
      + [Sleep(100), FanOn]
  }

  /**
   * The power-off sequence: press the PC's power button, wait 20 s, switch the
   * load output off, and schedule the delayed fan stop when the executor is
   * idle. A failed coil write ends it before the fan stop.
   */
  function PowerOffTrace(coilOk: bool, executorIdle: bool, fanPowerOffMinutes: int): (t: seq<Event>)
    ensures |t| >= 4 && t[..3] == [PcSwitchHigh, Sleep(300), PcSwitchLow]
    ensures LoadCoil(false) in t <==> coilOk
    ensures ScheduleFanStop(fanPowerOffMinutes) in t <==> coilOk && executorIdle
    ensures ResistorOn !in t && FanOn !in t
  {
    [PcSwitchHigh, Sleep(300), PcSwitchLow, Sleep(20000)]
    + (if !coilOk then []
       else [LoadCoil(false)] + (if executorIdle then [ScheduleFanStop(fanPowerOffMinutes)] else []))
  }

  function ActionTrace(a: PowerAction, coilOk: bool, fanStopPending: bool, executorIdle: bool,
                       fanPowerOffMinutes: int): seq<Event>
  {
    match a
    case PowerOn => PowerOnTrace(coilOk, fanStopPending)
    case PowerOff => PowerOffTrace(coilOk, executorIdle, fanPowerOffMinutes)
    case Hold => []
  }

  /** `e1` occurs in `t` before some occurrence of `e2`. */
  predicate Before(t: seq<Event>, e1: Event, e2: Event) {
    exists i, j :: 0 <= i < j < |t| && t[i] == e1 && t[j] == e2
  }

  /**
   * A complete power-on emits resistor on, load coil on, resistor off, PC
   * switch high then low, fan on, in that order, ends with the fan on, and
   * cancels the fan stop exactly when one is pending.
   */
  lemma PowerOnOrder(fanStopPending: bool)
    ensures var t := PowerOnTrace(true, fanStopPending);
      && Before(t, ResistorOn, LoadCoil(true))
      && Before(t, LoadCoil(true), ResistorOff)
      && Before(t, ResistorOff, PcSwitchHigh)
      && Before(t, PcSwitchHigh, PcSwitchLow)
      && Before(t, PcSwitchLow, FanOn)
      && t[|t| - 1] == FanOn
      && (CancelFanStop in t <==> fanStopPending)
      && FanOff !in t[|t| - 2..]
  {
    var t := PowerOnTrace(true, fanStopPending);
    assert t[0] == ResistorOn && t[2] == LoadCoil(true) && t[4] == ResistorOff;
    assert t[6] == PcSwitchHigh && t[8] == PcSwitchLow && t[|t| - 1] == FanOn;
    if !fanStopPending {
      assert forall i :: 0 <= i < |t| ==> t[i] != CancelFanStop;
    }
  }

  /**
   * A failed coil write during power-on leaves the resistor switched in and
   * the PC untouched.
   */
  lemma PowerOnCoilFailure(fanStopPending: bool)
    ensures var t := PowerOnTrace(false, fanStopPending);
      ResistorOn in t && ResistorOff !in t && PcSwitchHigh !in t && LoadCoil(true) !in t
  {
  }

  /**
   * Power-off presses the PC switch before switching the load off, and
   * schedules the fan stop exactly when the coil write succeeded and the
   * executor is idle.
   */
  lemma PowerOffOrder(coilOk: bool, executorIdle: bool, minutes: int)
    ensures var t := PowerOffTrace(coilOk, executorIdle, minutes);
      && t[..3] == [PcSwitchHigh, Sleep(300), PcSwitchLow]
      && (coilOk ==> Before(t, PcSwitchLow, LoadCoil(false)))
      && (ScheduleFanStop(minutes) in t <==> coilOk && executorIdle)
      && (LoadCoil(false) in t <==> coilOk)
  {
    var t := PowerOffTrace(coilOk, executorIdle, minutes);
    if coilOk {
      assert t[2] == PcSwitchLow && t[4] == LoadCoil(false);
    }
    if !(coilOk && executorIdle) {
      assert forall i :: 0 <= i < |t| ==> t[i] != ScheduleFanStop(minutes);
    }
  }

  // ---------------------------------------------------------------------------
  // tdpControl

  /** Step-up target: LOW to MEDIUM, every other mode (or none) to HIGH. */
  function StepUp(mode: Option<PowerMode>): (r: PowerMode)
    ensures r != Nicehash.Low
    ensures mode == Some(Nicehash.Low) ==> r == Nicehash.Medium
    ensures mode != Some(Nicehash.Low) ==> r == Nicehash.High
  {
    if mode == Some(Nicehash.Low) then Nicehash.Medium else Nicehash.High
  }

  /** Step-down target: HIGH to MEDIUM, every other mode (or none) to LOW. */
  function StepDown(mode: Option<PowerMode>): (r: PowerMode)
    ensures r != Nicehash.High
    ensures mode == Some(Nicehash.High) ==> r == Nicehash.Medium
    ensures mode != Some(Nicehash.High) ==> r == Nicehash.Low
  {
    if mode == Some(Nicehash.High) then Nicehash.Medium else Nicehash.Low
  }

  /** The order of the three modes the controller steps between. */
  function Rank(m: PowerMode): int {
    match m
    case Low => 0
    case Medium => 1
    case High => 2
    case _ => -1
  }

  /**
   * A step moves one rank, stays put only at the end of the scale, and
   * stepping up then down (or down then up) from the middle of the scale
   * returns to the start.
   */
  lemma StepsMoveOneRank(m: PowerMode)
    ensures Rank(m) >= 0 ==> Rank(StepUp(Some(m))) == if Rank(m) == 2 then 2 else Rank(m) + 1
    ensures Rank(m) >= 0 ==> Rank(StepDown(Some(m))) == if Rank(m) == 0 then 0 else Rank(m) - 1
    ensures StepUp(Some(m)) == m <==> m == Nicehash.High
    ensures StepDown(Some(m)) == m <==> m == Nicehash.Low
    ensures Rank(m) == 0 || Rank(m) == 1 ==> StepDown(Some(StepUp(Some(m)))) == m
    ensures Rank(m) == 1 || Rank(m) == 2 ==> StepUp(Some(StepDown(Some(m)))) == m
  {
  }

  /** The modes outside the scale, and an unknown mode, step to the top or the bottom. */
  lemma StepsFromOutsideTheScale(mode: Option<PowerMode>)
    requires mode.None? || Rank(mode.value) < 0
    ensures StepUp(mode) == Nicehash.High && StepDown(mode) == Nicehash.Low
  {
  }

  /** Generated power exceeds consumption by more than the hysteresis. */
  predicate Surplus(s: RealtimeData, hysteresis: real) {
    s.pvPower - s.loadPower > hysteresis
  }

  /** Consumption exceeds generated power by more than the hysteresis. */
  predicate Deficit(s: RealtimeData, hysteresis: real) {
    s.loadPower - s.pvPower > hysteresis
  }

  /** The mode `tdpControl` asks Nicehash for, if it asks at all. */
  function TdpRequest(pcPowerOn: bool, s: RealtimeData, hysteresis: real, mode: Option<PowerMode>): (r: Option<PowerMode>)
    ensures r.Some? ==> pcPowerOn && Some(r.value) != mode
    ensures r.Some? ==> (Surplus(s, hysteresis) && r.value == StepUp(mode))
                        || (!Surplus(s, hysteresis) && Deficit(s, hysteresis) && r.value == StepDown(mode))
  {
    if pcPowerOn && Surplus(s, hysteresis) then
      if mode != Some(StepUp(mode)) then Some(StepUp(mode)) else None
    else if pcPowerOn && Deficit(s, hysteresis) then
      if mode != Some(StepDown(mode)) then Some(StepDown(mode)) else None
    else None
  }

  /**
   * A request is made only with the PC on and the power balance outside the
   * hysteresis band, never for the current mode, upward on a surplus and
   * downward on a deficit.
   */
  lemma TdpRequestProperties(pcPowerOn: bool, s: RealtimeData, hysteresis: real, mode: Option<PowerMode>)
    ensures var r := TdpRequest(pcPowerOn, s, hysteresis, mode);
      && (r.Some? ==> pcPowerOn && (Surplus(s, hysteresis) || Deficit(s, hysteresis)))
      && (r.Some? ==> mode != r)
      && (r.Some? && Surplus(s, hysteresis) && mode.Some? && Rank(mode.value) >= 0 ==> Rank(r.value) > Rank(mode.value))
      && (r.Some? && !Surplus(s, hysteresis) && mode.Some? && Rank(mode.value) >= 0 ==> Rank(r.value) < Rank(mode.value))
      && (pcPowerOn && Surplus(s, hysteresis) && mode != Some(Nicehash.High) ==> r == Some(StepUp(mode)))
      && ((pcPowerOn && !Surplus(s, hysteresis) && Deficit(s, hysteresis) && mode != Some(Nicehash.Low))
          ==> r == Some(StepDown(mode)))
  {
  }

  /** With the hysteresis not negative, a surplus and a deficit exclude each other. */
  lemma SurplusExcludesDeficit(s: RealtimeData, hysteresis: real)
    requires hysteresis >= 0.0
    ensures !(Surplus(s, hysteresis) && Deficit(s, hysteresis))
  {
  }

  /** Java's `long` division, which truncates toward zero. */
  function TruncDiv(x: int, d: int): (q: int)
    requires d > 0
    ensures x >= 0 ==> q * d <= x < q * d + d
    ensures x < 0 ==> q * d - d < x <= q * d
  {
    if x >= 0 then x / d else -((-x) / d)
  }

  /** `ChronoUnit.MINUTES.between` for times given in seconds. */
  function MinutesBetween(start: int, end: int): int {
    TruncDiv(end - start, 60)
  }

  /** The grace check of `tdpControl` passes: the PC was started at least 15 minutes ago. */
  predicate GraceElapsed(pcStartTime: Option<int>, now: int) {
    pcStartTime.Some? && MinutesBetween(pcStartTime.value, now) >= GraceMinutes
  }

  /** The grace check passes exactly when 900 seconds have gone by since the start. */
  lemma GraceElapsedAfter900Seconds(start: int, now: int)
    ensures GraceElapsed(Some(start), now) <==> now - start >= 900
  {
    var q := MinutesBetween(start, now);
    if now - start >= 900 {
      assert q * 60 + 60 > 900;
    }
  }

  // ---------------------------------------------------------------------------
  // batteryTempControl

  /**
   * The early return of `batteryTempControl`: now is before the start AND
   * after the end of the configured hours (times of day in seconds).
   */
  predicate SkipsHeaterControl(now: int, start: int, end: int) {
    now < start && now > end
  }

  /**
   * A window that does not wrap midnight never causes the early return; one
   * that wraps causes it exactly strictly between its end and its start.
   */
  lemma HeaterWindow(now: int, start: int, end: int)
    ensures start <= end ==> !SkipsHeaterControl(now, start, end)
    ensures start > end ==> (SkipsHeaterControl(now, start, end) <==> end < now < start)
  {
  }

  /** The heater switch: on below the range, off above it, untouched inside it. */
  function HeaterCommand(temp: real, low: real, high: real): (r: Option<bool>)
    ensures r == Some(true) <==> temp < low
    ensures r == Some(false) <==> low <= temp && high < temp
    ensures r.None? <==> low <= temp <= high
  {
    if temp < low then Some(true) else if temp > high then Some(false) else None
  }

  lemma HeaterBands(temp: real, low: real, high: real)
    requires low <= high
    ensures HeaterCommand(temp, low, high) == Some(true) <==> temp < low
    ensures HeaterCommand(temp, low, high) == Some(false) <==> temp > high
    ensures HeaterCommand(temp, low, high).None? <==> low <= temp <= high
  {
  }

  /**
   * With an inverted range the heater is switched on below `low`, even when
   * the temperature is above `high`.
   */
  lemma HeaterInvertedRange(temp: real, low: real, high: real)
    requires high < temp < low
    ensures HeaterCommand(temp, low, high) == Some(true)
  {
  }

  // ---------------------------------------------------------------------------

  class PvControllerTasks {
    /** `RealtimeData.summary`, whose definition is not part of this model. */
    const summarize: seq<RealtimeData> -> RealtimeData

    var initialized: bool
    var threeSecDatas: seq<RealtimeData>
    var oneMinDatas: seq<RealtimeData>
    var fifteenMinDatas: seq<RealtimeData>
    /** `fanStopFuture != null && !fanStopFuture.isDone()`. */
    var fanStopPending: bool
    var rigStatus: Option<Nicehash.RigStatus>
    /** Seconds; `None` until the PC is first started. */
    var pcStartTime: Option<int>
    var shutdownRequest: bool
    var trace: seq<Event>

    /** The component as constructed, before `init`. */
    constructor (summarize: seq<RealtimeData> -> RealtimeData)
      ensures this.summarize == summarize
      ensures !initialized && threeSecDatas == [] && oneMinDatas == [] && fifteenMinDatas == []
      ensures !fanStopPending && rigStatus.None? && pcStartTime.None? && !shutdownRequest && trace == []
    {
      this.summarize := summarize;
      initialized := false;
      threeSecDatas := [];
      oneMinDatas := [];
      fifteenMinDatas := [];
      fanStopPending := false;
      rigStatus := None;
      pcStartTime := None;
      shutdownRequest := false;
      trace := [];
    }

    /**
     * `init`, after the pins and the serial line are set up: start the fan if
     * the PC is already running and cache the rig's status (`null` when the
     * rig is not listed).
     */
    method Init(pcPowerOn: bool, rig: Option<Nicehash.RigStatus>)
      modifies this
      ensures initialized && rigStatus == rig
      ensures trace == old(trace) + (if pcPowerOn then [FanOn] else [])
      ensures threeSecDatas == old(threeSecDatas) && oneMinDatas == old(oneMinDatas)
      ensures fifteenMinDatas == old(fifteenMinDatas) && fanStopPending == old(fanStopPending)
      ensures pcStartTime == old(pcStartTime) && shutdownRequest == old(shutdownRequest)
    {
      if pcPowerOn {
        trace := trace + [FanOn];
      }
      rigStatus := rig;
      initialized := true;
    }

    /** `realtime`: once initialised, append each successful reading to the 3-second buffer. */
    method Realtime(reading: Result<RealtimeData, PvDevice.DeviceError>)
      modifies this
      ensures threeSecDatas == if old(initialized) && reading.Ok? then old(threeSecDatas) + [reading.value]
                               else old(threeSecDatas)
      ensures initialized == old(initialized) && oneMinDatas == old(oneMinDatas)
      ensures fifteenMinDatas == old(fifteenMinDatas) && fanStopPending == old(fanStopPending)
      ensures rigStatus == old(rigStatus) && pcStartTime == old(pcStartTime)
      ensures shutdownRequest == old(shutdownRequest) && trace == old(trace)
    {
      if !initialized {
        return;
      }
      if reading.Ok? {
        threeSecDatas := threeSecDatas + [reading.value];
      }
    }

    /**
     * `powerControl`: with at least five 3-second samples, move their summary
     * to the 1-minute buffer and run the power-on or the power-off sequence.
     * `coilOk` is whether the Modbus coil write succeeds; a failure ends the
     * sequence with the remaining state as it was.
     */
    method PowerControl(pcPowerOn: bool, onCondition: ControlProperties.PowerCondition,
                        offCondition: ControlProperties.PowerCondition, stage: int, now: int,
                        coilOk: bool, executorIdle: bool, fanPowerOffMinutes: int)
      requires fanStopPending ==> !executorIdle
      modifies this
      ensures |old(threeSecDatas)| < MinSamples ==>
        && threeSecDatas == old(threeSecDatas) && oneMinDatas == old(oneMinDatas)
        && trace == old(trace) && pcStartTime == old(pcStartTime)
        && fanStopPending == old(fanStopPending) && shutdownRequest == old(shutdownRequest)
      ensures |old(threeSecDatas)| >= MinSamples ==>
        var summary := summarize(old(threeSecDatas));
        var action := Decide(pcPowerOn, old(shutdownRequest), onCondition, offCondition, Measure(summary, stage));
        && threeSecDatas == []
        && oneMinDatas == old(oneMinDatas) + [summary]
        && trace == old(trace) + ActionTrace(action, coilOk, old(fanStopPending), executorIdle, fanPowerOffMinutes)
        && pcStartTime == (if action == PowerOn && coilOk then Some(now) else old(pcStartTime))
        && fanStopPending == (if action == PowerOn && coilOk then false
                              else if action == PowerOff && coilOk && executorIdle then true
                              else old(fanStopPending))
        && shutdownRequest == (if action == PowerOff && coilOk then false else old(shutdownRequest))
      ensures initialized == old(initialized) && fifteenMinDatas == old(fifteenMinDatas)
      ensures rigStatus == old(rigStatus)
    {
      if |threeSecDatas| < MinSamples {
        return;
      }
      var summary := summarize(threeSecDatas);
      threeSecDatas := [];
      oneMinDatas := oneMinDatas + [summary];

      var action := Decide(pcPowerOn, shutdownRequest, onCondition, offCondition, Measure(summary, stage));
      if action == PowerOn {
        PowerOnSequence(coilOk, now);
      } else if action == PowerOff {
        PowerOffSequence(coilOk, executorIdle, fanPowerOffMinutes);
      }
    }

    /** The power-on branch of `powerControl`. */
    method PowerOnSequence(coilOk: bool, now: int)
      modifies this
      ensures trace == old(trace) + PowerOnTrace(coilOk, old(fanStopPending))
      ensures pcStartTime == if coilOk then Some(now) else old(pcStartTime)
      ensures fanStopPending == (old(fanStopPending) && !coilOk)
      ensures shutdownRequest == old(shutdownRequest) && initialized == old(initialized)
      ensures threeSecDatas == old(threeSecDatas) && oneMinDatas == old(oneMinDatas)
      ensures fifteenMinDatas == old(fifteenMinDatas) && rigStatus == old(rigStatus)
    {
      var steps := [ResistorOn, Sleep(300)];
      if !coilOk {
        trace := trace + steps;
        return;
      }
      steps := steps + [LoadCoil(true), Sleep(1000), ResistorOff, Sleep(4000), PcSwitchHigh, Sleep(300), PcSwitchLow];
      pcStartTime := Some(now);
      if fanStopPending {
        // the interrupted fan-stop task swallows the interrupt and stops the fan
        steps := steps + [CancelFanStop, FanOff];
        fanStopPending := false;
      }
      steps := steps + [Sleep(100), FanOn];
      trace := trace + steps;
    }

    /** The power-off branch of `powerControl`. */
    method PowerOffSequence(coilOk: bool, executorIdle: bool, fanPowerOffMinutes: int)
      requires fanStopPending ==> !executorIdle
      modifies this
      ensures trace == old(trace) + PowerOffTrace(coilOk, executorIdle, fanPowerOffMinutes)
      ensures fanStopPending == (old(fanStopPending) || (coilOk && executorIdle))
      ensures shutdownRequest == (old(shutdownRequest) && !coilOk)
      ensures pcStartTime == old(pcStartTime) && initialized == old(initialized)
      ensures threeSecDatas == old(threeSecDatas) && oneMinDatas == old(oneMinDatas)
      ensures fifteenMinDatas == old(fifteenMinDatas) && rigStatus == old(rigStatus)
    {
      var steps := [PcSwitchHigh, Sleep(300), PcSwitchLow, Sleep(20000)];
      if !coilOk {
        trace := trace + steps;
        return;
      }
      steps := steps + [LoadCoil(false)];
      if executorIdle {
        steps := steps + [ScheduleFanStop(fanPowerOffMinutes)];
        fanStopPending := true;
      }
      trace := trace + steps;
      shutdownRequest := false;
    }

    /**
     * The buffer part of `sendAmbient`: move the summary of the 1-minute
     * buffer to the 15-minute buffer, and the values handed to the Ambient
     * channel (`None` when the cached rig status or its mode is `null`, or the
     * temperature read fails).
     */
    method SendAmbient(battTemp: Option<real>) returns (sendDatas: Option<seq<real>>)
      modifies this
      ensures |old(oneMinDatas)| == 0 ==> oneMinDatas == old(oneMinDatas) && fifteenMinDatas == old(fifteenMinDatas)
      ensures |old(oneMinDatas)| > 0 ==>
        oneMinDatas == [] && fifteenMinDatas == old(fifteenMinDatas) + [summarize(old(oneMinDatas))]
      ensures sendDatas.Some? <==>
        |old(oneMinDatas)| > 0 && battTemp.Some? && rigStatus.Some? && rigStatus.value.rigPowerMode.Some?
      ensures sendDatas.Some? ==>
        var s := summarize(old(oneMinDatas));
        sendDatas.value == [s.pvPower, s.battVolt, s.loadPower,
                            Nicehash.StatusValue(rigStatus.value.rigPowerMode.value), battTemp.value]
      ensures initialized == old(initialized) && threeSecDatas == old(threeSecDatas)
      ensures fanStopPending == old(fanStopPending) && rigStatus == old(rigStatus)
      ensures pcStartTime == old(pcStartTime) && shutdownRequest == old(shutdownRequest) && trace == old(trace)
    {
      if |oneMinDatas| == 0 {
        return None;
      }
      var summary := summarize(oneMinDatas);
      oneMinDatas := [];
      fifteenMinDatas := fifteenMinDatas + [summary];
      if battTemp.None? || rigStatus.None? || rigStatus.value.rigPowerMode.None? {
        return None;
      }
      sendDatas := Some([summary.pvPower, summary.battVolt, summary.loadPower,
                         Nicehash.StatusValue(rigStatus.value.rigPowerMode.value), battTemp.value]);
    }

    /**
     * `batteryTempControl`: outside the configured hours (see
     * `SkipsHeaterControl`) do nothing; otherwise switch the heater on below
     * the temperature range and off above it. `battTemp` is `None` when the
     * sensor read fails.
     */
    method BatteryTempControl(nowOfDay: int, hourRange: Option<(int, int)>, battTemp: Option<real>,
                              low: real, high: real)
      modifies this
      ensures trace == old(trace) +
        (if (hourRange.Some? && SkipsHeaterControl(nowOfDay, hourRange.value.0, hourRange.value.1)) || battTemp.None?
         then []
         else match HeaterCommand(battTemp.value, low, high)
              case Some(on) => if on then [HeaterOn] else [HeaterOff]
              case None => [])
      ensures initialized == old(initialized) && threeSecDatas == old(threeSecDatas)
      ensures oneMinDatas == old(oneMinDatas) && fifteenMinDatas == old(fifteenMinDatas)
      ensures fanStopPending == old(fanStopPending) && rigStatus == old(rigStatus)
      ensures pcStartTime == old(pcStartTime) && shutdownRequest == old(shutdownRequest)
    {
      if hourRange.Some? {
        var (start, end) := hourRange.value;
        if nowOfDay < start && nowOfDay > end {
          return;
        }
      }
      if battTemp.None? {
        return;
      }
      if battTemp.value < low {
        trace := trace + [HeaterOn];
      } else if battTemp.value > high {
        trace := trace + [HeaterOff];
      }
    }

    /**
     * `tdpControl`: summarise and clear the 15-minute buffer; from 15 minutes
     * after power-on, step the rig's power mode toward the power balance, and
     * request a shutdown when the running PC draws under 100 W. A `null` rig
     * status in a stepping branch, or a failing Nicehash call (`reply` is
     * `None`), ends the task there.
     */
    method TdpControl(now: int, pcPowerOn: bool, hysteresis: real, reply: Option<bool>)
      modifies this
      ensures |old(fifteenMinDatas)| == 0 ==>
        fifteenMinDatas == old(fifteenMinDatas) && rigStatus == old(rigStatus)
        && shutdownRequest == old(shutdownRequest) && trace == old(trace)
      ensures |old(fifteenMinDatas)| > 0 ==> fifteenMinDatas == []
      ensures |old(fifteenMinDatas)| > 0 && !GraceElapsed(pcStartTime, now) ==>
        rigStatus == old(rigStatus) && shutdownRequest == old(shutdownRequest) && trace == old(trace)
      ensures |old(fifteenMinDatas)| > 0 && GraceElapsed(pcStartTime, now) ==>
        var s := summarize(old(fifteenMinDatas));
        var stepping := pcPowerOn && (Surplus(s, hysteresis) || Deficit(s, hysteresis));
        if stepping && old(rigStatus).None? then
          rigStatus == old(rigStatus) && shutdownRequest == old(shutdownRequest) && trace == old(trace)
        else
          var mode := if old(rigStatus).Some? then old(rigStatus).value.rigPowerMode else None;
          var request := TdpRequest(pcPowerOn, s, hysteresis, mode);
          && trace == old(trace) + (if request.Some? then [PowerModeRequest(request.value)] else [])
          && rigStatus == (if request.Some? && reply == Some(true)
                           then Some(old(rigStatus).value.(rigPowerMode := request))
                           else old(rigStatus))
          && shutdownRequest == (if request.Some? && reply.None? then old(shutdownRequest)
                                 else old(shutdownRequest) || (pcPowerOn && s.loadPower < MinLoadPower))
      ensures initialized == old(initialized) && threeSecDatas == old(threeSecDatas)
      ensures oneMinDatas == old(oneMinDatas) && fanStopPending == old(fanStopPending)
      ensures pcStartTime == old(pcStartTime)
    {
      if |fifteenMinDatas| == 0 {
        return;
      }
      var summary := summarize(fifteenMinDatas);
      fifteenMinDatas := [];

      if pcStartTime.None? || MinutesBetween(pcStartTime.value, now) < GraceMinutes {
        return;
      }

      if pcPowerOn && summary.pvPower - summary.loadPower > hysteresis {
        if rigStatus.None? {
          return;
        }
        var powerMode := rigStatus.value.rigPowerMode;
        var newPowerMode := StepUp(powerMode);
        if powerMode != Some(newPowerMode) {
          trace := trace + [PowerModeRequest(newPowerMode)];
          if reply.None? {
            return;
          }
          if reply.value {
            rigStatus := Some(rigStatus.value.(rigPowerMode := Some(newPowerMode)));
          }
        }
      } else if pcPowerOn && summary.loadPower - summary.pvPower > hysteresis {
        if rigStatus.None? {
          return;
        }
        var powerMode := rigStatus.value.rigPowerMode;
        var newPowerMode := StepDown(powerMode);
        if powerMode != Some(newPowerMode) {
          trace := trace + [PowerModeRequest(newPowerMode)];
          if reply.None? {
            return;
          }
          if reply.value {
            rigStatus := Some(rigStatus.value.(rigPowerMode := Some(newPowerMode)));
          }
        }
      }

      if pcPowerOn && summary.loadPower < MinLoadPower {
        shutdownRequest := true;
      }
    }

    /**
     * `fanControl`: with the PC off and no fan stop running, ventilate for
     * `durationSeconds`.
     */
    method FanControl(pcPowerOn: bool, executorIdle: bool, durationSeconds: int)
      requires fanStopPending ==> !executorIdle
      modifies this
      ensures trace == old(trace) +
        (if !pcPowerOn && executorIdle then [FanOn, Sleep(durationSeconds * 1000), FanOff] else [])
      ensures initialized == old(initialized) && threeSecDatas == old(threeSecDatas)
      ensures oneMinDatas == old(oneMinDatas) && fifteenMinDatas == old(fifteenMinDatas)
      ensures fanStopPending == old(fanStopPending) && rigStatus == old(rigStatus)
      ensures pcStartTime == old(pcStartTime) && shutdownRequest == old(shutdownRequest)
    {
      if !pcPowerOn && executorIdle {
        trace := trace + [FanOn, Sleep(durationSeconds * 1000), FanOff];
      }
    }

    /** The delayed fan stop scheduled by power-off runs to its end and stops the fan. */
    method FanStopFires()
      modifies this
      ensures trace == old(trace) + (if old(fanStopPending) then [FanOff] else [])
      ensures !fanStopPending
      ensures initialized == old(initialized) && threeSecDatas == old(threeSecDatas)
      ensures oneMinDatas == old(oneMinDatas) && fifteenMinDatas == old(fifteenMinDatas)
      ensures rigStatus == old(rigStatus) && pcStartTime == old(pcStartTime)
      ensures shutdownRequest == old(shutdownRequest)
    {
      if fanStopPending {
        trace := trace + [FanOff];
        fanStopPending := false;
      }
    }

    /** `destroy`: release the hardware and mark the component uninitialised. */
    method Destroy()
      modifies this
      ensures !initialized
      ensures threeSecDatas == old(threeSecDatas) && oneMinDatas == old(oneMinDatas)
      ensures fifteenMinDatas == old(fifteenMinDatas) && fanStopPending == old(fanStopPending)
      ensures rigStatus == old(rigStatus) && pcStartTime == old(pcStartTime)
      ensures shutdownRequest == old(shutdownRequest) && trace == old(trace)
    {
      initialized := false;
    }
  }
}
