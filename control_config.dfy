/**
 * The older three-way comparison `ControlConfig.PowerCondition.compare`: the
 * first configured field in the order stage, soc, voltage alone decides.
 */
module ControlConfig {
  import opened Wrappers
  import ControlProperties

  /** A condition; `None` is a field left null in the configuration. */
  datatype PowerCondition = PowerCondition(stage: Option<int>, soc: Option<real>, voltage: Option<real>)

  /** `compare(_stage, _soc, _voltage)`, the stage given as its priority index. */
  function Compare(c: PowerCondition, stage: int, soc: real, voltage: real): (r: int)
    ensures c.stage.Some? ==> r == stage - c.stage.value
    ensures c.stage.None? ==> r == -1 || r == 0 || r == 1
    ensures c.stage.None? && c.soc.Some? ==> r != 0 && (r < 0 <==> soc < c.soc.value)
    ensures c.stage.None? && c.soc.None? && c.voltage.Some? ==> r != 0 && (r < 0 <==> voltage < c.voltage.value)
    ensures c.stage.None? && c.soc.None? && c.voltage.None? ==> r == 0
  {
    if c.stage.Some? then stage - c.stage.value
    else if c.soc.Some? then ControlProperties.Score(soc, c.soc.value)
    else if c.voltage.Some? then ControlProperties.Score(voltage, c.voltage.value)
    else 0
  }

  /** Fields of lower priority than the first configured one are never read. */
  lemma FirstConfiguredWins(c: PowerCondition, stage: int, soc: real, voltage: real, soc': real, voltage': real)
    ensures c.stage.Some? ==> Compare(c, stage, soc, voltage) == Compare(c, stage, soc', voltage')
    ensures c.stage.None? && c.soc.Some? ==>
      Compare(c, stage, soc, voltage) == Compare(c, stage, soc, voltage')
    ensures c.stage.Some? ==>
      Compare(c, stage, soc, voltage) == Compare(PowerCondition(c.stage, None, None), stage, soc, voltage)
  {
  }
}
