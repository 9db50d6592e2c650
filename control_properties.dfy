/**
 * The power-on / power-off threshold test of `ControlProperties.PowerCondition`.
 *
 * A condition has optional thresholds for generated power, battery voltage,
 * state of charge and charge stage. `graterEqual` and `lessEqual` compute the
 * same running three-way result `ret`, visiting the configured fields in the
 * order power, voltage, soc, stage; a field overwrites `ret` only while
 * `ret <= 0`. Only the final test differs: `ret >= 0` or `ret <= 0`.
 */
module ControlProperties {
  import opened Wrappers

  /** A condition; `None` is a field left null in the configuration. */
  datatype PowerCondition = PowerCondition(
    voltage: Option<real>,
    power: Option<real>,
    soc: Option<real>,
    stage: Option<int>)  // priority index of the configured charge stage

  /** The four arguments `_power, _soc, _voltage, _stage` (the stage as its index). */
  datatype Measured = Measured(power: real, soc: real, voltage: real, stage: int)

  /**
   * `_x == x ? 0 : _x < x ? -1 : 1` on boxed `Double`s. `==` compares object
   * identity; the measured value always comes from a freshly computed summary
   * and the threshold from the configuration, so it is never true and a value
   * tie scores +1.
   */
  function Score(measured: real, configured: real): (s: int)
    ensures s == -1 || s == 1
    ensures s == -1 <==> measured < configured
  {
    if measured < configured then -1 else 1
  }

  /** The value of `ret` after the four guarded assignments. */
  function Verdict(c: PowerCondition, m: Measured): (r: int)
    ensures ConfiguredScores(c, m) == [] ==> r == 0
    ensures c.power.Some? && m.power >= c.power.value ==> r == 1
    ensures c.stage.None? ==> -1 <= r <= 1
    ensures r == 0 ==> ConfiguredScores(c, m) == [] || (c.stage.Some? && m.stage == c.stage.value)
  {
    var afterPower := if c.power.Some? then Score(m.power, c.power.value) else 0;
    var afterVoltage :=
      if c.voltage.Some? && afterPower <= 0 then Score(m.voltage, c.voltage.value) else afterPower;
    var afterSoc :=
      if c.soc.Some? && afterVoltage <= 0 then Score(m.soc, c.soc.value) else afterVoltage;
    if c.stage.Some? && afterSoc <= 0 then m.stage - c.stage.value else afterSoc
  }

  /** `graterEqual`: the measurement is at or above the condition. */
  predicate GraterEqual(c: PowerCondition, m: Measured): (b: bool)
    ensures b <==> FirstPositiveElseLast(ConfiguredScores(c, m)) >= 0
  {
    VerdictIsFirstPositiveElseLast(c, m);
    Verdict(c, m) >= 0
  }

  /** `lessEqual`: the measurement is at or below the condition. */
  predicate LessEqual(c: PowerCondition, m: Measured): (b: bool)
    ensures b <==> FirstPositiveElseLast(ConfiguredScores(c, m)) <= 0
  {
    VerdictIsFirstPositiveElseLast(c, m);
    Verdict(c, m) <= 0
  }

  // ---------------------------------------------------------------------------
  // A reference definition: the scores of the configured fields, in order, and
  // the rule "the first positive score decides, otherwise the last one does".

  /** Scores of the configured fields, in the order power, voltage, soc, stage. */
  function ConfiguredScores(c: PowerCondition, m: Measured): seq<int> {
    (if c.power.Some? then [Score(m.power, c.power.value)] else [])
    + (if c.voltage.Some? then [Score(m.voltage, c.voltage.value)] else [])
    + (if c.soc.Some? then [Score(m.soc, c.soc.value)] else [])
    + (if c.stage.Some? then [m.stage - c.stage.value] else [])
  }

  /** The first positive score if there is one, else the last score, else 0. */
  function FirstPositiveElseLast(s: seq<int>): int {
    if |s| == 0 then 0
    else if s[0] > 0 || |s| == 1 then s[0]
    else FirstPositiveElseLast(s[1..])
  }

  /** A positive score ends the search: nothing after it matters. */
  lemma {:induction false} FirstPositiveDecides(s: seq<int>, i: nat)
    requires i < |s| && s[i] > 0
    requires forall j :: 0 <= j < i ==> s[j] <= 0
    ensures FirstPositiveElseLast(s) == s[i]
  {
    if i > 0 {
      FirstPositiveDecides(s[1..], i - 1);
    }
  }

  /** Without a positive score, the last configured field decides. */
  lemma {:induction false} LastDecidesWithoutPositive(s: seq<int>)
    requires |s| >= 1
    requires forall j :: 0 <= j < |s| ==> s[j] <= 0
    ensures FirstPositiveElseLast(s) == s[|s| - 1]
  {
    if |s| > 1 {
      LastDecidesWithoutPositive(s[1..]);
    }
  }

  /**
   * Appending a score: a positive result so far stays, anything else is
   * replaced by the new score; this is one guarded assignment of the source.
   */
  lemma {:induction false} FirstPositiveElseLastSnoc(s: seq<int>, x: int)
    ensures FirstPositiveElseLast(s + [x]) == if FirstPositiveElseLast(s) > 0 then FirstPositiveElseLast(s) else x
  {
    if |s| > 1 && s[0] <= 0 {
      assert (s + [x])[1..] == s[1..] + [x];
      FirstPositiveElseLastSnoc(s[1..], x);
    } else if |s| == 1 && s[0] <= 0 {
      assert (s + [x])[1..] == [x];
    }
  }

  /** The running result of the source equals the reference rule, for every subset of configured fields. */
  lemma VerdictIsFirstPositiveElseLast(c: PowerCondition, m: Measured)
    ensures Verdict(c, m) == FirstPositiveElseLast(ConfiguredScores(c, m))
  {
    var s1 := if c.power.Some? then [Score(m.power, c.power.value)] else [];
    var s2 := s1 + (if c.voltage.Some? then [Score(m.voltage, c.voltage.value)] else []);
    var s3 := s2 + (if c.soc.Some? then [Score(m.soc, c.soc.value)] else []);
    var s4 := s3 + (if c.stage.Some? then [m.stage - c.stage.value] else []);
    assert s4 == ConfiguredScores(c, m);
    if c.voltage.Some? {
      FirstPositiveElseLastSnoc(s1, Score(m.voltage, c.voltage.value));
    } else {
      assert s2 == s1;
    }
    if c.soc.Some? {
      FirstPositiveElseLastSnoc(s2, Score(m.soc, c.soc.value));
    } else {
      assert s3 == s2;
    }
    if c.stage.Some? {
      FirstPositiveElseLastSnoc(s3, m.stage - c.stage.value);
    } else {
      assert s4 == s3;
    }
  }

  /** With no field configured both tests hold. */
  lemma NothingConfiguredAcceptsBoth(m: Measured)
    ensures GraterEqual(PowerCondition(None, None, None, None), m)
    ensures LessEqual(PowerCondition(None, None, None, None), m)
  {
  }

  /** At least one of the two tests always holds; both hold exactly when `ret` is 0. */
  lemma GraterOrLess(c: PowerCondition, m: Measured)
    ensures GraterEqual(c, m) || LessEqual(c, m)
    ensures GraterEqual(c, m) && LessEqual(c, m) <==> Verdict(c, m) == 0
  {
  }

  /**
   * A power reading at or above its threshold settles both tests, whatever the
   * other fields say: an earlier +1 is final.
   */
  lemma PowerAboveIsFinal(c: PowerCondition, m: Measured)
    requires c.power.Some? && m.power >= c.power.value
    ensures Verdict(c, m) == 1
    ensures GraterEqual(c, m) && !LessEqual(c, m)
  {
  }

  /**
   * Because a tie scores +1, `lessEqual` rejects a reading exactly on a power
   * threshold (a value comparison would have accepted it).
   */
  lemma PowerTieRejectsLessEqual(c: PowerCondition, m: Measured)
    requires c.power == Some(m.power)
    ensures GraterEqual(c, m) && !LessEqual(c, m)
  {
  }

  /** The stage contribution follows the order of the stage indices. */
  lemma StageFollowsIndexOrder(c: PowerCondition, m: Measured)
    requires c.power.None? && c.voltage.None? && c.soc.None? && c.stage.Some?
    ensures GraterEqual(c, m) <==> m.stage >= c.stage.value
    ensures LessEqual(c, m) <==> m.stage <= c.stage.value
  {
  }

  /** A later configured field overrides an earlier below-threshold result. */
  lemma BelowThenLaterOverrides(c: PowerCondition, m: Measured)
    requires c.power.Some? && m.power < c.power.value
    requires c.voltage.Some? && c.soc.None? && c.stage.None?
    ensures GraterEqual(c, m) <==> m.voltage >= c.voltage.value
    ensures LessEqual(c, m) <==> m.voltage < c.voltage.value
  {
  }
}
