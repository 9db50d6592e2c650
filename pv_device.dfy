/**
 * The register map of the PV charge controller (`PvControllerDevice`): which
 * Modbus requests are issued and how the returned 16-bit registers become a
 * `RealtimeData`. The serial transactions themselves are inputs: `None` is a
 * transaction that threw.
 */
module PvDevice {
  import opened Wrappers

  /** One input register as j2mod returns it: an unsigned 16-bit value. */
  type Word = x: int | 0 <= x < 0x1_0000

  const RealtimeStart: int := 0x3100
  const RealtimeCount: nat := 16
  const PvPowerLow: nat := 2
  const PvPowerHigh: nat := 3
  const BattVoltIndex: nat := 4
  const LoadPowerLow: nat := 14
  const LoadPowerHigh: nat := 15
  const SocStart: int := 0x311A
  const SocCount: nat := 1
  const LoadSwitchCoil: int := 2

  datatype ModbusRequest =
    | ReadInputRegisters(start: int, count: nat)
    | ReadCoils(start: int, count: nat)
    | WriteCoil(address: int, on: bool)

  /** One sample: watts, volts, watts, percent. */
  datatype RealtimeData = RealtimeData(pvPower: real, battVolt: real, loadPower: real, battSOC: real)

  datatype DeviceError =
    | TransportFailure   // the transaction threw (ModbusException, timeout, ...)
    | MissingRegister    // the response holds fewer values than the index read

  /** A low/high word pair read as one unsigned 32-bit count (low word first). */
  function Combine(lo: Word, hi: Word): (v: nat)
    ensures v < 0x1_0000_0000
    ensures v % 0x1_0000 == lo && v / 0x1_0000 == hi
  {
    lo + hi * 0x1_0000
  }

  /** The low and high words of a 32-bit count. */
  function SplitWords(v: nat): (words: (Word, Word))
    requires v < 0x1_0000_0000
    ensures Combine(words.0, words.1) == v
  {
    (v % 0x1_0000, v / 0x1_0000)
  }

  /** Java `int` arithmetic: the two's-complement 32-bit value congruent to `x`. */
  function WrapInt32(x: int): (w: int)
    ensures -0x8000_0000 <= w < 0x8000_0000
    ensures (x - w) % 0x1_0000_0000 == 0
  {
    var m := x % 0x1_0000_0000;
    if m >= 0x8000_0000 then m - 0x1_0000_0000 else m
  }

  /**
   * The pair as the source computes it: `(double) lo + hi * 0x10000`, where the
   * product is evaluated in 32-bit `int` before the widening to `double`.
   */
  function CombineAsWritten(lo: Word, hi: Word): (w: int)
    ensures (w - Combine(lo, hi)) % 0x1_0000_0000 == 0
    ensures w == Combine(lo, hi) || w == Combine(lo, hi) - 0x1_0000_0000
  {
    lo + WrapInt32(hi * 0x1_0000)
  }

  /** Below the sign bit of the high word the source's arithmetic gives the intended count. */
  lemma AsWrittenAgreesBelowSignBit(lo: Word, hi: Word)
    requires hi < 0x8000
    ensures CombineAsWritten(lo, hi) == Combine(lo, hi)
  {
  }

  /** From high word 0x8000 on, the product overflows and the power comes out negative. */
  lemma AsWrittenOverflows(lo: Word, hi: Word)
    requires hi >= 0x8000
    ensures CombineAsWritten(lo, hi) == Combine(lo, hi) - 0x1_0000_0000
    ensures CombineAsWritten(lo, hi) < 0
  {
  }

  /** The concrete input: low word 0, high word 0x8000. */
  lemma AsWrittenOverflowExample()
    ensures CombineAsWritten(0, 0x8000) == -0x8000_0000
    ensures Combine(0, 0x8000) == 0x8000_0000
  {
  }

  /** The two read requests of `readCurrent`, in order. */
  function RealtimeRequests(): (rs: seq<ModbusRequest>)
    ensures |rs| == 2
    ensures rs[0] == ReadInputRegisters(0x3100, 16) && rs[1] == ReadInputRegisters(0x311A, 1)
  {
    [ReadInputRegisters(RealtimeStart, RealtimeCount), ReadInputRegisters(SocStart, SocCount)]
  }

  /**
   * `readCurrent`: decode the 16-register block at 0x3100 and the one register
   * at 0x311A. Powers and voltage are in hundredths on the wire.
   */
  function ReadCurrent(block: Option<seq<Word>>, socBlock: Option<seq<Word>>): (r: Result<RealtimeData, DeviceError>)
    ensures r.Ok? <==>
      block.Some? && |block.value| > LoadPowerHigh && socBlock.Some? && |socBlock.value| > 0
    // complete responses to the two requests always decode: every index read is inside its request
    ensures (block.Some? && |block.value| == RealtimeRequests()[0].count
             && socBlock.Some? && |socBlock.value| == RealtimeRequests()[1].count) ==> r.Ok?
    ensures r.Ok? ==>
      var regs := block.value;
      && r.value.pvPower * 100.0 == (regs[2] as int + 0x1_0000 * regs[3] as int) as real
      && r.value.loadPower * 100.0 == (regs[14] as int + 0x1_0000 * regs[15] as int) as real
      && r.value.battVolt * 100.0 == regs[4] as real
      && r.value.battSOC == socBlock.value[0] as real
  {
    if block.None? then Err(TransportFailure)
    else if |block.value| <= LoadPowerHigh then Err(MissingRegister)
    else
      var regs := block.value;
      var pv := Combine(regs[PvPowerLow], regs[PvPowerHigh]) as real / 100.0;
      var load := Combine(regs[LoadPowerLow], regs[LoadPowerHigh]) as real / 100.0;
      var volt := regs[BattVoltIndex] as real / 100.0;
      if socBlock.None? then Err(TransportFailure)
      else if |socBlock.value| == 0 then Err(MissingRegister)
      else Ok(RealtimeData(pv, volt, load, socBlock.value[0] as real))
  }

  /** A register block carrying the given hundredths, all other registers zero. */
  function EncodeBlock(pvCenti: nat, loadCenti: nat, voltCenti: Word): (regs: seq<Word>)
    requires pvCenti < 0x1_0000_0000 && loadCenti < 0x1_0000_0000
    ensures |regs| == RealtimeCount
  {
    var (pvLo, pvHi) := SplitWords(pvCenti);
    var (loadLo, loadHi) := SplitWords(loadCenti);
    seq(RealtimeCount, i =>
      if i == PvPowerLow then pvLo
      else if i == PvPowerHigh then pvHi
      else if i == BattVoltIndex then voltCenti
      else if i == LoadPowerLow then loadLo
      else if i == LoadPowerHigh then loadHi
      else 0)
  }

  /** Decoding an encoded block gives back every value, scaled by 1/100. */
  lemma DecodeEncoded(pvCenti: nat, loadCenti: nat, voltCenti: Word, soc: Word)
    requires pvCenti < 0x1_0000_0000 && loadCenti < 0x1_0000_0000
    ensures ReadCurrent(Some(EncodeBlock(pvCenti, loadCenti, voltCenti)), Some([soc]))
         == Ok(RealtimeData(pvCenti as real / 100.0, voltCenti as real / 100.0,
                            loadCenti as real / 100.0, soc as real))
  {
    var regs := EncodeBlock(pvCenti, loadCenti, voltCenti);
    assert Combine(regs[PvPowerLow], regs[PvPowerHigh]) == pvCenti;
    assert Combine(regs[LoadPowerLow], regs[LoadPowerHigh]) == loadCenti;
  }

  /** `readLoadSwitch`: read coil 2 and return its first status bit. */
  function ReadLoadSwitchRequest(): (req: ModbusRequest)
    ensures req == ReadCoils(2, 1)
  {
    ReadCoils(LoadSwitchCoil, 1)
  }

  function ReadLoadSwitch(coils: Option<seq<bool>>): (r: Result<bool, DeviceError>)
    ensures r.Ok? <==> coils.Some? && |coils.value| > 0
    ensures r.Ok? ==> r.value == coils.value[0]
  {
    if coils.None? then Err(TransportFailure)
    else if |coils.value| == 0 then Err(MissingRegister)
    else Ok(coils.value[0])
  }

  /** `changeLoadSwith`: write the requested state to coil 2. */
  function ChangeLoadSwitchRequest(sw: bool): (req: ModbusRequest)
    ensures req.WriteCoil? && req.on == sw
  {
    WriteCoil(LoadSwitchCoil, sw)
  }

  /** Reading and writing the load switch address the same coil. */
  lemma LoadSwitchSameCoil(sw: bool)
    ensures ReadLoadSwitchRequest().start == ChangeLoadSwitchRequest(sw).address == 2
  {
  }
}
