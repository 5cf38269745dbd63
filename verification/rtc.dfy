/** The real-time-clock registers (memory/RTC.go). The day counter is
    nine bits wide: its low eight bits are `daysLow`, its ninth bit is
    bit 0 of `daysHigh`. Bit 6 of `daysHigh` is the halt flag and bit 7
    the day-counter overflow flag. The wall-clock timestamp `lastSync`
    is not modelled. */
module Rtc {

  import opened Bits

  const HaltBit: nat := 6
  const OverflowBit: nat := 7

  datatype Rtc = Rtc(
    seconds: Byte,
    minutes: Byte,
    hours: Byte,
    daysLow: Byte,
    daysHigh: Byte,
    latched: bool)

  /** `IsHalted`: `daysHigh & 0x40 != 0`. */
  function IsHalted(r: Rtc): (halted: bool)
    ensures halted <==> r.daysHigh % 0x80 >= 0x40
  {
    Bit(r.daysHigh, HaltBit)
  }

  /** `HasOverflowed`: `daysHigh & 0x80 != 0`. */
  function HasOverflowed(r: Rtc): (overflowed: bool)
    ensures overflowed <==> r.daysHigh >= 0x80
  {
    Bit(r.daysHigh, OverflowBit)
  }

  /** `GetTotalDays`: `int(daysHigh & 0x01) << 8 | int(daysLow)`, the
      nine-bit day counter. */
  function TotalDays(r: Rtc): (days: int)
    ensures 0 <= days < 512
    ensures days % 256 == r.daysLow
    ensures days >= 256 <==> Bit(r.daysHigh, 0)
  {
    var highBit := (r.daysHigh % 2) * 256;
    highBit + r.daysLow
  }

  /** `NewRTC`: every counter zero, not latched. */
  function NewRtc(): (r: Rtc)
    ensures !IsHalted(r) && !HasOverflowed(r) && !r.latched
    ensures TotalDays(r) == 0
    ensures r.seconds == 0 && r.minutes == 0 && r.hours == 0
    ensures r.daysLow == 0 && r.daysHigh == 0
  {
    Rtc(0, 0, 0, 0, 0, false)
  }

  /** A new clock is already running: resuming it changes nothing, and
      halting it changes nothing but the halt flag. */
  lemma NewRtcRunning()
    ensures SetHalt(NewRtc(), false) == NewRtc()
    ensures SetHalt(NewRtc(), true).daysHigh == 0x40
  {
    var z := Rtc(0, 0, 0, 0, 0, false);
    assert SetHalt(z, false) == z;
    assert SetHalt(z, true).daysHigh == 0x40;
  }

  /** `SetHalt`: set (`|= 0x40`) or clear (`&= 0xBF`) bit 6 of `daysHigh`;
      the bits below and above it and every other field are kept. */
  function SetHalt(r: Rtc, halt: bool): (r': Rtc)
    ensures IsHalted(r') == halt
    ensures r'.daysHigh % 0x40 == r.daysHigh % 0x40
    ensures r'.daysHigh / 0x80 == r.daysHigh / 0x80
    ensures r' == r.(daysHigh := r'.daysHigh)
  {
    if halt then
      r.(daysHigh := SetBit(r.daysHigh, HaltBit))
    else
      r.(daysHigh := ClearBit(r.daysHigh, HaltBit))
  }

  /** `SetHalt` touches neither the overflow flag nor the day counter. */
  lemma SetHaltKeepsDays(r: Rtc, halt: bool)
    ensures HasOverflowed(SetHalt(r, halt)) == HasOverflowed(r)
    ensures TotalDays(SetHalt(r, halt)) == TotalDays(r)
  {
  }

  /** Setting the halt flag twice to the same value is the same as setting it once. */
  lemma SetHaltIdempotent(r: Rtc, halt: bool)
    ensures SetHalt(SetHalt(r, halt), halt) == SetHalt(r, halt)
  {
  }

  /** Halting a running clock and resuming it gives back the same registers. */
  lemma SetHaltUndo(r: Rtc)
    requires !IsHalted(r)
    ensures SetHalt(SetHalt(r, true), false) == r
  {
  }
}
