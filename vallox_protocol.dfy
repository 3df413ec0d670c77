/**
 * Wire constants and lookup tables of the Vallox Digit SE serial bus
 * (src/devices/vallox_protocol.py). Bytes on the wire are `bv8`.
 */
module ValloxProtocol {

  // Message structure
  const VX_MSG_LENGTH: nat := 6
  const VX_MSG_DOMAIN: bv8 := 0x01
  const VX_MSG_POLL_BYTE: bv8 := 0x00

  // Senders and receivers
  const VX_MSG_MAINBOARD_1: bv8 := 0x11
  const VX_MSG_MAINBOARDS: bv8 := 0x10
  const VX_MSG_PANEL_1: bv8 := 0x21
  const VX_MSG_THIS_PANEL: bv8 := 0x22
  const VX_MSG_PANELS: bv8 := 0x20

  // Variables
  const VX_VARIABLE_STATUS: bv8 := 0xA3
  const VX_VARIABLE_FAN_SPEED: bv8 := 0x29
  const VX_VARIABLE_DEFAULT_FAN_SPEED: bv8 := 0xA9
  const VX_VARIABLE_RH1: bv8 := 0x2F
  const VX_VARIABLE_RH2: bv8 := 0x30
  const VX_VARIABLE_SERVICE_PERIOD: bv8 := 0xA6
  const VX_VARIABLE_SERVICE_COUNTER: bv8 := 0xAB
  const VX_VARIABLE_T_OUTSIDE: bv8 := 0x32
  const VX_VARIABLE_T_INSIDE: bv8 := 0x34
  const VX_VARIABLE_T_EXHAUST: bv8 := 0x33
  const VX_VARIABLE_T_INCOMING: bv8 := 0x35
  const VX_VARIABLE_IO_08: bv8 := 0x08
  const VX_VARIABLE_HEATING_TARGET: bv8 := 0xA4
  const VX_VARIABLE_FAULT_CODE: bv8 := 0x36
  const VX_VARIABLE_FLAGS_06: bv8 := 0x71
  const VX_VARIABLE_HEATING_STATUS: bv8 := 0x07
  const VX_VARIABLE_PROGRAM: bv8 := 0xAA
  const VX_VARIABLE_CO2_HI: bv8 := 0x2B
  const VX_VARIABLE_CO2_LO: bv8 := 0x2C

  // Status flags (variable A3)
  const VX_STATUS_FLAG_POWER: bv8 := 0x01
  const VX_STATUS_FLAG_CO2: bv8 := 0x02
  const VX_STATUS_FLAG_RH: bv8 := 0x04
  const VX_STATUS_FLAG_HEATING_MODE: bv8 := 0x08
  const VX_STATUS_FLAG_FILTER: bv8 := 0x10
  const VX_STATUS_FLAG_HEATING: bv8 := 0x20
  const VX_STATUS_FLAG_FAULT: bv8 := 0x40
  const VX_STATUS_FLAG_SERVICE: bv8 := 0x80

  // Flags of variable 08
  const VX_08_FLAG_SUMMER_MODE: bv8 := 0x02
  const VX_08_FLAG_ERROR_RELAY: bv8 := 0x04
  const VX_08_FLAG_MOTOR_IN: bv8 := 0x08
  const VX_08_FLAG_FRONT_HEATING: bv8 := 0x10
  const VX_08_FLAG_MOTOR_OUT: bv8 := 0x20
  const VX_08_FLAG_EXTRA_FUNC: bv8 := 0x40

  // Flags of variable 06 (boost/fireplace)
  const VX_06_FIREPLACE_FLAG_ACTIVATE: bv8 := 0x20
  const VX_06_FIREPLACE_FLAG_IS_ACTIVE: bv8 := 0x40

  // Program variable flags
  const VX_PROGRAM_SWITCH_TYPE: bv8 := 0x20

  // Fan speeds
  const VX_FAN_SPEED_1: bv8 := 0x01
  const VX_FAN_SPEED_2: bv8 := 0x03
  const VX_FAN_SPEED_3: bv8 := 0x07
  const VX_FAN_SPEED_4: bv8 := 0x0F
  const VX_FAN_SPEED_5: bv8 := 0x1F
  const VX_FAN_SPEED_6: bv8 := 0x3F
  const VX_FAN_SPEED_7: bv8 := 0x7F
  const VX_FAN_SPEED_8: bv8 := 0xFF
  const VX_MIN_FAN_SPEED := 1
  const VX_MAX_FAN_SPEED := 8

  /** Fan speed 1..8 to its bus code, at index speed - 1. */
  const VX_FAN_SPEEDS: seq<bv8> := [
    VX_FAN_SPEED_1, VX_FAN_SPEED_2, VX_FAN_SPEED_3, VX_FAN_SPEED_4,
    VX_FAN_SPEED_5, VX_FAN_SPEED_6, VX_FAN_SPEED_7, VX_FAN_SPEED_8
  ]

  /** The length of VX_TEMPS: one entry per byte. */
  const VX_TEMPS_LENGTH := 256

  /**
   * VX_TEMPS[ntc]: the temperature in degrees Celsius of NTC sensor byte `ntc`, looked up
   * by its high nibble (the row) and its low nibble (the column).
   */
  function VxTemps(ntc: int): int
    requires 0 <= ntc < VX_TEMPS_LENGTH
  {
    var col := ntc % 16;
    match ntc / 16
    case 0 => (match col case 0 => -74 case 1 => -70 case 2 => -66 case 3 => -62 case 4 => -59 case 5 => -56 case 6 => -54 case 7 => -52 case 8 => -50 case 9 => -48 case 10 => -47 case 11 => -46 case 12 => -44 case 13 => -43 case 14 => -42 case _ => -41)
    case 1 => (match col case 0 => -40 case 1 => -39 case 2 => -38 case 3 => -37 case 4 => -36 case 5 => -35 case 6 => -34 case 7 => -33 case 8 => -33 case 9 => -32 case 10 => -31 case 11 => -30 case 12 => -30 case 13 => -29 case 14 => -28 case _ => -28)
    case 2 => (match col case 0 => -27 case 1 => -27 case 2 => -26 case 3 => -25 case 4 => -25 case 5 => -24 case 6 => -24 case 7 => -23 case 8 => -23 case 9 => -22 case 10 => -22 case 11 => -21 case 12 => -21 case 13 => -20 case 14 => -20 case _ => -19)
    case 3 => (match col case 0 => -19 case 1 => -19 case 2 => -18 case 3 => -18 case 4 => -17 case 5 => -17 case 6 => -16 case 7 => -16 case 8 => -16 case 9 => -15 case 10 => -15 case 11 => -14 case 12 => -14 case 13 => -14 case 14 => -13 case _ => -13)
    case 4 => (match col case 0 => -12 case 1 => -12 case 2 => -12 case 3 => -11 case 4 => -11 case 5 => -11 case 6 => -10 case 7 => -10 case 8 => -9 case 9 => -9 case 10 => -9 case 11 => -8 case 12 => -8 case 13 => -8 case 14 => -7 case _ => -7)
    case 5 => (match col case 0 => -7 case 1 => -6 case 2 => -6 case 3 => -6 case 4 => -5 case 5 => -5 case 6 => -5 case 7 => -4 case 8 => -4 case 9 => -4 case 10 => -3 case 11 => -3 case 12 => -3 case 13 => -2 case 14 => -2 case _ => -2)
    case 6 => (match col case 0 => -1 case 1 => -1 case 2 => -1 case 3 => -1 case 4 => 0 case 5 => 0 case 6 => 0 case 7 => 1 case 8 => 1 case 9 => 1 case 10 => 2 case 11 => 2 case 12 => 2 case 13 => 3 case 14 => 3 case _ => 3)
    case 7 => (match col case 0 => 4 case 1 => 4 case 2 => 4 case 3 => 5 case 4 => 5 case 5 => 5 case 6 => 5 case 7 => 6 case 8 => 6 case 9 => 6 case 10 => 7 case 11 => 7 case 12 => 7 case 13 => 8 case 14 => 8 case _ => 8)
    case 8 => (match col case 0 => 9 case 1 => 9 case 2 => 9 case 3 => 10 case 4 => 10 case 5 => 10 case 6 => 11 case 7 => 11 case 8 => 11 case 9 => 12 case 10 => 12 case 11 => 12 case 12 => 13 case 13 => 13 case 14 => 13 case _ => 14)
    case 9 => (match col case 0 => 14 case 1 => 14 case 2 => 15 case 3 => 15 case 4 => 15 case 5 => 16 case 6 => 16 case 7 => 16 case 8 => 17 case 9 => 17 case 10 => 18 case 11 => 18 case 12 => 18 case 13 => 19 case 14 => 19 case _ => 19)
    case 10 => (match col case 0 => 20 case 1 => 20 case 2 => 21 case 3 => 21 case 4 => 21 case 5 => 22 case 6 => 22 case 7 => 22 case 8 => 23 case 9 => 23 case 10 => 24 case 11 => 24 case 12 => 24 case 13 => 25 case 14 => 25 case _ => 26)
    case 11 => (match col case 0 => 26 case 1 => 27 case 2 => 27 case 3 => 27 case 4 => 28 case 5 => 28 case 6 => 29 case 7 => 29 case 8 => 30 case 9 => 30 case 10 => 31 case 11 => 31 case 12 => 32 case 13 => 32 case 14 => 33 case _ => 33)
    case 12 => (match col case 0 => 34 case 1 => 34 case 2 => 35 case 3 => 35 case 4 => 36 case 5 => 36 case 6 => 37 case 7 => 37 case 8 => 38 case 9 => 38 case 10 => 39 case 11 => 40 case 12 => 40 case 13 => 41 case 14 => 41 case _ => 42)
    case 13 => (match col case 0 => 43 case 1 => 43 case 2 => 44 case 3 => 45 case 4 => 45 case 5 => 46 case 6 => 47 case 7 => 48 case 8 => 48 case 9 => 49 case 10 => 50 case 11 => 51 case 12 => 52 case 13 => 53 case 14 => 53 case _ => 54)
    case 14 => (match col case 0 => 55 case 1 => 56 case 2 => 57 case 3 => 59 case 4 => 60 case 5 => 61 case 6 => 62 case 7 => 63 case 8 => 65 case 9 => 66 case 10 => 68 case 11 => 69 case 12 => 71 case 13 => 73 case 14 => 75 case _ => 77)
    case _ => (match col case 0 => 79 case 1 => 81 case 2 => 82 case 3 => 86 case 4 => 90 case 5 => 93 case 6 => 97 case 7 => 100 case 8 => 100 case 9 => 100 case 10 => 100 case 11 => 100 case 12 => 100 case 13 => 100 case 14 => 100 case _ => 100)
  }

  /** VX_TEMPS as a list, the form list.index searches. */
  function TempsList(): (s: seq<int>)
    ensures |s| == VX_TEMPS_LENGTH
    ensures forall ntc :: 0 <= ntc < VX_TEMPS_LENGTH ==> s[ntc] == VxTemps(ntc)
  {
    seq(VX_TEMPS_LENGTH, ntc requires 0 <= ntc < VX_TEMPS_LENGTH => VxTemps(ntc))
  }

  // Special values
  const NOT_SET := -999
  const QUERY_INTERVAL := 300     // seconds (5 minutes)
  const RETRY_INTERVAL := 5       // seconds
  const CO2_LIFE_TIME_MS := 2000  // milliseconds

  /** A byte with exactly one bit set. */
  predicate SingleBit(b: bv8)
  {
    b != 0 && b & (b - 1) == 0
  }

  /** Every entry of the NTC table lies between -74 and 100 degrees. */
  lemma TempsWithinRange()
    ensures forall ntc :: 0 <= ntc < VX_TEMPS_LENGTH ==> -74 <= VxTemps(ntc) <= 100
  {
  }

  /** Adjacent entries of the lower half of the NTC table never decrease. */
  lemma TempsLowerHalfNonDecreasing()
    ensures forall ntc :: 0 <= ntc < 0x80 ==> VxTemps(ntc) <= VxTemps(ntc + 1)
  {
  }

  /** Adjacent entries of the upper half of the NTC table never decrease. */
  lemma TempsUpperHalfNonDecreasing()
    ensures forall ntc :: 0x80 <= ntc < VX_TEMPS_LENGTH - 1 ==> VxTemps(ntc) <= VxTemps(ntc + 1)
  {
  }

  /** The NTC table is monotone: a larger byte never reads as a lower temperature. */
  lemma {:induction false} TempsMonotone(i: nat, j: nat)
    requires i <= j < VX_TEMPS_LENGTH
    ensures VxTemps(i) <= VxTemps(j)
    decreases j - i
  {
    if i < j {
      TempsMonotone(i, j - 1);
      TempsLowerHalfNonDecreasing();
      TempsUpperHalfNonDecreasing();
      assert VxTemps(j - 1) <= VxTemps(j);
    }
  }

  /** The reverse-lookup fallback byte 0x83 reads back as 10 degrees. */
  lemma TempsFallbackIsTenDegrees()
    ensures VxTemps(0x83) == 10
  {
  }

  /** Eight distinct, strictly increasing fan speed codes; code i is 2^(i+1) - 1, all low bits set. */
  lemma FanSpeedsTableWellFormed()
    ensures |VX_FAN_SPEEDS| == VX_MAX_FAN_SPEED == 8 && VX_MIN_FAN_SPEED == 1
    ensures forall i, j :: 0 <= i < j < |VX_FAN_SPEEDS| ==> VX_FAN_SPEEDS[i] < VX_FAN_SPEEDS[j]
    ensures forall i :: 0 <= i < |VX_FAN_SPEEDS| ==> VX_FAN_SPEEDS[i] as int + 1 == Pow2(i + 1)
  {
    assert Pow2(1) == 2 && Pow2(2) == 4 && Pow2(3) == 8 && Pow2(4) == 16;
    assert Pow2(5) == 32 && Pow2(6) == 64 && Pow2(7) == 128 && Pow2(8) == 256;
  }

  function Pow2(n: nat): nat
  {
    if n == 0 then 1 else 2 * Pow2(n - 1)
  }

  /** The unset marker is neither a temperature of the table nor a fan speed. */
  lemma NotSetIsDistinguishable()
    ensures forall ntc :: 0 <= ntc < VX_TEMPS_LENGTH ==> VxTemps(ntc) != NOT_SET
    ensures !(VX_MIN_FAN_SPEED <= NOT_SET <= VX_MAX_FAN_SPEED)
  {
    TempsWithinRange();
  }

  /** The status flags are single bits, pairwise distinct. */
  lemma StatusFlagsAreDistinctBits()
    ensures var flags := [VX_STATUS_FLAG_POWER, VX_STATUS_FLAG_CO2, VX_STATUS_FLAG_RH,
                          VX_STATUS_FLAG_HEATING_MODE, VX_STATUS_FLAG_FILTER, VX_STATUS_FLAG_HEATING,
                          VX_STATUS_FLAG_FAULT, VX_STATUS_FLAG_SERVICE];
            (forall i :: 0 <= i < |flags| ==> SingleBit(flags[i]))
            && (forall i, j :: 0 <= i < j < |flags| ==> flags[i] & flags[j] == 0)
  {
  }

  /** The variable-08 flags are single bits, pairwise distinct. */
  lemma Variable08FlagsAreDistinctBits()
    ensures var flags := [VX_08_FLAG_SUMMER_MODE, VX_08_FLAG_ERROR_RELAY, VX_08_FLAG_MOTOR_IN,
                          VX_08_FLAG_FRONT_HEATING, VX_08_FLAG_MOTOR_OUT, VX_08_FLAG_EXTRA_FUNC];
            (forall i :: 0 <= i < |flags| ==> SingleBit(flags[i]))
            && (forall i, j :: 0 <= i < j < |flags| ==> flags[i] & flags[j] == 0)
  {
  }

  /** The two fireplace/boost flags of variable 06, and the program switch-type flag, are single bits. */
  lemma Flags06AreDistinctBits()
    ensures SingleBit(VX_06_FIREPLACE_FLAG_ACTIVATE) && SingleBit(VX_06_FIREPLACE_FLAG_IS_ACTIVE)
    ensures VX_06_FIREPLACE_FLAG_ACTIVATE & VX_06_FIREPLACE_FLAG_IS_ACTIVE == 0
    ensures SingleBit(VX_PROGRAM_SWITCH_TYPE)
  {
  }

  /** Frames are six bytes in domain 0x01, and the five bus addresses are distinct. */
  lemma AddressesAreDistinct()
    ensures VX_MSG_LENGTH == 6 && VX_MSG_DOMAIN == 0x01
    ensures var addresses := [VX_MSG_MAINBOARDS, VX_MSG_MAINBOARD_1, VX_MSG_PANELS,
                              VX_MSG_PANEL_1, VX_MSG_THIS_PANEL];
            forall i, j :: 0 <= i < j < |addresses| ==> addresses[i] != addresses[j]
  {
  }

  /** The variable identifiers the decoder dispatches on are pairwise distinct. */
  lemma VariablesAreDistinct()
    ensures var ids := [VX_VARIABLE_STATUS, VX_VARIABLE_FAN_SPEED, VX_VARIABLE_DEFAULT_FAN_SPEED,
                        VX_VARIABLE_RH1, VX_VARIABLE_RH2, VX_VARIABLE_SERVICE_PERIOD,
                        VX_VARIABLE_SERVICE_COUNTER, VX_VARIABLE_T_OUTSIDE, VX_VARIABLE_T_INSIDE,
                        VX_VARIABLE_T_EXHAUST, VX_VARIABLE_T_INCOMING, VX_VARIABLE_IO_08,
                        VX_VARIABLE_HEATING_TARGET, VX_VARIABLE_FLAGS_06, VX_VARIABLE_PROGRAM,
                        VX_VARIABLE_CO2_HI, VX_VARIABLE_CO2_LO, VX_MSG_POLL_BYTE];
            forall i, j :: 0 <= i < j < |ids| ==> ids[i] != ids[j]
  {
  }
}
