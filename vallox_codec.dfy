/**
 * The Vallox fixed six-byte frame `[domain, sender, receiver, variable, value, checksum]`:
 * checksum, framing of the serial input, the frames the panel writes, and the static
 * conversions between bus codes and physical values (vallox.py).
 */
module ValloxCodec {
  import opened Wrappers
  import opened Bytes
  import opened ValloxProtocol

  type Frame = seq<bv8>

  /** _calculate_checksum: the sum of the first five bytes, masked to eight bits. */
  function Checksum(m: seq<bv8>): (r: bv8)
    requires |m| >= 5
    ensures r as int == (m[0] as int + m[1] as int + m[2] as int + m[3] as int + m[4] as int) % 256
  {
    SumOfFive(m[..5]);
    Sum8IsSumMod256(m[..5]);
    Sum8(m[..5])
  }

  /** _validate_checksum: the trailing byte is the checksum of the first five. */
  predicate ChecksumValid(m: Frame)
    requires |m| == VX_MSG_LENGTH
    ensures ChecksumValid(m) <==> m[5] as int == (m[0] as int + m[1] as int + m[2] as int + m[3] as int + m[4] as int) % 256
  {
    m[5] == Checksum(m)
  }

  /** A frame from `sender` to `receiver` carrying `value` for `variable`, with its checksum. */
  function EncodeFrame(sender: bv8, receiver: bv8, variable: bv8, value: bv8): (f: Frame)
    ensures |f| == VX_MSG_LENGTH && ChecksumValid(f)
    ensures f[0] == VX_MSG_DOMAIN && f[1] == sender && f[2] == receiver && f[3] == variable && f[4] == value
  {
    var head := [VX_MSG_DOMAIN, sender, receiver, variable, value];
    var f := head + [Checksum(head)];
    assert f[..5] == head[..5];
    assert Checksum(f) == Checksum(head);
    f
  }

  /**
   * The two frames _set_variable writes: to `target` as this panel, then as the first
   * mainboard to all panels, so that the other panels see the change.
   */
  function SetFrames(variable: bv8, value: bv8, target: bv8): (fs: seq<Frame>)
    ensures |fs| == 2
    ensures fs[0] == EncodeFrame(VX_MSG_THIS_PANEL, target, variable, value)
    ensures fs[1] == EncodeFrame(VX_MSG_MAINBOARD_1, VX_MSG_PANELS, variable, value)
  {
    [EncodeFrame(VX_MSG_THIS_PANEL, target, variable, value),
     EncodeFrame(VX_MSG_MAINBOARD_1, VX_MSG_PANELS, variable, value)]
  }

  /** Every checksum-valid frame of the domain is the encoding of its own header and payload. */
  lemma ValidFrameIsEncoded(m: Frame)
    requires |m| == VX_MSG_LENGTH && m[0] == VX_MSG_DOMAIN && ChecksumValid(m)
    ensures m == EncodeFrame(m[1], m[2], m[3], m[4])
  {
    var f := EncodeFrame(m[1], m[2], m[3], m[4]);
    assert f[..5] == m[..5];
    assert f[5] == m[5];
  }

  /** The poll frame _request_variable writes: this panel asks the first mainboard for `variable`. */
  function RequestFrame(variable: bv8): (f: Frame)
    ensures |f| == VX_MSG_LENGTH
    ensures f == [VX_MSG_DOMAIN, VX_MSG_THIS_PANEL, VX_MSG_MAINBOARD_1, VX_MSG_POLL_BYTE, variable, f[5]]
    ensures ChecksumValid(f)
  {
    EncodeFrame(VX_MSG_THIS_PANEL, VX_MSG_MAINBOARD_1, VX_MSG_POLL_BYTE, variable)
  }

  /** The senders _read_message accepts. */
  predicate ValidSender(b: bv8)
  {
    b in [VX_MSG_MAINBOARD_1, VX_MSG_THIS_PANEL, VX_MSG_PANEL_1]
  }

  /** The receivers _read_message accepts. */
  predicate ValidReceiver(b: bv8)
  {
    b in [VX_MSG_PANELS, VX_MSG_THIS_PANEL, VX_MSG_PANEL_1, VX_MSG_MAINBOARD_1, VX_MSG_MAINBOARDS]
  }

  /** What one call of _read_message does to the waiting input: how many bytes it consumes, and the frame it returns. */
  datatype ReadOutcome = ReadOutcome(consumed: nat, frame: Option<Frame>)

  /**
   * _read_message on an open port whose input buffer holds `rx`. Fewer than six bytes
   * waiting: nothing is read. A first byte other than the domain: that byte is dropped.
   * An unknown sender or receiver: the three header bytes are dropped. Otherwise the
   * six bytes are consumed and returned, whatever their checksum.
   */
  function ReadFrame(rx: seq<bv8>): (r: ReadOutcome)
    ensures r.consumed <= |rx|
    ensures r.frame.Some? <==> r.consumed == VX_MSG_LENGTH
    ensures r.frame.Some? ==>
              r.frame.value == rx[..VX_MSG_LENGTH] && ValidSender(rx[1]) && ValidReceiver(rx[2])
    ensures r.consumed == 0 <==> |rx| < VX_MSG_LENGTH
    ensures |rx| >= VX_MSG_LENGTH && rx[0] != VX_MSG_DOMAIN ==> r == ReadOutcome(1, None)
    ensures (|rx| >= VX_MSG_LENGTH && rx[0] == VX_MSG_DOMAIN && !(ValidSender(rx[1]) && ValidReceiver(rx[2])))
              ==> r == ReadOutcome(3, None)
    ensures (|rx| >= VX_MSG_LENGTH && rx[0] == VX_MSG_DOMAIN && ValidSender(rx[1]) && ValidReceiver(rx[2]))
              ==> r == ReadOutcome(VX_MSG_LENGTH, Some(rx[..VX_MSG_LENGTH]))
  {
    if |rx| < VX_MSG_LENGTH then ReadOutcome(0, None)
    else if rx[0] != VX_MSG_DOMAIN then ReadOutcome(1, None)
    else if !(ValidSender(rx[1]) && ValidReceiver(rx[2])) then ReadOutcome(3, None)
    else ReadOutcome(VX_MSG_LENGTH, Some(rx[..VX_MSG_LENGTH]))
  }

  /** A frame written by a known sender to a known receiver is read back whole, ahead of whatever follows it. */
  lemma ReadFrameOfEncoded(sender: bv8, receiver: bv8, variable: bv8, value: bv8, rest: seq<bv8>)
    requires ValidSender(sender) && ValidReceiver(receiver)
    ensures var f := EncodeFrame(sender, receiver, variable, value);
            ReadFrame(f + rest) == ReadOutcome(VX_MSG_LENGTH, Some(f)) && ChecksumValid(f)
  {
    var f := EncodeFrame(sender, receiver, variable, value);
    assert (f + rest)[..VX_MSG_LENGTH] == f;
  }

  /** Changing any one of the first five bytes of a valid frame makes its checksum fail. */
  lemma CorruptedByteIsRejected(f: Frame, i: nat, b: bv8)
    requires |f| == VX_MSG_LENGTH && ChecksumValid(f)
    requires i < 5 && b != f[i]
    ensures !ChecksumValid(f[i := b])
  {
    var head := f[..5];
    Sum8DetectsSingleByteChange(head, i, b);
    assert f[i := b][..5] == head[i := b];
    assert Checksum(f) == Sum8(head);
  }

  /** list.index: the first position of `x` in `s`, or None when `x` does not occur. */
  function IndexOf<T(==)>(s: seq<T>, x: T): (r: Option<nat>)
    ensures r.Some? ==> r.value < |s| && s[r.value] == x
    ensures r.Some? ==> forall j :: 0 <= j < r.value ==> s[j] != x
    ensures r.None? <==> x !in s
  {
    if s == [] then None
    else if s[0] == x then Some(0)
    else match IndexOf(s[1..], x)
      case None => None
      case Some(k) => Some(k + 1)
  }

  /** _fan_speed_to_hex: the bus code of a speed 1..8, and the speed-1 code for any other number. */
  function FanSpeedToHex(fan: int): (r: bv8)
    ensures r in VX_FAN_SPEEDS
    ensures !(VX_MIN_FAN_SPEED <= fan <= VX_MAX_FAN_SPEED) ==> r == VX_FAN_SPEED_1
  {
    if 1 <= fan <= 8 then VX_FAN_SPEEDS[fan - 1] else VX_FAN_SPEED_1
  }

  /** _hex_to_fan_speed: the speed whose code is `hex`, or NOT_SET for a byte that is no fan speed code. */
  function HexToFanSpeed(hex: bv8): (r: int)
    ensures r == NOT_SET <==> hex !in VX_FAN_SPEEDS
    ensures r != NOT_SET ==> VX_MIN_FAN_SPEED <= r <= VX_MAX_FAN_SPEED && VX_FAN_SPEEDS[r - 1] == hex
  {
    match IndexOf(VX_FAN_SPEEDS, hex)
    case Some(i) => i + 1
    case None => NOT_SET
  }

  /** _ntc_to_cel: the table temperature of an NTC byte, NOT_SET outside the table. */
  function NtcToCel(ntc: int): (r: int)
    ensures 0 <= ntc < VX_TEMPS_LENGTH ==> -74 <= r <= 100
    ensures !(0 <= ntc < VX_TEMPS_LENGTH) ==> r == NOT_SET
  {
    TempsWithinRange();
    if 0 <= ntc < VX_TEMPS_LENGTH then VxTemps(ntc) else NOT_SET
  }

  /** Some entry of the NTC table is `cel`. */
  predicate InTemps(cel: int)
  {
    exists ntc :: 0 <= ntc < VX_TEMPS_LENGTH && VxTemps(ntc) == cel
  }

  /**
   * _cel_to_ntc: VX_TEMPS.index(cel), the least NTC byte the table maps to `cel`; 0x83
   * (10 degrees) when no byte does.
   */
  function CelToNtc(cel: int): (r: nat)
    ensures r < VX_TEMPS_LENGTH
    ensures InTemps(cel) ==> VxTemps(r) == cel && forall j :: 0 <= j < r ==> VxTemps(j) != cel
    ensures !InTemps(cel) ==> r == 0x83
  {
    var temps := TempsList();
    assert InTemps(cel) <==> cel in temps by {
      if InTemps(cel) {
        var ntc :| 0 <= ntc < VX_TEMPS_LENGTH && VxTemps(ntc) == cel;
        assert temps[ntc] == cel;
      }
      if cel in temps {
        var ntc :| 0 <= ntc < |temps| && temps[ntc] == cel;
        assert VxTemps(ntc) == cel;
      }
    }
    match IndexOf(temps, cel)
    case Some(i) => i
    case None => 0x83
  }

  /**
   * _hex_to_rh: NOT_SET below 51 (no sensor), otherwise the relative humidity in percent,
   * (hex - 51) / 2.04 truncated.
   */
  function HexToRh(hex: bv8): (r: int)
    ensures hex < 51 <==> r == NOT_SET
    ensures hex >= 51 ==> 0 <= r <= 100
  {
    if hex >= 51 then ((hex as int - 51) * 100) / 204 else NOT_SET
  }

  /** Every fan speed 1..8 survives the trip to its bus code and back. */
  lemma FanSpeedRoundTrip(speed: int)
    requires VX_MIN_FAN_SPEED <= speed <= VX_MAX_FAN_SPEED
    ensures HexToFanSpeed(FanSpeedToHex(speed)) == speed
  {
    FanSpeedsTableWellFormed();
  }

  /** Every heating target 10..27 written through _cel_to_ntc reads back as the same temperature. */
  lemma HeatingTargetRoundTrip(cel: int)
    requires 10 <= cel <= 27
    ensures NtcToCel(CelToNtc(cel)) == cel
  {
    var index: nat :=
      match cel
      case 10 => 0x83 case 11 => 0x86 case 12 => 0x89 case 13 => 0x8c case 14 => 0x8f
      case 15 => 0x92 case 16 => 0x95 case 17 => 0x98 case 18 => 0x9a case 19 => 0x9d
      case 20 => 0xa0 case 21 => 0xa2 case 22 => 0xa5 case 23 => 0xa8 case 24 => 0xaa
      case 25 => 0xad case 26 => 0xaf case _ => 0xb1;
    assert VxTemps(index) == cel;
  }

  /**
   * Reading a byte's temperature and looking it up again gives the least byte with the
   * same temperature, and every byte in between reads the same.
   */
  lemma NtcLookupGivesLeastDuplicate(ntc: nat)
    requires ntc < VX_TEMPS_LENGTH
    ensures CelToNtc(NtcToCel(ntc)) <= ntc
    ensures NtcToCel(CelToNtc(NtcToCel(ntc))) == NtcToCel(ntc)
    ensures forall j :: CelToNtc(NtcToCel(ntc)) <= j <= ntc ==> VxTemps(j) == VxTemps(ntc)
  {
    var c := VxTemps(ntc);
    assert InTemps(c);
    var k := CelToNtc(c);
    forall j | k <= j <= ntc
      ensures VxTemps(j) == c
    {
      TempsMonotone(k, j);
      TempsMonotone(j, ntc);
    }
  }
}
