/**
 * class Vallox of vallox.py as a Dafny class: the fields the Python object updates in place,
 * and a method per operation that updates them step by step as the source does. Every
 * method is proved to leave the object in the state the matching function of ValloxModel
 * computes from the state before, so what is proved there holds of the object.
 */
module ValloxDevice {
  import opened Wrappers
  import opened ValloxProtocol
  import opened ValloxCodec
  import opened ValloxModel

  class Vallox {
    var data: map<Field, Observed>
    var updated: int
    var boostSetting: Observed
    var program: Observed
    var fullInitDone: bool
    var statusMutex: bool
    var lastRequested: int
    var lastRetryLoop: int
    var portOpen: bool
    var rx: seq<bv8>
    var tx: seq<Frame>
    var events: seq<Event>

    /** The object's fields as a ValloxModel state. */
    function Model(): State
      reads this
    {
      State(data, updated, boostSetting, program, fullInitDone, statusMutex,
            lastRequested, lastRetryLoop, portOpen, rx, tx, events)
    }

    /** Vallox.__init__: every entry unset and never received, nothing pending, port not open. */
    constructor()
      ensures Model() == Initial()
    {
      AllFieldsComplete();
      data := map f: Field | f in AllFields() :: NEVER_RECEIVED;
      updated := 0;
      boostSetting := NEVER_RECEIVED;
      program := NEVER_RECEIVED;
      fullInitDone := false;
      statusMutex := false;
      lastRequested := 0;
      lastRetryLoop := 0;
      portOpen := false;
      rx := [];
      tx := [];
      events := [];
    }

    /** _check_status_change. */
    method CheckStatusChange(f: Field, v: Value, now: int)
      requires f in data
      modifies this
      ensures Model() == ValloxModel.CheckStatusChange(old(Model()), f, v, now)
    {
      if data[f].value != v {
        data := data[f := data[f].(value := v)];
        updated := now;
        if fullInitDone {
          events := events + [PropertyChanged(f, v)];
          events := events + [StatusChanged(DataKey(f))];
        }
      }
    }

    /** `self.data[f].last_received = now`. */
    method StampEntry(f: Field, now: int)
      requires f in data
      modifies this
      ensures Model() == Stamp(old(Model()), f, now)
    {
      data := data[f := data[f].(lastReceived := now)];
    }

    /** _set_variable: on an open port, write the frame to `target` and then its copy to the panels. */
    method SetVariable(variable: bv8, value: bv8, target: bv8)
      modifies this
      ensures Model() == ValloxModel.SetVariable(old(Model()), variable, value, target)
    {
      if !portOpen {
        return;
      }
      var first, second := PatchFrames(variable, value, target);
      tx := tx + [first, second];
    }

    /** The bytearray of _set_variable: filled and checksummed, then patched in place into the copy to the panels. */
    static method PatchFrames(variable: bv8, value: bv8, target: bv8) returns (first: Frame, second: Frame)
      ensures [first, second] == SetFrames(variable, value, target)
    {
      var message := new bv8[VX_MSG_LENGTH];
      message[0], message[1], message[2] := VX_MSG_DOMAIN, VX_MSG_THIS_PANEL, target;
      message[3], message[4], message[5] := variable, value, 0;
      message[5] := Checksum(message[..]);
      first := message[..];
      ValidFrameIsEncoded(first);
      message[1] := VX_MSG_MAINBOARD_1;
      message[2] := VX_MSG_PANELS;
      message[5] := Checksum(message[..]);
      second := message[..];
      ValidFrameIsEncoded(second);
    }

    /** _request_variable: on an open port, write one poll frame for `variable`. */
    method RequestVariable(variable: bv8)
      modifies this
      ensures Model() == ValloxModel.RequestVariable(old(Model()), variable)
    {
      if !portOpen {
        return;
      }
      var message := PollFrame(variable);
      tx := tx + [message];
    }

    /** The bytearray of _request_variable, filled and checksummed. */
    static method PollFrame(variable: bv8) returns (frame: Frame)
      ensures frame == RequestFrame(variable)
    {
      var message := new bv8[VX_MSG_LENGTH];
      message[0], message[1], message[2] := VX_MSG_DOMAIN, VX_MSG_THIS_PANEL, VX_MSG_MAINBOARD_1;
      message[3], message[4], message[5] := VX_MSG_POLL_BYTE, variable, 0;
      message[5] := Checksum(message[..]);
      frame := message[..];
      ValidFrameIsEncoded(frame);
    }

    /** _set_status_variable: the write guard around a write to the first mainboard. */
    method SetStatusVariable(variable: bv8, value: bv8, now: int) returns (sent: bool)
      modifies this
      ensures (Model(), sent) == ValloxModel.SetStatusVariable(old(Model()), variable, value, now)
    {
      if !statusMutex {
        statusMutex := true;
        SetVariable(variable, value, VX_MSG_MAINBOARD_1);
        lastRetryLoop := now;
        return true;
      }
      return false;
    }

    /** request_config: the ten _send_*_req calls in order, then stamp `updated` and `last_requested`. */
    method RequestConfig(now: int)
      modifies this
      ensures Model() == ValloxModel.RequestConfig(old(Model()), now)
    {
      RequestVariable(VX_VARIABLE_STATUS);
      RequestVariable(VX_VARIABLE_IO_08);
      RequestVariable(VX_VARIABLE_FAN_SPEED);
      RequestVariable(VX_VARIABLE_DEFAULT_FAN_SPEED);
      RequestVariable(VX_VARIABLE_RH1);
      RequestVariable(VX_VARIABLE_SERVICE_PERIOD);
      RequestVariable(VX_VARIABLE_SERVICE_COUNTER);
      RequestVariable(VX_VARIABLE_HEATING_TARGET);
      RequestVariable(VX_VARIABLE_FLAGS_06);
      RequestVariable(VX_VARIABLE_PROGRAM);
      updated := now;
      lastRequested := now;
    }

    /** One `if not self.data[f].last_received: _send_..._req()` of _send_missing_requests. */
    method RequestIfMissing(f: Field, variable: bv8)
      requires f in data
      modifies this
      ensures Model() == ValloxModel.RequestIfMissing(old(Model()), f, variable)
    {
      if data[f].lastReceived == 0 {
        RequestVariable(variable);
      }
    }

    /** _send_missing_requests: one _send_*_req for each tracked entry never received, in order. */
    method SendMissingRequests()
      requires HasAllFields(Model())
      modifies this
      ensures Model() == ValloxModel.SendMissingRequests(old(Model()))
    {
      RequestIfMissing(IsOn, VX_VARIABLE_STATUS);
      RequestIfMissing(Variable08, VX_VARIABLE_IO_08);
      RequestIfMissing(FanSpeed, VX_VARIABLE_FAN_SPEED);
      RequestIfMissing(DefaultFanSpeed, VX_VARIABLE_DEFAULT_FAN_SPEED);
      RequestIfMissing(ServicePeriod, VX_VARIABLE_SERVICE_PERIOD);
      RequestIfMissing(ServiceCounter, VX_VARIABLE_SERVICE_COUNTER);
      RequestIfMissing(HeatingTarget, VX_VARIABLE_HEATING_TARGET);
    }

    /** _retry_loop: request what is missing, release the write guard, stamp the retry time. */
    method RetryLoop(now: int)
      requires HasAllFields(Model())
      modifies this
      ensures Model() == ValloxModel.RetryLoop(old(Model()), now)
    {
      SendMissingRequests();
      statusMutex := false;
      lastRetryLoop := now;
    }
    /** `self.data[f].value = b; self.data[f].last_received = now` for a raw byte entry. */
    method StoreByte(f: Field, b: bv8, now: int)
      requires f in data
      modifies this
      ensures Model() == ValloxModel.StoreByte(old(Model()), f, b, now)
    {
      data := data[f := data[f].(value := Num(b as int))];
      data := data[f := data[f].(lastReceived := now)];
    }

    /** _read_message: the header byte, then sender and receiver, then the rest of the frame, each consumed from the input buffer. */
    method ReadMessage() returns (message: Option<Frame>)
      modifies this
      ensures (Model(), message) == ValloxModel.ReadMessage(old(Model()))
    {
      if !portOpen || |rx| < VX_MSG_LENGTH {
        return None;
      }
      ghost var waiting := rx;
      var firstByte := rx[0];
      rx := rx[1..];
      if firstByte != VX_MSG_DOMAIN {
        return None;
      }
      var sender, receiver := rx[0], rx[1];
      rx := rx[2..];
      assert rx == waiting[3..];
      if !(ValidSender(sender) && ValidReceiver(receiver)) {
        return None;
      }
      var rest := rx[..VX_MSG_LENGTH - 3];
      rx := rx[VX_MSG_LENGTH - 3..];
      assert rx == waiting[VX_MSG_LENGTH..];
      message := Some([firstByte, sender, receiver] + rest);
      assert message.value == waiting[..VX_MSG_LENGTH];
    }

    /** The seven `last_received = now` lines of _decode_status. */
    method StampStatusFlags(now: int)
      requires HasAllFields(Model())
      modifies this
      ensures Model() == StampFlags(old(Model()), STATUS_FLAGS, now)
    {
      StampStatusFlagsUnrolled(Model(), now);
      StampEntry(IsOn, now);
      StampEntry(IsRhMode, now);
      StampEntry(IsHeatingMode, now);
      StampEntry(IsFilter, now);
      StampEntry(IsHeating, now);
      StampEntry(IsFault, now);
      StampEntry(IsServiceNeeded, now);
    }

    /** The seven _check_status_change lines of _decode_status. */
    method CheckStatusFlags(status: bv8, now: int)
      requires HasAllFields(Model()) && FlagTable(STATUS_FLAGS)
      modifies this
      ensures Model() == CheckFlags(old(Model()), STATUS_FLAGS, status, now)
    {
      CheckStatusFlagsUnrolled(Model(), status, now);
      CheckStatusChange(IsOn, Flag(HasFlag(status, VX_STATUS_FLAG_POWER)), now);
      CheckStatusChange(IsRhMode, Flag(HasFlag(status, VX_STATUS_FLAG_RH)), now);
      CheckStatusChange(IsHeatingMode, Flag(HasFlag(status, VX_STATUS_FLAG_HEATING_MODE)), now);
      CheckStatusChange(IsFilter, Flag(HasFlag(status, VX_STATUS_FLAG_FILTER)), now);
      CheckStatusChange(IsHeating, Flag(HasFlag(status, VX_STATUS_FLAG_HEATING)), now);
      CheckStatusChange(IsFault, Flag(HasFlag(status, VX_STATUS_FLAG_FAULT)), now);
      CheckStatusChange(IsServiceNeeded, Flag(HasFlag(status, VX_STATUS_FLAG_SERVICE)), now);
    }

    /** _decode_status: stamp the seven flags and the raw byte, check each flag against its bit, release the write guard. */
    method DecodeStatus(status: bv8, now: int)
      requires HasAllFields(Model())
      modifies this
      ensures Model() == ValloxModel.DecodeStatus(old(Model()), status, now)
    {
      FlagTablesDistinct();
      StampStatusFlags(now);
      StoreByte(Status, status, now);
      CheckStatusFlags(status, now);
      statusMutex := false;
    }

    /** The six `last_received = now` lines of _decode_variable08. */
    method StampVariable08Flags(now: int)
      requires HasAllFields(Model())
      modifies this
      ensures Model() == StampFlags(old(Model()), VARIABLE08_FLAGS, now)
    {
      StampVariable08FlagsUnrolled(Model(), now);
      StampEntry(IsSummerMode, now);
      StampEntry(IsErrorRelay, now);
      StampEntry(IsMotorIn, now);
      StampEntry(IsFrontHeating, now);
      StampEntry(IsMotorOut, now);
      StampEntry(IsExtraFunc, now);
    }

    /** The six _check_status_change lines of _decode_variable08. */
    method CheckVariable08Flags(variable08: bv8, now: int)
      requires HasAllFields(Model()) && FlagTable(VARIABLE08_FLAGS)
      modifies this
      ensures Model() == CheckFlags(old(Model()), VARIABLE08_FLAGS, variable08, now)
    {
      CheckVariable08FlagsUnrolled(Model(), variable08, now);
      CheckStatusChange(IsSummerMode, Flag(HasFlag(variable08, VX_08_FLAG_SUMMER_MODE)), now);
      CheckStatusChange(IsErrorRelay, Flag(HasFlag(variable08, VX_08_FLAG_ERROR_RELAY)), now);
      CheckStatusChange(IsMotorIn, Flag(HasFlag(variable08, VX_08_FLAG_MOTOR_IN)), now);
      CheckStatusChange(IsFrontHeating, Flag(HasFlag(variable08, VX_08_FLAG_FRONT_HEATING)), now);
      CheckStatusChange(IsMotorOut, Flag(HasFlag(variable08, VX_08_FLAG_MOTOR_OUT)), now);
      CheckStatusChange(IsExtraFunc, Flag(HasFlag(variable08, VX_08_FLAG_EXTRA_FUNC)), now);
    }

    /** _decode_variable08: stamp the six flags and the raw byte, check each flag against its bit. */
    method DecodeVariable08(variable08: bv8, now: int)
      requires HasAllFields(Model())
      modifies this
      ensures Model() == ValloxModel.DecodeVariable08(old(Model()), variable08, now)
    {
      FlagTablesDistinct();
      StampVariable08Flags(now);
      StoreByte(Variable08, variable08, now);
      CheckVariable08Flags(variable08, now);
    }

    /** _decode_flags06: stamp the switch flag and the raw byte, check the "switch active" bit. */
    method DecodeFlags06(flags06: bv8, now: int)
      requires HasAllFields(Model())
      modifies this
      ensures Model() == ValloxModel.DecodeFlags06(old(Model()), flags06, now)
    {
      StampEntry(IsSwitchActive, now);
      StoreByte(Flags06, flags06, now);
      CheckStatusChange(IsSwitchActive, Flag(HasFlag(flags06, VX_06_FIREPLACE_FLAG_IS_ACTIVE)), now);
    }

    /** _decode_program: store the program byte and the switch type, and report the switch type when it changed or was never received. */
    method DecodeProgram(programByte: bv8, now: int)
      modifies this
      ensures Model() == ValloxModel.DecodeProgram(old(Model()), programByte, now)
    {
      var shouldInform := boostSetting.lastReceived == 0;
      boostSetting := boostSetting.(lastReceived := now);
      program := Observed(Num(programByte as int), now);
      var oldValue := boostSetting.value;
      var newValue := Flag(HasFlag(programByte, VX_PROGRAM_SWITCH_TYPE));
      if oldValue != newValue {
        boostSetting := boostSetting.(value := newValue);
        events := events + [StatusChanged(IsBoostSetting)];
      } else if shouldInform {
        events := events + [StatusChanged(IsBoostSetting)];
      }
    }

    /** _handle_co2_total_value: `lo + (hi << 8)`, which raises TypeError when a half was never received. */
    method HandleCo2TotalValue(hi: Value, lo: Value, now: int) returns (raised: bool)
      requires HasAllFields(Model())
      modifies this
      ensures Outcome(Model(), raised) == ValloxModel.HandleCo2TotalValue(old(Model()), hi, lo, now)
    {
      if !(hi.Num? && lo.Num?) {
        return true;
      }
      CheckStatusChange(Co2, Num(lo.n + hi.n * 256), now);
      return false;
    }

    /** One CO2 branch of _decode_message: stamp and store the half, then assemble the total when the other half is recent. */
    method DecodeCo2Half(half: Field, other: Field, value: bv8, now: int) returns (raised: bool)
      requires HasAllFields(Model()) && half in {Co2Hi, Co2Lo} && other in {Co2Hi, Co2Lo} && half != other
      modifies this
      ensures Outcome(Model(), raised) == ValloxModel.DecodeCo2Half(old(Model()), half, other, value, now)
    {
      ghost var s0 := Model();
      StampEntry(half, now);
      data := data[half := data[half].(value := Num(value as int))];
      assert Model() == ValloxModel.StoreByte(s0, half, value, now);
      raised := false;
      if now - data[other].lastReceived < CO2_LIFE_TIME_MS {
        raised := HandleCo2TotalValue(data[Co2Hi].value, data[Co2Lo].value, now);
      }
    }

    /** The elif chain of _decode_message on the variable byte, measurements first; `raised` is the TypeError of the RH2 and CO2 branches. */
    method DecodeVariable(variable: bv8, value: bv8, now: int) returns (raised: bool)
      requires HasAllFields(Model())
      modifies this
      ensures Outcome(Model(), raised) == ValloxModel.DecodeVariable(old(Model()), variable, value, now)
    {
      raised := false;
      if variable == VX_VARIABLE_T_OUTSIDE {
        CheckStatusChange(OutsideTemp, Num(NtcToCel(value as int)), now);
      } else if variable == VX_VARIABLE_T_EXHAUST {
        CheckStatusChange(ExhaustTemp, Num(NtcToCel(value as int)), now);
      } else if variable == VX_VARIABLE_T_INSIDE {
        CheckStatusChange(InsideTemp, Num(NtcToCel(value as int)), now);
      } else if variable == VX_VARIABLE_T_INCOMING {
        CheckStatusChange(IncomingTemp, Num(NtcToCel(value as int)), now);
      } else if variable == VX_VARIABLE_RH1 {
        CheckStatusChange(Rh1, Num(HexToRh(value)), now);
      } else if variable == VX_VARIABLE_RH2 {
        // _check_status_change is called with one argument too many
        raised := true;
      } else if variable == VX_VARIABLE_CO2_HI {
        raised := DecodeCo2Half(Co2Hi, Co2Lo, value, now);
      } else if variable == VX_VARIABLE_CO2_LO {
        raised := DecodeCo2Half(Co2Lo, Co2Hi, value, now);
      } else {
        raised := DecodeConfiguration(variable, value, now);
      }
    }

    /** The configuration branches of the elif chain of _decode_message; a variable it does not name is ignored. */
    method DecodeConfiguration(variable: bv8, value: bv8, now: int) returns (raised: bool)
      requires HasAllFields(Model())
      modifies this
      ensures Outcome(Model(), raised) == ValloxModel.DecodeConfiguration(old(Model()), variable, value, now)
    {
      raised := false;
      if variable == VX_VARIABLE_FAN_SPEED {
        StampEntry(FanSpeed, now);
        CheckStatusChange(FanSpeed, Num(HexToFanSpeed(value)), now);
      } else if variable == VX_VARIABLE_DEFAULT_FAN_SPEED {
        StampEntry(DefaultFanSpeed, now);
        CheckStatusChange(DefaultFanSpeed, Num(HexToFanSpeed(value)), now);
      } else if variable == VX_VARIABLE_STATUS {
        DecodeStatus(value, now);
      } else if variable == VX_VARIABLE_IO_08 {
        DecodeVariable08(value, now);
      } else if variable == VX_VARIABLE_FLAGS_06 {
        DecodeFlags06(value, now);
      } else if variable == VX_VARIABLE_SERVICE_PERIOD {
        StampEntry(ServicePeriod, now);
        CheckStatusChange(ServicePeriod, Num(value as int), now);
      } else if variable == VX_VARIABLE_SERVICE_COUNTER {
        StampEntry(ServiceCounter, now);
        CheckStatusChange(ServiceCounter, Num(value as int), now);
      } else if variable == VX_VARIABLE_HEATING_TARGET {
        StampEntry(HeatingTarget, now);
        CheckStatusChange(HeatingTarget, Num(NtcToCel(value as int)), now);
      } else if variable == VX_VARIABLE_PROGRAM {
        DecodeProgram(value, now);
      }
    }

    /** `for k, _ in self.data.items(): self._call_status_changed(k)`: one notification per key, in order. */
    method ReportAllKeys()
      modifies this
      ensures Model() == old(Model()).(events := old(events) + InitialBurst())
    {
      for i := 0 to |DATA_KEYS|
        invariant Model() == old(Model()).(events := events)
        invariant events == old(events) + InitialBurst()[..i]
      {
        events := events + [StatusChanged(DATA_KEYS[i])];
      }
    }

    /** _decode_message: drop a frame whose checksum fails; dispatch it; the first time the status entries are complete, report every key. */
    method DecodeMessage(message: Frame, now: int) returns (raised: bool)
      requires HasAllFields(Model()) && |message| == VX_MSG_LENGTH
      modifies this
      ensures Outcome(Model(), raised) == ValloxModel.DecodeMessage(old(Model()), message, now)
    {
      if !ChecksumValid(message) {
        return false;
      }
      raised := DecodeVariable(message[3], message[4], now);
      if raised {
        return;
      }
      if !fullInitDone {
        fullInitDone := StatusInitDone(Model());
        if fullInitDone {
          ReportAllKeys();
        }
      }
    }

    /** The `while True` of loop: read and decode frames until a read yields nothing or a decode raises. */
    method Drain(now: int) returns (raised: bool)
      requires HasAllFields(Model())
      modifies this
      ensures Outcome(Model(), raised) == ValloxModel.Drain(old(Model()), now)
    {
      while true
        invariant HasAllFields(Model()) && ValloxModel.Drain(Model(), now) == ValloxModel.Drain(old(Model()), now)
        decreases |rx|
      {
        var message := ReadMessage();
        if message.None? {
          return false;
        }
        raised := DecodeMessage(message.value, now);
        if raised {
          return;
        }
      }
    }

    /** The timers of loop: the five-minute re-query of variable 08 and the service counter, then the five-second retry pass. */
    method Timers(now: int)
      requires HasAllFields(Model())
      modifies this
      ensures Model() == ValloxModel.Timers(old(Model()), now)
    {
      if now - lastRequested > QUERY_INTERVAL * 1000 {
        lastRequested := now;
        if StatusInitDone(Model()) {
          RequestVariable(VX_VARIABLE_IO_08);
          RequestVariable(VX_VARIABLE_SERVICE_COUNTER);
        }
      }
      if now - lastRetryLoop > RETRY_INTERVAL * 1000 {
        RetryLoop(now);
      }
    }

    /** loop: drain the input, then run the timers; a decode that raises ends the call. */
    method Loop(now: int) returns (raised: bool)
      requires HasAllFields(Model())
      modifies this
      ensures Outcome(Model(), raised) == ValloxModel.Loop(old(Model()), now)
    {
      raised := Drain(now);
      if raised {
        return;
      }
      Timers(now);
    }

    /** connect: `success` is whether opening the port succeeded; then clear full_init_done and request the configuration. */
    method Connect(success: bool, now: int) returns (connected: bool)
      modifies this
      ensures (Model(), connected) == ValloxModel.Connect(old(Model()), success, now)
    {
      if !success {
        return false;
      }
      portOpen := true;
      fullInitDone := false;
      assert Model() == old(Model()).(portOpen := true, fullInitDone := false);
      RequestConfig(now);
      connected := true;
    }

    /** disconnect: close the port when it is open. */
    method Disconnect()
      modifies this
      ensures Model() == ValloxModel.Disconnect(old(Model()))
    {
      if portOpen {
        portOpen := false;
      }
    }

    /** A setter's optimistic update: store the value, then call the status-changed callback. */
    method Assign(f: Field, v: Value)
      requires f in data
      modifies this
      ensures Model() == ValloxModel.Assign(old(Model()), f, v)
    {
      data := data[f := data[f].(value := v)];
      events := events + [StatusChanged(DataKey(f))];
    }

    /** The fan_speed setter. */
    method SetFanSpeed(speed: int)
      requires HasAllFields(Model())
      modifies this
      ensures Model() == ValloxModel.SetFanSpeed(old(Model()), speed)
    {
      if speed <= VX_MAX_FAN_SPEED {
        SetVariable(VX_VARIABLE_FAN_SPEED, FanSpeedToHex(speed), VX_MSG_MAINBOARDS);
        Assign(FanSpeed, Num(speed));
      }
    }

    /** The default_fan_speed setter. */
    method SetDefaultFanSpeed(speed: int)
      requires HasAllFields(Model())
      modifies this
      ensures Model() == ValloxModel.SetDefaultFanSpeed(old(Model()), speed)
    {
      if speed <= VX_MAX_FAN_SPEED {
        SetVariable(VX_VARIABLE_DEFAULT_FAN_SPEED, FanSpeedToHex(speed), VX_MSG_MAINBOARDS);
        Assign(DefaultFanSpeed, Num(speed));
      }
    }

    /** The service_period setter. */
    method SetServicePeriod(months: int)
      requires HasAllFields(Model())
      modifies this
      ensures Model() == ValloxModel.SetServicePeriod(old(Model()), months)
    {
      if 0 <= months < 256 {
        SetVariable(VX_VARIABLE_SERVICE_PERIOD, months as bv8, VX_MSG_MAINBOARDS);
        Assign(ServicePeriod, Num(months));
      }
    }

    /** The service_counter setter. */
    method SetServiceCounter(months: int)
      requires HasAllFields(Model())
      modifies this
      ensures Model() == ValloxModel.SetServiceCounter(old(Model()), months)
    {
      if 0 <= months < 256 {
        SetVariable(VX_VARIABLE_SERVICE_COUNTER, months as bv8, VX_MSG_MAINBOARDS);
        Assign(ServiceCounter, Num(months));
      }
    }

    /** The heating_target setter. */
    method SetHeatingTarget(celsius: int)
      requires HasAllFields(Model())
      modifies this
      ensures Model() == ValloxModel.SetHeatingTarget(old(Model()), celsius)
    {
      if 10 <= celsius <= 27 {
        var hexValue := CelToNtc(celsius);
        SetVariable(VX_VARIABLE_HEATING_TARGET, hexValue as bv8, VX_MSG_MAINBOARDS);
        Assign(HeatingTarget, Num(celsius));
      }
    }

    /** The body shared by set_on, set_off, set_rh_mode_on and set_rh_mode_off. */
    method StatusAction(f: Field, status: bv8, on: bool, now: int)
      requires HasAllFields(Model())
      modifies this
      ensures Model() == ValloxModel.StatusAction(old(Model()), f, status, on, now)
    {
      var sent := SetStatusVariable(VX_VARIABLE_STATUS, status, now);
      if sent {
        Assign(f, Flag(on));
      }
    }

    /**
     * The body shared by set_on, set_off, set_rh_mode_on and set_rh_mode_off: `raised` when the
     * status byte is unset, since the new byte is computed before the guard is looked at.
     */
    method SwitchStatusBit(f: Field, mask: bv8, on: bool, now: int) returns (raised: bool)
      requires HasAllFields(Model()) && ByteValued(data[Status].value)
      modifies this
      ensures Outcome(Model(), raised) == ValloxModel.SwitchStatusBit(old(Model()), f, mask, on, now)
    {
      if data[Status].value.Unset? {
        return true;
      }
      ghost var m0 := Model();
      var w := WithBits(data[Status].value.n as bv8, mask, on);
      StatusAction(f, w, on, now);
      assert ValloxModel.SwitchStatusBit(m0, f, mask, on, now) == Outcome(ValloxModel.StatusAction(m0, f, w, on, now), false);
      return false;
    }

    method SetOn(now: int) returns (raised: bool)
      requires HasAllFields(Model()) && ByteValued(data[Status].value)
      modifies this
      ensures Outcome(Model(), raised) == ValloxModel.SetOn(old(Model()), now)
    {
      raised := SwitchStatusBit(IsOn, VX_STATUS_FLAG_POWER, true, now);
    }

    method SetOff(now: int) returns (raised: bool)
      requires HasAllFields(Model()) && ByteValued(data[Status].value)
      modifies this
      ensures Outcome(Model(), raised) == ValloxModel.SetOff(old(Model()), now)
    {
      raised := SwitchStatusBit(IsOn, VX_STATUS_FLAG_POWER, false, now);
    }

    method SetRhModeOn(now: int) returns (raised: bool)
      requires HasAllFields(Model()) && ByteValued(data[Status].value)
      modifies this
      ensures Outcome(Model(), raised) == ValloxModel.SetRhModeOn(old(Model()), now)
    {
      raised := SwitchStatusBit(IsRhMode, VX_STATUS_FLAG_RH, true, now);
    }

    method SetRhModeOff(now: int) returns (raised: bool)
      requires HasAllFields(Model()) && ByteValued(data[Status].value)
      modifies this
      ensures Outcome(Model(), raised) == ValloxModel.SetRhModeOff(old(Model()), now)
    {
      raised := SwitchStatusBit(IsRhMode, VX_STATUS_FLAG_RH, false, now);
    }

    /** set_heating_mode_on: `raised` while the status byte is unset; only report when the bit is already set. */
    method SetHeatingModeOn(now: int) returns (raised: bool)
      requires HasAllFields(Model()) && ByteValued(data[Status].value)
      modifies this
      ensures Outcome(Model(), raised) == ValloxModel.SetHeatingModeOn(old(Model()), now)
    {
      if data[Status].value.Unset? {
        return true;
      }
      var status := data[Status].value.n as bv8;
      if HasFlag(status, VX_STATUS_FLAG_HEATING_MODE) {
        events := events + [StatusChanged(DataKey(IsHeatingMode))];
        raised := false;
      } else {
        raised := SwitchStatusBit(IsHeatingMode, VX_STATUS_FLAG_HEATING_MODE, true, now);
      }
    }

    /** set_heating_mode_off: `raised` while the status byte is unset; only report when the bit is already clear. */
    method SetHeatingModeOff(now: int) returns (raised: bool)
      requires HasAllFields(Model()) && ByteValued(data[Status].value)
      modifies this
      ensures Outcome(Model(), raised) == ValloxModel.SetHeatingModeOff(old(Model()), now)
    {
      if data[Status].value.Unset? {
        return true;
      }
      var status := data[Status].value.n as bv8;
      if !HasFlag(status, VX_STATUS_FLAG_HEATING_MODE) {
        events := events + [StatusChanged(DataKey(IsHeatingMode))];
        raised := false;
      } else {
        raised := SwitchStatusBit(IsHeatingMode, VX_STATUS_FLAG_HEATING_MODE, false, now);
      }
    }

    /** set_switch_on: `raised` while flags06 is unset; otherwise write it with the activate bit, without the guard. */
    method SetSwitchOn() returns (raised: bool)
      requires HasAllFields(Model()) && ByteValued(data[Flags06].value)
      modifies this
      ensures Outcome(Model(), raised) == ValloxModel.SetSwitchOn(old(Model()))
    {
      if data[Flags06].value.Unset? {
        return true;
      }
      SetVariable(VX_VARIABLE_FLAGS_06, (data[Flags06].value.n as bv8) | VX_06_FIREPLACE_FLAG_ACTIVATE, VX_MSG_MAINBOARDS);
      return false;
    }
  }
}
