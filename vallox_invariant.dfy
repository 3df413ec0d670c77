/**
 * Every operation of the panel keeps ValloxModel.Inv. The most visible consequence is that
 * the temperature, humidity and CO2 entries are never stamped. _is_temperature_init_done
 * therefore never holds, and the rh1, rh2 and co2 getters always answer NOT_SET, whatever
 * frames arrive.
 */
module ValloxInvariant {
  import opened ValloxProtocol
  import opened ValloxCodec
  import opened ValloxModel
  import opened ValloxProperties

  /** Every frame of `fs` is six bytes with a valid checksum. */
  predicate FramesValid(fs: seq<Frame>)
  {
    forall i :: 0 <= i < |fs| ==> |fs[i]| == VX_MSG_LENGTH && ChecksumValid(fs[i])
  }

  /** Inv without its part about written frames. */
  predicate DataInv(s: State)
  {
    && HasAllFields(s)
    && s.data[OutsideTemp].lastReceived == 0 && s.data[InsideTemp].lastReceived == 0
    && s.data[ExhaustTemp].lastReceived == 0 && s.data[IncomingTemp].lastReceived == 0
    && s.data[Rh1].lastReceived == 0 && s.data[Rh2].lastReceived == 0
    && s.data[Co2].lastReceived == 0
    && ByteValued(s.data[Status].value) && ByteValued(s.data[Variable08].value)
    && ByteValued(s.data[Flags06].value)
  }

  /** Inv is the data part and the frame part together. */
  lemma InvParts(s: State)
    ensures Inv(s) <==> DataInv(s) && FramesValid(s.tx)
  {
  }

  /** Every poll frame is six bytes with a valid checksum. */
  lemma {:induction false} RequestFramesValid(vs: seq<bv8>)
    ensures FramesValid(RequestFrames(vs))
    decreases |vs|
  {
    if vs != [] {
      RequestFramesValid(vs[1..]);
      var fs := RequestFrames(vs);
      assert fs == [RequestFrame(vs[0])] + RequestFrames(vs[1..]);
      forall i | 0 <= i < |fs|
        ensures |fs[i]| == VX_MSG_LENGTH && ChecksumValid(fs[i])
      {
        if i > 0 {
          assert fs[i] == RequestFrames(vs[1..])[i - 1];
        }
      }
    }
  }

  /** Appending valid frames to valid frames gives valid frames. */
  lemma AppendFramesValid(a: seq<Frame>, b: seq<Frame>)
    requires FramesValid(a) && FramesValid(b)
    ensures FramesValid(a + b)
  {
    forall i | 0 <= i < |a + b|
      ensures |(a + b)[i]| == VX_MSG_LENGTH && ChecksumValid((a + b)[i])
    {
      if i >= |a| {
        assert (a + b)[i] == b[i - |a|];
      }
    }
  }

  /**
   * The shared shape of the status and variable-08 frames keeps the data part when its
   * table names no measurement and no raw byte entry.
   */
  lemma FlagByteKeepsDataInv(s: State, table: seq<(Field, bv8)>, byteField: Field, b: bv8, now: int)
    requires DataInv(s) && FlagTable(table) && byteField in {Status, Variable08}
    requires !InTable(OutsideTemp, table) && !InTable(InsideTemp, table)
    requires !InTable(ExhaustTemp, table) && !InTable(IncomingTemp, table)
    requires !InTable(Rh1, table) && !InTable(Rh2, table) && !InTable(Co2, table)
    requires !InTable(Status, table) && !InTable(Variable08, table) && !InTable(Flags06, table)
    ensures DataInv(FlagByte(s, table, byteField, b, now))
  {
    FlagByteKeepsOthers(s, table, byteField, b, now);
    FlagByteStoresByte(s, table, byteField, b, now);
  }

  /** The status table names no measurement and no raw byte entry. */
  lemma StatusTableSparesData()
    ensures !InTable(OutsideTemp, STATUS_FLAGS) && !InTable(InsideTemp, STATUS_FLAGS)
    ensures !InTable(ExhaustTemp, STATUS_FLAGS) && !InTable(IncomingTemp, STATUS_FLAGS)
    ensures !InTable(Rh1, STATUS_FLAGS) && !InTable(Rh2, STATUS_FLAGS) && !InTable(Co2, STATUS_FLAGS)
    ensures !InTable(Status, STATUS_FLAGS) && !InTable(Variable08, STATUS_FLAGS) && !InTable(Flags06, STATUS_FLAGS)
  {
    StatusFlagsTable();
  }

  /** The variable-08 table names no measurement and no raw byte entry. */
  lemma Variable08TableSparesData()
    ensures !InTable(OutsideTemp, VARIABLE08_FLAGS) && !InTable(InsideTemp, VARIABLE08_FLAGS)
    ensures !InTable(ExhaustTemp, VARIABLE08_FLAGS) && !InTable(IncomingTemp, VARIABLE08_FLAGS)
    ensures !InTable(Rh1, VARIABLE08_FLAGS) && !InTable(Rh2, VARIABLE08_FLAGS) && !InTable(Co2, VARIABLE08_FLAGS)
    ensures !InTable(Status, VARIABLE08_FLAGS) && !InTable(Variable08, VARIABLE08_FLAGS)
    ensures !InTable(Flags06, VARIABLE08_FLAGS)
  {
    Variable08FlagsTable();
  }

  /** A settings frame keeps the data part: it stamps a setting, never a measurement. */
  lemma DecodeSettingKeepsDataInv(s: State, f: Field, v: Value, now: int)
    requires DataInv(s) && f in {FanSpeed, DefaultFanSpeed, ServicePeriod, ServiceCounter, HeatingTarget}
    ensures DataInv(DecodeSetting(s, f, v, now))
  {
  }

  /** A status frame keeps the data part: the raw status byte it stores fits a byte. */
  lemma DecodeStatusKeepsDataInv(s: State, b: bv8, now: int)
    requires DataInv(s)
    ensures DataInv(DecodeStatus(s, b, now))
  {
    FlagTablesDistinct();
    StatusTableSparesData();
    FlagByteKeepsDataInv(s, STATUS_FLAGS, Status, b, now);
  }

  /** A variable-08 frame keeps the data part. */
  lemma DecodeVariable08KeepsDataInv(s: State, b: bv8, now: int)
    requires DataInv(s)
    ensures DataInv(DecodeVariable08(s, b, now))
  {
    FlagTablesDistinct();
    Variable08TableSparesData();
    FlagByteKeepsDataInv(s, VARIABLE08_FLAGS, Variable08, b, now);
  }

  /** A flags-06 frame keeps the data part. */
  lemma DecodeFlags06KeepsDataInv(s: State, b: bv8, now: int)
    requires DataInv(s)
    ensures DataInv(DecodeFlags06(s, b, now))
  {
    DecodeFlags06ReadsActiveBit(s, b, now);
  }

  /** A configuration frame keeps the data part: it writes only settings, flags and raw bytes. */
  lemma DecodeConfigurationKeepsDataInv(s: State, variable: bv8, value: bv8, now: int)
    requires DataInv(s)
    ensures DataInv(DecodeConfiguration(s, variable, value, now).state)
  {
    if variable == VX_VARIABLE_FAN_SPEED {
      DecodeSettingKeepsDataInv(s, FanSpeed, Num(HexToFanSpeed(value)), now);
    } else if variable == VX_VARIABLE_DEFAULT_FAN_SPEED {
      DecodeSettingKeepsDataInv(s, DefaultFanSpeed, Num(HexToFanSpeed(value)), now);
    } else if variable == VX_VARIABLE_STATUS {
      DecodeStatusKeepsDataInv(s, value, now);
    } else if variable == VX_VARIABLE_IO_08 {
      DecodeVariable08KeepsDataInv(s, value, now);
    } else if variable == VX_VARIABLE_FLAGS_06 {
      DecodeFlags06KeepsDataInv(s, value, now);
    } else if variable == VX_VARIABLE_SERVICE_PERIOD {
      DecodeSettingKeepsDataInv(s, ServicePeriod, Num(value as int), now);
    } else if variable == VX_VARIABLE_SERVICE_COUNTER {
      DecodeSettingKeepsDataInv(s, ServiceCounter, Num(value as int), now);
    } else if variable == VX_VARIABLE_HEATING_TARGET {
      DecodeSettingKeepsDataInv(s, HeatingTarget, Num(NtcToCel(value as int)), now);
    }
  }

  /** A measurement frame keeps the data part: it stores a value but leaves the stamp alone. */
  lemma DecodeReadingKeepsDataInv(s: State, f: Field, v: Value, now: int)
    requires DataInv(s) && f !in {Status, Variable08, Flags06}
    ensures DataInv(DecodeReading(s, f, v, now))
  {
  }

  /** A CO2 half keeps the data part: the total it may assemble is never stamped. */
  lemma DecodeCo2HalfKeepsDataInv(s: State, half: Field, other: Field, value: bv8, now: int)
    requires DataInv(s) && half in {Co2Hi, Co2Lo} && other in {Co2Hi, Co2Lo} && half != other
    ensures DataInv(DecodeCo2Half(s, half, other, value, now).state)
  {
    var s1 := StoreByte(s, half, value, now);
    assert DataInv(s1);
  }

  /** Any frame keeps the data part: the measurement branches store values but never stamp them. */
  lemma DecodeVariableKeepsDataInv(s: State, variable: bv8, value: bv8, now: int)
    requires DataInv(s)
    ensures DataInv(DecodeVariable(s, variable, value, now).state)
  {
    if variable == VX_VARIABLE_T_OUTSIDE {
      DecodeReadingKeepsDataInv(s, OutsideTemp, Num(NtcToCel(value as int)), now);
    } else if variable == VX_VARIABLE_T_EXHAUST {
      DecodeReadingKeepsDataInv(s, ExhaustTemp, Num(NtcToCel(value as int)), now);
    } else if variable == VX_VARIABLE_T_INSIDE {
      DecodeReadingKeepsDataInv(s, InsideTemp, Num(NtcToCel(value as int)), now);
    } else if variable == VX_VARIABLE_T_INCOMING {
      DecodeReadingKeepsDataInv(s, IncomingTemp, Num(NtcToCel(value as int)), now);
    } else if variable == VX_VARIABLE_RH1 {
      DecodeReadingKeepsDataInv(s, Rh1, Num(HexToRh(value)), now);
    } else if variable == VX_VARIABLE_RH2 {
    } else if variable == VX_VARIABLE_CO2_HI {
      DecodeCo2HalfKeepsDataInv(s, Co2Hi, Co2Lo, value, now);
    } else if variable == VX_VARIABLE_CO2_LO {
      DecodeCo2HalfKeepsDataInv(s, Co2Lo, Co2Hi, value, now);
    } else {
      DecodeConfigurationKeepsDataInv(s, variable, value, now);
    }
  }

  /** _decode_message keeps Inv, whether the frame is dropped, decoded, or raises. */
  lemma DecodeMessageKeepsInv(s: State, m: Frame, now: int)
    requires Inv(s) && |m| == VX_MSG_LENGTH
    ensures Inv(DecodeMessage(s, m, now).state)
  {
    InvParts(s);
    if ChecksumValid(m) {
      DecodeVariableKeepsDataInv(s, m[3], m[4], now);
    }
    InvParts(DecodeMessage(s, m, now).state);
  }

  /** Draining the input keeps Inv. */
  lemma {:induction false} DrainKeepsInv(s: State, now: int)
    requires Inv(s)
    ensures Inv(Drain(s, now).state)
    decreases |s.rx|
  {
    var (s1, msg) := ReadMessage(s);
    if msg.Some? {
      DecodeMessageKeepsInv(s1, msg.value, now);
      var d := DecodeMessage(s1, msg.value, now);
      if !d.raised {
        DrainKeepsInv(d.state, now);
      }
    }
  }

  /** The retry pass keeps Inv: it only appends poll frames. */
  lemma RetryLoopKeepsInv(s: State, now: int)
    requires Inv(s)
    ensures Inv(RetryLoop(s, now))
  {
    RetryLoopPollsExactlyMissing(s, now);
    var vs := MissingVariables(s.data, RETRY_TABLE);
    RequestFramesValid(vs);
    InvParts(s);
    AppendFramesValid(s.tx, if s.portOpen then RequestFrames(vs) else []);
    InvParts(RetryLoop(s, now));
  }

  /** A poll keeps Inv: its frame has a valid checksum. */
  lemma PollKeepsInv(s: State, variable: bv8)
    requires Inv(s)
    ensures Inv(RequestVariable(s, variable))
  {
    InvParts(s);
    AppendFramesValid(s.tx, if s.portOpen then [RequestFrame(variable)] else []);
    InvParts(RequestVariable(s, variable));
  }

  /** The timers keep Inv: they only append poll frames and move the guard and the timestamps. */
  lemma TimersKeepInv(s: State, now: int)
    requires Inv(s)
    ensures Inv(Timers(s, now))
  {
    var t := s.(lastRequested := now);
    var s1 := if now - s.lastRequested > QUERY_INTERVAL * 1000 then
                if StatusInitDone(t) then
                  RequestVariable(RequestVariable(t, VX_VARIABLE_IO_08), VX_VARIABLE_SERVICE_COUNTER)
                else t
              else s;
    PollKeepsInv(t, VX_VARIABLE_IO_08);
    PollKeepsInv(RequestVariable(t, VX_VARIABLE_IO_08), VX_VARIABLE_SERVICE_COUNTER);
    if now - s1.lastRetryLoop > RETRY_INTERVAL * 1000 {
      RetryLoopKeepsInv(s1, now);
    }
  }

  /**
   * One call of `loop` keeps Inv. So, from the initial state, the temperatures are never all
   * received and the rh1, rh2 and co2 getters answer NOT_SET after any number of calls.
   */
  lemma LoopKeepsInv(s: State, now: int)
    requires Inv(s)
    ensures var r := Loop(s, now).state;
      && Inv(r) && !TemperatureInitDone(r)
      && SensorReading(r, Rh1) == NOT_SET && SensorReading(r, Rh2) == NOT_SET && SensorReading(r, Co2) == NOT_SET
  {
    DrainKeepsInv(s, now);
    var d := Drain(s, now);
    if !d.raised {
      TimersKeepInv(d.state, now);
    }
  }

  /** connect keeps Inv: it appends the configuration poll frames and leaves every entry alone. */
  lemma ConnectKeepsInv(s: State, success: bool, now: int)
    requires Inv(s)
    ensures Inv(Connect(s, success, now).0)
  {
    if success {
      var t := s.(portOpen := true, fullInitDone := false);
      RequestConfigAsksForConfiguration(t, now);
      RequestFramesValid(CONFIG_VARIABLES);
      InvParts(s);
      AppendFramesValid(s.tx, RequestFrames(CONFIG_VARIABLES));
      InvParts(Connect(s, success, now).0);
    }
  }

  /** A setter's write, with or without its optimistic update, keeps Inv. */
  lemma WriteKeepsInv(s: State, variable: bv8, value: bv8, target: bv8)
    requires Inv(s)
    ensures Inv(SetVariable(s, variable, value, target))
  {
    InvParts(s);
    AppendFramesValid(s.tx, if s.portOpen then SetFrames(variable, value, target) else []);
    InvParts(SetVariable(s, variable, value, target));
  }

  /** The fan_speed and default_fan_speed setters keep Inv for every argument, in range or not. */
  lemma FanSpeedSettersKeepInv(s: State, x: int)
    requires Inv(s)
    ensures Inv(SetFanSpeed(s, x)) && Inv(SetDefaultFanSpeed(s, x))
  {
    if x <= VX_MAX_FAN_SPEED {
      WriteKeepsInv(s, VX_VARIABLE_FAN_SPEED, FanSpeedToHex(x), VX_MSG_MAINBOARDS);
      WriteKeepsInv(s, VX_VARIABLE_DEFAULT_FAN_SPEED, FanSpeedToHex(x), VX_MSG_MAINBOARDS);
    }
  }

  /** The service_period and service_counter setters keep Inv for every argument. */
  lemma ServiceSettersKeepInv(s: State, x: int)
    requires Inv(s)
    ensures Inv(SetServicePeriod(s, x)) && Inv(SetServiceCounter(s, x))
  {
    if 0 <= x < 256 {
      WriteKeepsInv(s, VX_VARIABLE_SERVICE_PERIOD, x as bv8, VX_MSG_MAINBOARDS);
      WriteKeepsInv(s, VX_VARIABLE_SERVICE_COUNTER, x as bv8, VX_MSG_MAINBOARDS);
    }
  }

  /** The heating_target setter keeps Inv for every argument. */
  lemma HeatingTargetSetterKeepsInv(s: State, x: int)
    requires Inv(s)
    ensures Inv(SetHeatingTarget(s, x))
  {
    if 10 <= x <= 27 {
      WriteKeepsInv(s, VX_VARIABLE_HEATING_TARGET, CelToNtc(x) as bv8, VX_MSG_MAINBOARDS);
    }
  }

  /** A status action keeps Inv: it stores a flag, never the raw status byte. */
  lemma StatusActionKeepsInv(s: State, f: Field, status: bv8, on: bool, now: int)
    requires Inv(s) && f in {IsOn, IsRhMode, IsHeatingMode}
    ensures Inv(StatusAction(s, f, status, on, now))
  {
    if !s.statusMutex {
      WriteKeepsInv(s.(statusMutex := true), VX_VARIABLE_STATUS, status, VX_MSG_MAINBOARD_1);
    }
  }

  /** set_on, set_off and the RH-mode actions keep Inv, whether they write, are dropped, or raise. */
  lemma PowerAndRhActionsKeepInv(s: State, now: int)
    requires Inv(s)
    ensures Inv(SetOn(s, now).state) && Inv(SetOff(s, now).state)
    ensures Inv(SetRhModeOn(s, now).state) && Inv(SetRhModeOff(s, now).state)
  {
    if StatusKnown(s) {
      var b := StatusByte(s);
      StatusActionKeepsInv(s, IsOn, WithBits(b, VX_STATUS_FLAG_POWER, true), true, now);
      StatusActionKeepsInv(s, IsOn, WithBits(b, VX_STATUS_FLAG_POWER, false), false, now);
      StatusActionKeepsInv(s, IsRhMode, WithBits(b, VX_STATUS_FLAG_RH, true), true, now);
      StatusActionKeepsInv(s, IsRhMode, WithBits(b, VX_STATUS_FLAG_RH, false), false, now);
    }
  }

  /** The heating-mode actions keep Inv, whether they write, only report, or raise. */
  lemma HeatingModeActionsKeepInv(s: State, now: int)
    requires Inv(s)
    ensures Inv(SetHeatingModeOn(s, now).state) && Inv(SetHeatingModeOff(s, now).state)
  {
    if StatusKnown(s) {
      var b := StatusByte(s);
      StatusActionKeepsInv(s, IsHeatingMode, WithBits(b, VX_STATUS_FLAG_HEATING_MODE, true), true, now);
      StatusActionKeepsInv(s, IsHeatingMode, WithBits(b, VX_STATUS_FLAG_HEATING_MODE, false), false, now);
    }
  }

  /** set_switch_on keeps Inv: it only writes, or raises. */
  lemma SwitchOnKeepsInv(s: State)
    requires Inv(s)
    ensures Inv(SetSwitchOn(s).state)
  {
    if Flags06Known(s) {
      WriteKeepsInv(s, VX_VARIABLE_FLAGS_06,
                    WithBits(s.data[Flags06].value.n as bv8, VX_06_FIREPLACE_FLAG_ACTIVATE, true), VX_MSG_MAINBOARDS);
    }
  }
}
