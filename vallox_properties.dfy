/**
 * What the operations of ValloxModel promise: the effect of each decoded frame, the write
 * guard, the completeness bookkeeping, the retry pass, and the invariant every operation keeps.
 */
module ValloxProperties {
  import opened Wrappers
  import opened Bytes
  import opened ValloxProtocol
  import opened ValloxCodec
  import opened ValloxModel

  // ---------------------------------------------------------------------------------------
  // Change dispatch

  /** Reporting the same value twice changes nothing the second time, whatever the time. */
  lemma CheckStatusChangeIsIdempotent(s: State, f: Field, v: Value, t1: int, t2: int)
    requires f in s.data
    ensures CheckStatusChange(CheckStatusChange(s, f, v, t1), f, v, t2) == CheckStatusChange(s, f, v, t1)
  {
  }

  /** Before full initialisation a value change is stored but never reported. */
  lemma CheckStatusChangeSilentBeforeInit(s: State, f: Field, v: Value, now: int)
    requires f in s.data && !s.fullInitDone
    ensures CheckStatusChange(s, f, v, now).events == s.events
    ensures CheckStatusChange(s, f, v, now).data[f].value == v
  {
  }

  // ---------------------------------------------------------------------------------------
  // Decoding one frame

  /** The status entries that _decode_status writes. */
  predicate StatusGroup(f: Field)
  {
    f in {IsOn, IsRhMode, IsHeatingMode, IsFilter, IsHeating, IsFault, IsServiceNeeded, Status}
  }

  /** After FlagByte, a flag of the table holds its own bit of the byte, stamped now. */
  lemma FlagByteStoresFlag(s: State, table: seq<(Field, bv8)>, byteField: Field, b: bv8, now: int, f: Field)
    requires HasAllFields(s) && FlagTable(table) && !InTable(byteField, table) && InTable(f, table)
    ensures FlagByte(s, table, byteField, b, now).data[f] == Observed(Flag(HasFlag(b, BitOf(f, table))), now)
  {
    StampFlagsEffect(s, table, now, f);
    CheckFlagsEffect(StoreByte(StampFlags(s, table, now), byteField, b, now), table, b, now, f);
  }

  /** After FlagByte, the byte entry holds the byte, stamped now. */
  lemma FlagByteStoresByte(s: State, table: seq<(Field, bv8)>, byteField: Field, b: bv8, now: int)
    requires HasAllFields(s) && FlagTable(table) && !InTable(byteField, table)
    ensures FlagByte(s, table, byteField, b, now).data[byteField] == Observed(Num(b as int), now)
  {
    CheckFlagsEffect(StoreByte(StampFlags(s, table, now), byteField, b, now), table, b, now, byteField);
  }

  /** FlagByte leaves every entry outside the table and other than the byte entry alone. */
  lemma FlagByteKeepsOthers(s: State, table: seq<(Field, bv8)>, byteField: Field, b: bv8, now: int)
    requires HasAllFields(s) && FlagTable(table)
    ensures forall g :: !InTable(g, table) && g != byteField ==> FlagByte(s, table, byteField, b, now).data[g] == s.data[g]
  {
    forall g | !InTable(g, table) && g != byteField
      ensures FlagByte(s, table, byteField, b, now).data[g] == s.data[g]
    {
      StampFlagsEffect(s, table, now, g);
      CheckFlagsEffect(StoreByte(StampFlags(s, table, now), byteField, b, now), table, b, now, g);
    }
  }

  /** A status byte stores each flag of the status table with its own bit and the raw byte, all stamped now. */
  lemma DecodeStatusEffect(s: State, b: bv8, now: int)
    requires HasAllFields(s)
    ensures var r := DecodeStatus(s, b, now);
      && (forall f :: InTable(f, STATUS_FLAGS) ==> r.data[f] == Observed(Flag(HasFlag(b, BitOf(f, STATUS_FLAGS))), now))
      && r.data[Status] == Observed(Num(b as int), now)
  {
    FlagTablesDistinct();
    StatusFlagsTable();
    FlagByteStoresByte(s, STATUS_FLAGS, Status, b, now);
    forall f | InTable(f, STATUS_FLAGS)
      ensures FlagByte(s, STATUS_FLAGS, Status, b, now).data[f] == Observed(Flag(HasFlag(b, BitOf(f, STATUS_FLAGS))), now)
    {
      FlagByteStoresFlag(s, STATUS_FLAGS, Status, b, now, f);
    }
  }

  /** A status byte sets each of the seven flags to its own bit, stamps all eight entries, and releases the guard. */
  lemma DecodeStatusStoresEveryBit(s: State, b: bv8, now: int)
    requires HasAllFields(s)
    ensures var r := DecodeStatus(s, b, now);
      && r.data[IsOn] == Observed(Flag(HasFlag(b, VX_STATUS_FLAG_POWER)), now)
      && r.data[IsRhMode] == Observed(Flag(HasFlag(b, VX_STATUS_FLAG_RH)), now)
      && r.data[IsHeatingMode] == Observed(Flag(HasFlag(b, VX_STATUS_FLAG_HEATING_MODE)), now)
      && r.data[IsFilter] == Observed(Flag(HasFlag(b, VX_STATUS_FLAG_FILTER)), now)
      && r.data[IsHeating] == Observed(Flag(HasFlag(b, VX_STATUS_FLAG_HEATING)), now)
      && r.data[IsFault] == Observed(Flag(HasFlag(b, VX_STATUS_FLAG_FAULT)), now)
      && r.data[IsServiceNeeded] == Observed(Flag(HasFlag(b, VX_STATUS_FLAG_SERVICE)), now)
      && r.data[Status] == Observed(Num(b as int), now)
      && !r.statusMutex
  {
    DecodeStatusEffect(s, b, now);
    FlagTablesDistinct();
    BitOfAt(STATUS_FLAGS, 0);
    BitOfAt(STATUS_FLAGS, 1);
    BitOfAt(STATUS_FLAGS, 2);
    BitOfAt(STATUS_FLAGS, 3);
    BitOfAt(STATUS_FLAGS, 4);
    BitOfAt(STATUS_FLAGS, 5);
    BitOfAt(STATUS_FLAGS, 6);
  }

  /** A status byte leaves every entry outside the status group, the switch type and the init state alone. */
  lemma DecodeStatusKeepsOtherEntries(s: State, b: bv8, now: int)
    requires HasAllFields(s)
    ensures var r := DecodeStatus(s, b, now);
      && (forall g :: !StatusGroup(g) ==> r.data[g] == s.data[g])
      && r.boostSetting == s.boostSetting && r.program == s.program && r.fullInitDone == s.fullInitDone
  {
    FlagTablesDistinct();
    StatusFlagsTable();
    FlagByteKeepsOthers(s, STATUS_FLAGS, Status, b, now);
  }

  /** The variable-08 entries that _decode_variable08 writes. */
  predicate Variable08Group(f: Field)
  {
    f in {IsSummerMode, IsErrorRelay, IsMotorIn, IsFrontHeating, IsMotorOut, IsExtraFunc, Variable08}
  }

  /** A variable-08 byte stores each flag of the variable-08 table with its own bit and the raw byte, all stamped now. */
  lemma DecodeVariable08Effect(s: State, b: bv8, now: int)
    requires HasAllFields(s)
    ensures var r := DecodeVariable08(s, b, now);
      && (forall f :: InTable(f, VARIABLE08_FLAGS) ==> r.data[f] == Observed(Flag(HasFlag(b, BitOf(f, VARIABLE08_FLAGS))), now))
      && r.data[Variable08] == Observed(Num(b as int), now)
  {
    FlagTablesDistinct();
    Variable08FlagsTable();
    FlagByteStoresByte(s, VARIABLE08_FLAGS, Variable08, b, now);
    forall f | InTable(f, VARIABLE08_FLAGS)
      ensures FlagByte(s, VARIABLE08_FLAGS, Variable08, b, now).data[f] == Observed(Flag(HasFlag(b, BitOf(f, VARIABLE08_FLAGS))), now)
    {
      FlagByteStoresFlag(s, VARIABLE08_FLAGS, Variable08, b, now, f);
    }
  }

  /** A variable-08 byte sets each of the six flags to its own bit and stamps all seven entries. */
  lemma DecodeVariable08StoresEveryBit(s: State, b: bv8, now: int)
    requires HasAllFields(s)
    ensures var r := DecodeVariable08(s, b, now);
      && r.data[IsSummerMode] == Observed(Flag(HasFlag(b, VX_08_FLAG_SUMMER_MODE)), now)
      && r.data[IsErrorRelay] == Observed(Flag(HasFlag(b, VX_08_FLAG_ERROR_RELAY)), now)
      && r.data[IsMotorIn] == Observed(Flag(HasFlag(b, VX_08_FLAG_MOTOR_IN)), now)
      && r.data[IsFrontHeating] == Observed(Flag(HasFlag(b, VX_08_FLAG_FRONT_HEATING)), now)
      && r.data[IsMotorOut] == Observed(Flag(HasFlag(b, VX_08_FLAG_MOTOR_OUT)), now)
      && r.data[IsExtraFunc] == Observed(Flag(HasFlag(b, VX_08_FLAG_EXTRA_FUNC)), now)
      && r.data[Variable08] == Observed(Num(b as int), now)
  {
    DecodeVariable08Effect(s, b, now);
    FlagTablesDistinct();
    BitOfAt(VARIABLE08_FLAGS, 0);
    BitOfAt(VARIABLE08_FLAGS, 1);
    BitOfAt(VARIABLE08_FLAGS, 2);
    BitOfAt(VARIABLE08_FLAGS, 3);
    BitOfAt(VARIABLE08_FLAGS, 4);
    BitOfAt(VARIABLE08_FLAGS, 5);
  }

  /** A variable-08 byte leaves every other entry, the guard and the init state alone. */
  lemma DecodeVariable08KeepsOtherEntries(s: State, b: bv8, now: int)
    requires HasAllFields(s)
    ensures var r := DecodeVariable08(s, b, now);
      && (forall g :: !Variable08Group(g) ==> r.data[g] == s.data[g])
      && r.statusMutex == s.statusMutex && r.fullInitDone == s.fullInitDone
  {
    FlagTablesDistinct();
    Variable08FlagsTable();
    FlagByteKeepsOthers(s, VARIABLE08_FLAGS, Variable08, b, now);
  }

  /** A flags-06 byte: "switch active" is bit 0x40, not the 0x20 bit that activates the switch. */
  lemma DecodeFlags06ReadsActiveBit(s: State, b: bv8, now: int)
    requires HasAllFields(s)
    ensures var r := DecodeFlags06(s, b, now);
      && r.data[IsSwitchActive] == Observed(Flag(b & 0x40 != 0), now)
      && r.data[Flags06] == Observed(Num(b as int), now)
      && (forall g :: g != IsSwitchActive && g != Flags06 ==> r.data[g] == s.data[g])
    ensures DecodeFlags06(s, 0x20, now).data[IsSwitchActive].value == Flag(false)
  {
  }

  /** A program byte stores the switch type (bit 0x20) and reports it when it changed or on its first arrival. */
  lemma DecodeProgramReportsSwitchType(s: State, b: bv8, now: int)
    ensures var r := DecodeProgram(s, b, now);
      && r.boostSetting == Observed(Flag(b & 0x20 != 0), now)
      && r.program == Observed(Num(b as int), now)
      && r.fullInitDone == s.fullInitDone && r.statusMutex == s.statusMutex
      && r.events == s.events +
           if s.boostSetting.value != Flag(b & 0x20 != 0) || !Received(s.boostSetting)
           then [StatusChanged(IsBoostSetting)] else []
  {
  }

  /**
   * A valid temperature frame stores the table temperature of its byte in its entry, leaving the
   * entry's stamp as it was, and the temperature getter then reads that temperature.
   */
  lemma TemperatureFrameDecodes(t: State, m: Frame, f: Field, now: int)
    requires HasAllFields(t) && |m| == VX_MSG_LENGTH && ChecksumValid(m)
    requires (m[3], f) in {(VX_VARIABLE_T_OUTSIDE, OutsideTemp), (VX_VARIABLE_T_EXHAUST, ExhaustTemp),
                           (VX_VARIABLE_T_INSIDE, InsideTemp), (VX_VARIABLE_T_INCOMING, IncomingTemp)}
    ensures var o := DecodeMessage(t, m, now);
      && !o.raised && o.state.data[f] == Observed(Num(NtcToCel(m[4] as int)), t.data[f].lastReceived)
      && TemperatureReading(o.state, f) == NtcToCel(m[4] as int)
  {
    var d := DecodeReading(t, f, Num(NtcToCel(m[4] as int)), now);
    assert DecodeVariable(t, m[3], m[4], now) == Outcome(d, false);
  }

  /**
   * A valid RH1 frame stores the percentage of its byte without stamping the entry, so the rh1
   * getter reads it only if an earlier frame had stamped the entry, and NOT_SET otherwise.
   */
  lemma Rh1FrameDecodes(t: State, m: Frame, now: int)
    requires HasAllFields(t) && |m| == VX_MSG_LENGTH && ChecksumValid(m) && m[3] == VX_VARIABLE_RH1
    ensures var o := DecodeMessage(t, m, now);
      !o.raised && o.state.data[Rh1] == Observed(Num(HexToRh(m[4])), t.data[Rh1].lastReceived)
    ensures Received(t.data[Rh1]) ==> SensorReading(DecodeMessage(t, m, now).state, Rh1) == HexToRh(m[4])
    ensures !Received(t.data[Rh1]) ==> SensorReading(DecodeMessage(t, m, now).state, Rh1) == NOT_SET
  {
    var d := DecodeReading(t, Rh1, Num(HexToRh(m[4])), now);
    assert DecodeVariable(t, m[3], m[4], now) == Outcome(d, false);
  }

  /** A valid status frame goes to _decode_status, then to the completeness check. */
  lemma StatusFrameDispatch(t: State, m: Frame, now: int)
    requires HasAllFields(t) && |m| == VX_MSG_LENGTH && ChecksumValid(m) && m[3] == VX_VARIABLE_STATUS
    ensures DecodeMessage(t, m, now) == Outcome(CompleteInit(DecodeStatus(t, m[4], now)), false)
  {
    assert DecodeVariable(t, m[3], m[4], now) == Outcome(DecodeStatus(t, m[4], now), false);
  }

  /** A valid variable-08 frame goes to _decode_variable08, then to the completeness check. */
  lemma Variable08FrameDispatch(t: State, m: Frame, now: int)
    requires HasAllFields(t) && |m| == VX_MSG_LENGTH && ChecksumValid(m) && m[3] == VX_VARIABLE_IO_08
    ensures DecodeMessage(t, m, now) == Outcome(CompleteInit(DecodeVariable08(t, m[4], now)), false)
  {
    assert DecodeVariable(t, m[3], m[4], now) == Outcome(DecodeVariable08(t, m[4], now), false);
  }

  /** A valid flags-06 or program frame goes to its own decoder, then to the completeness check. */
  lemma SwitchFramesDispatch(t: State, m: Frame, now: int)
    requires HasAllFields(t) && |m| == VX_MSG_LENGTH && ChecksumValid(m)
    ensures m[3] == VX_VARIABLE_FLAGS_06 ==>
      DecodeMessage(t, m, now) == Outcome(CompleteInit(DecodeFlags06(t, m[4], now)), false)
    ensures m[3] == VX_VARIABLE_PROGRAM ==>
      DecodeMessage(t, m, now) == Outcome(CompleteInit(DecodeProgram(t, m[4], now)), false)
  {
    if m[3] == VX_VARIABLE_FLAGS_06 {
      assert DecodeVariable(t, m[3], m[4], now) == Outcome(DecodeFlags06(t, m[4], now), false);
    } else if m[3] == VX_VARIABLE_PROGRAM {
      assert DecodeVariable(t, m[3], m[4], now) == Outcome(DecodeProgram(t, m[4], now), false);
    }
  }

  /** An RH2 frame with a valid checksum raises TypeError and changes nothing. */
  lemma Rh2FrameRaises(s: State, m: Frame, now: int)
    requires HasAllFields(s) && |m| == VX_MSG_LENGTH && ChecksumValid(m) && m[3] == VX_VARIABLE_RH2
    ensures DecodeMessage(s, m, now) == Outcome(s, true)
  {
  }

  /** A frame whose first five bytes were altered after encoding is dropped without effect. */
  lemma CorruptedFrameIsIgnored(s: State, f: Frame, i: nat, b: bv8, now: int)
    requires HasAllFields(s) && |f| == VX_MSG_LENGTH && ChecksumValid(f) && i < 5 && b != f[i]
    ensures DecodeMessage(s, f[i := b], now) == Outcome(s, false)
  {
    CorruptedByteIsRejected(f, i, b);
  }

  /** Two CO2 halves less than CO2_LIFE_TIME_MS apart assemble `lo + 256 * hi`. */
  lemma Co2AssembledWithinWindow(s: State, hi: bv8, lo: bv8, t1: int, t2: int)
    requires HasAllFields(s)
    requires !DecodeVariable(s, VX_VARIABLE_CO2_HI, hi, t1).raised
    requires t2 - t1 < CO2_LIFE_TIME_MS
    ensures var o := DecodeVariable(DecodeVariable(s, VX_VARIABLE_CO2_HI, hi, t1).state, VX_VARIABLE_CO2_LO, lo, t2);
      !o.raised && o.state.data[Co2].value == Num(lo as int + 256 * hi as int)
  {
    var o1 := DecodeVariable(s, VX_VARIABLE_CO2_HI, hi, t1);
    assert o1 == DecodeCo2Half(s, Co2Hi, Co2Lo, hi, t1);
    assert DecodeVariable(o1.state, VX_VARIABLE_CO2_LO, lo, t2) == DecodeCo2Half(o1.state, Co2Lo, Co2Hi, lo, t2);
  }

  /** Halves CO2_LIFE_TIME_MS or more apart are stored but leave the total alone. */
  lemma Co2NotAssembledOutsideWindow(s: State, hi: bv8, lo: bv8, t1: int, t2: int)
    requires HasAllFields(s)
    requires !DecodeVariable(s, VX_VARIABLE_CO2_HI, hi, t1).raised
    requires t2 - t1 >= CO2_LIFE_TIME_MS
    ensures var o1 := DecodeVariable(s, VX_VARIABLE_CO2_HI, hi, t1);
            var o := DecodeVariable(o1.state, VX_VARIABLE_CO2_LO, lo, t2);
      && !o.raised && o.state.data[Co2] == o1.state.data[Co2]
      && o.state.data[Co2Lo] == Observed(Num(lo as int), t2)
  {
    var o1 := DecodeVariable(s, VX_VARIABLE_CO2_HI, hi, t1);
    assert o1 == DecodeCo2Half(s, Co2Hi, Co2Lo, hi, t1);
    assert DecodeVariable(o1.state, VX_VARIABLE_CO2_LO, lo, t2) == DecodeCo2Half(o1.state, Co2Lo, Co2Hi, lo, t2);
  }

  /** A CO2 half whose partner was never received but whose stamp lies inside the window raises TypeError after storing the half. */
  lemma Co2HalfWithoutPartnerRaises(s: State, hi: bv8, now: int)
    requires HasAllFields(s) && s.data[Co2Lo].value == Unset
    requires now - s.data[Co2Lo].lastReceived < CO2_LIFE_TIME_MS
    ensures var o := DecodeVariable(s, VX_VARIABLE_CO2_HI, hi, now);
      o.raised && o.state.data[Co2Hi] == Observed(Num(hi as int), now)
  {
  }

  // ---------------------------------------------------------------------------------------
  // Completeness and full initialisation

  /** Once the status entries are complete they stay complete: decoding only ever stamps with the current, non-zero time. */
  lemma DecodeKeepsStatusInitDone(s: State, m: Frame, now: int)
    requires HasAllFields(s) && |m| == VX_MSG_LENGTH && now != 0 && StatusInitDone(s)
    ensures StatusInitDone(DecodeMessage(s, m, now).state)
  {
  }

  lemma {:induction false} DrainKeepsStatusInitDone(s: State, now: int)
    requires HasAllFields(s) && now != 0 && StatusInitDone(s)
    ensures StatusInitDone(Drain(s, now).state)
    decreases |s.rx|
  {
    var (s1, msg) := ReadMessage(s);
    if msg.Some? {
      DecodeKeepsStatusInitDone(s1, msg.value, now);
      var d := DecodeMessage(s1, msg.value, now);
      if !d.raised {
        DrainKeepsStatusInitDone(d.state, now);
      }
    }
  }

  /** A call of `loop` never loses completeness. */
  lemma LoopKeepsStatusInitDone(s: State, now: int)
    requires HasAllFields(s) && now != 0 && StatusInitDone(s)
    ensures StatusInitDone(Loop(s, now).state)
  {
    DrainKeepsStatusInitDone(s, now);
  }

  /** The events `r` recorded after those of `s`. */
  function NewEvents(s: State, r: State): seq<Event>
  {
    if |s.events| <= |r.events| then r.events[|s.events|..] else []
  }

  /**
   * While full initialisation is pending a frame is reported only through the switch type,
   * never through on_property_changed; the frame that completes it appends the 32-key burst last.
   */
  lemma DecodeBeforeInitReportsNoProperty(s: State, m: Frame, now: int)
    requires HasAllFields(s) && |m| == VX_MSG_LENGTH && !s.fullInitDone
    ensures var r := DecodeMessage(s, m, now).state;
      && r.events[..|s.events|] == s.events
      && (r.fullInitDone ==> StatusInitDone(r) && NewEvents(s, r)[|NewEvents(s, r)| - 32..] == InitialBurst())
      && (forall e :: e in NewEvents(s, r) ==> e.StatusChanged?)
  {
  }

  // ---------------------------------------------------------------------------------------
  // Requests, retries and timers

  /** request_config writes one poll frame per configuration variable, in order, and touches no entry. */
  lemma RequestConfigAsksForConfiguration(s: State, now: int)
    ensures var r := RequestConfig(s, now);
      && r == s.(tx := r.tx, updated := now, lastRequested := now)
      && r.tx == s.tx + if s.portOpen then RequestFrames(CONFIG_VARIABLES) else []
  {
    RequestConfigIsRequestAll(s, now);
    RequestAllFrames(s, CONFIG_VARIABLES);
  }

  /** A connect that opens the port clears full_init_done and requests the configuration, but keeps every entry received before. */
  lemma ConnectRestartsInitialisation(s: State, now: int)
    ensures var (r, ok) := Connect(s, true, now);
      && ok && r.portOpen && !r.fullInitDone && r.data == s.data
      && r.tx == s.tx + RequestFrames(CONFIG_VARIABLES)
    ensures Connect(s, false, now) == (s, false)
  {
    RequestConfigAsksForConfiguration(s.(portOpen := true, fullInitDone := false), now);
  }

  /** The variables of RETRY_TABLE are pairwise distinct. */
  lemma RetryTableDistinct()
    ensures forall i, j :: 0 <= i < j < |RETRY_TABLE| ==> RETRY_TABLE[i].1 != RETRY_TABLE[j].1
  {
  }

  /** The retry pass polls a tracked variable exactly when its entry was never received, and releases the guard. */
  lemma RetryLoopPollsExactlyMissing(s: State, now: int)
    requires HasAllFields(s)
    ensures var r := RetryLoop(s, now);
            var vs := MissingVariables(s.data, RETRY_TABLE);
      && r.tx == s.tx + (if s.portOpen then RequestFrames(vs) else [])
      && (forall i :: 0 <= i < |RETRY_TABLE| ==> (RETRY_TABLE[i].1 in vs <==> !Received(s.data[RETRY_TABLE[i].0])))
      && !r.statusMutex && r.lastRetryLoop == now && r.data == s.data
  {
    SendMissingRequestsIsRequestMissing(s);
    RequestMissingFrames(s, RETRY_TABLE);
    MissingVariablesExact(s.data, RETRY_TABLE);
    RetryTableDistinct();
  }

  /** When every entry of `table` was received there is nothing to poll. */
  lemma {:induction false} NothingMissing(data: map<Field, Observed>, table: seq<(Field, bv8)>)
    requires forall f: Field :: f in data
    requires forall i :: 0 <= i < |table| ==> Received(data[table[i].0])
    ensures MissingVariables(data, table) == []
    decreases |table|
  {
    if table != [] {
      assert forall i :: 1 <= i < |table| ==> table[1..][i - 1] == table[i];
      NothingMissing(data, table[1..]);
    }
  }

  /** Once the status entries are complete the retry pass polls nothing. */
  lemma RetryLoopQuietWhenComplete(s: State, now: int)
    requires HasAllFields(s) && StatusInitDone(s)
    ensures RetryLoop(s, now).tx == s.tx
  {
    NothingMissing(s.data, RETRY_TABLE);
    SendMissingRequestsIsRequestMissing(s);
    RequestMissingFrames(s, RETRY_TABLE);
  }

  /** Within both intervals the timers do nothing. */
  lemma TimersIdleWithinIntervals(s: State, now: int)
    requires HasAllFields(s)
    requires now - s.lastRequested <= QUERY_INTERVAL * 1000 && now - s.lastRetryLoop <= RETRY_INTERVAL * 1000
    ensures Timers(s, now) == s
  {
  }

  /** After five minutes a complete panel re-polls variable 08 and the service counter, and only those. */
  lemma TimersRequeryWhenComplete(s: State, now: int)
    requires HasAllFields(s) && StatusInitDone(s)
    requires now - s.lastRequested > QUERY_INTERVAL * 1000 && now - s.lastRetryLoop <= RETRY_INTERVAL * 1000
    ensures var r := Timers(s, now);
      && r.lastRequested == now && r.data == s.data && r.statusMutex == s.statusMutex
      && r.tx == s.tx + if s.portOpen then [RequestFrame(VX_VARIABLE_IO_08), RequestFrame(VX_VARIABLE_SERVICE_COUNTER)] else []
  {
  }

  /** After five minutes an incomplete panel polls nothing extra, but still restarts the five-minute interval. */
  lemma TimersNoRequeryWhenIncomplete(s: State, now: int)
    requires HasAllFields(s) && !StatusInitDone(s)
    requires now - s.lastRequested > QUERY_INTERVAL * 1000 && now - s.lastRetryLoop <= RETRY_INTERVAL * 1000
    ensures Timers(s, now) == s.(lastRequested := now)
  {
  }

  /** Once five seconds have passed, and the re-query is not due, the timers are exactly the retry pass. */
  lemma TimersRetryWhenDue(s: State, now: int)
    requires HasAllFields(s)
    requires now - s.lastRequested <= QUERY_INTERVAL * 1000 && now - s.lastRetryLoop > RETRY_INTERVAL * 1000
    ensures Timers(s, now) == RetryLoop(s, now)
  {
  }

  /**
   * A loop call that raises nothing, with the retry pass due and the re-query not, polls exactly
   * the tracked variables whose entry was still never received after the input was drained, and
   * releases the guard.
   */
  lemma LoopRetriesMissing(s: State, now: int)
    requires HasAllFields(s) && s.portOpen && !Loop(s, now).raised
    requires now - s.lastRequested <= QUERY_INTERVAL * 1000 && now - s.lastRetryLoop > RETRY_INTERVAL * 1000
    ensures var d := Drain(s, now).state; var r := Loop(s, now).state;
      && !r.statusMutex && r.lastRetryLoop == now && r.data == d.data
      && r.tx == s.tx + RequestFrames(MissingVariables(d.data, RETRY_TABLE))
  {
    var d := Drain(s, now).state;
    TimersRetryWhenDue(d, now);
    RetryLoopPollsExactlyMissing(d, now);
  }

  // ---------------------------------------------------------------------------------------
  // The status write guard

  /** While a status write is pending a second status action writes nothing and stores nothing. */
  lemma SecondStatusWriteIsDropped(s: State, now1: int, now2: int)
    requires HasAllFields(s) && StatusKnown(s) && !s.statusMutex
    ensures var r := SetOn(s, now1).state;
      && HasAllFields(r) && ByteValued(r.data[Status].value) && r.statusMutex
      && SetOff(r, now2) == Outcome(r, false) && SetRhModeOn(r, now2) == Outcome(r, false)
  {
    var r := SetOn(s, now1).state;
    assert r.data[Status] == s.data[Status];
  }

  /** A status frame from the bus releases the guard. */
  lemma StatusFrameReleasesGuard(s: State, m: Frame, now: int)
    requires HasAllFields(s) && |m| == VX_MSG_LENGTH && ChecksumValid(m) && m[3] == VX_VARIABLE_STATUS
    ensures !DecodeMessage(s, m, now).raised && !DecodeMessage(s, m, now).state.statusMutex
  {
    var d := DecodeStatus(s, m[4], now);
    assert DecodeVariable(s, VX_VARIABLE_STATUS, m[4], now) == Outcome(d, false);
    assert DecodeMessage(s, m, now) == Outcome(CompleteInit(d), false);
  }

  /** The panel copy of a status write, decoded, releases the guard and stores the byte and its seven flags. */
  lemma StatusEchoDecodes(t: State, w: bv8, now: int)
    requires HasAllFields(t)
    ensures var o := DecodeMessage(t, SetFrames(VX_VARIABLE_STATUS, w, VX_MSG_MAINBOARD_1)[1], now);
      && !o.raised && !o.state.statusMutex && o.state.data[Status].value == Num(w as int)
      && forall f :: InTable(f, STATUS_FLAGS) ==> o.state.data[f].value == Flag(HasFlag(w, BitOf(f, STATUS_FLAGS)))
  {
    var echo := SetFrames(VX_VARIABLE_STATUS, w, VX_MSG_MAINBOARD_1)[1];
    assert echo[3] == VX_VARIABLE_STATUS && echo[4] == w;
    StatusFrameReleasesGuard(t, echo, now);
    var d := DecodeStatus(t, w, now);
    assert DecodeVariable(t, VX_VARIABLE_STATUS, w, now) == Outcome(d, false);
    assert DecodeMessage(t, echo, now) == Outcome(CompleteInit(d), false);
    DecodeStatusEffect(t, w, now);
  }

  /** Setting or clearing the bits of `mask` leaves every bit outside `mask` as it was. */
  lemma WithBitsKeepsOtherBits(b: bv8, mask: bv8, on: bool, bit: bv8)
    requires bit & mask == 0
    ensures HasFlag(WithBits(b, mask, on), bit) == HasFlag(b, bit)
  {
    var w := WithBits(b, mask, on);
    assert bit & !mask == bit;
    calc {
      w & bit;
      w & (bit & !mask);
      (w & !mask) & bit;
      (b & !mask) & bit;
      b & (bit & !mask);
      b & bit;
    }
  }

  /**
   * The optimistic update of a status action agrees with what the bus reports back: the panel
   * copy of the byte it wrote, decoded, releases the guard and reads `on` for the flag the
   * action is about, and for every flag on another bit the value it had before.
   */
  lemma StatusActionConfirmedByEcho(s: State, t: State, f: Field, mask: bv8, on: bool, now: int, later: int)
    requires HasAllFields(s) && HasAllFields(t) && StatusKnown(s) && !s.statusMutex && s.portOpen
    requires InTable(f, STATUS_FLAGS) && BitOf(f, STATUS_FLAGS) == mask && mask != 0
    ensures var r := SwitchStatusBit(s, f, mask, on, now);
            var o := DecodeMessage(t, r.state.tx[|r.state.tx| - 1], later);
      && !r.raised && r.state.data[f].value == Flag(on)
      && !o.raised && !o.state.statusMutex && o.state.data[f].value == Flag(on)
      && forall g :: InTable(g, STATUS_FLAGS) && BitOf(g, STATUS_FLAGS) & mask == 0 ==>
           o.state.data[g].value == Flag(HasFlag(StatusByte(s), BitOf(g, STATUS_FLAGS)))
  {
    var w := WithBits(StatusByte(s), mask, on);
    var r := SwitchStatusBit(s, f, mask, on, now);
    assert r.state.tx[|r.state.tx| - 1] == SetFrames(VX_VARIABLE_STATUS, w, VX_MSG_MAINBOARD_1)[1];
    StatusEchoDecodes(t, w, later);
    assert HasFlag(w, mask) == on;
    forall g | InTable(g, STATUS_FLAGS) && BitOf(g, STATUS_FLAGS) & mask == 0
      ensures HasFlag(w, BitOf(g, STATUS_FLAGS)) == HasFlag(StatusByte(s), BitOf(g, STATUS_FLAGS))
    {
      WithBitsKeepsOtherBits(StatusByte(s), mask, on, BitOf(g, STATUS_FLAGS));
    }
  }

  /** set_on and set_off are each confirmed by the panel copy of their own write. */
  lemma PowerActionsConfirmedByEcho(s: State, t: State, now: int, later: int)
    requires HasAllFields(s) && HasAllFields(t) && StatusKnown(s) && !s.statusMutex && s.portOpen
    ensures var r := SetOn(s, now).state; DecodeMessage(t, r.tx[|r.tx| - 1], later).state.data[IsOn].value == Flag(true)
    ensures var r := SetOff(s, now).state; DecodeMessage(t, r.tx[|r.tx| - 1], later).state.data[IsOn].value == Flag(false)
  {
    FlagTablesDistinct();
    BitOfAt(STATUS_FLAGS, 0);
    StatusActionConfirmedByEcho(s, t, IsOn, VX_STATUS_FLAG_POWER, true, now, later);
    StatusActionConfirmedByEcho(s, t, IsOn, VX_STATUS_FLAG_POWER, false, now, later);
  }

  /** set_rh_mode_on and set_rh_mode_off are each confirmed by the panel copy of their own write. */
  lemma RhActionsConfirmedByEcho(s: State, t: State, now: int, later: int)
    requires HasAllFields(s) && HasAllFields(t) && StatusKnown(s) && !s.statusMutex && s.portOpen
    ensures var r := SetRhModeOn(s, now).state; DecodeMessage(t, r.tx[|r.tx| - 1], later).state.data[IsRhMode].value == Flag(true)
    ensures var r := SetRhModeOff(s, now).state; DecodeMessage(t, r.tx[|r.tx| - 1], later).state.data[IsRhMode].value == Flag(false)
  {
    FlagTablesDistinct();
    BitOfAt(STATUS_FLAGS, 1);
    StatusActionConfirmedByEcho(s, t, IsRhMode, VX_STATUS_FLAG_RH, true, now, later);
    StatusActionConfirmedByEcho(s, t, IsRhMode, VX_STATUS_FLAG_RH, false, now, later);
  }

  /** A heating-mode action that writes is confirmed by the panel copy of its own write. */
  lemma HeatingModeActionsConfirmedByEcho(s: State, t: State, now: int, later: int)
    requires HasAllFields(s) && HasAllFields(t) && StatusKnown(s) && !s.statusMutex && s.portOpen
    ensures !HasFlag(StatusByte(s), VX_STATUS_FLAG_HEATING_MODE) ==>
      var r := SetHeatingModeOn(s, now).state;
      DecodeMessage(t, r.tx[|r.tx| - 1], later).state.data[IsHeatingMode].value == Flag(true)
    ensures HasFlag(StatusByte(s), VX_STATUS_FLAG_HEATING_MODE) ==>
      var r := SetHeatingModeOff(s, now).state;
      DecodeMessage(t, r.tx[|r.tx| - 1], later).state.data[IsHeatingMode].value == Flag(false)
  {
    FlagTablesDistinct();
    BitOfAt(STATUS_FLAGS, 2);
    StatusActionConfirmedByEcho(s, t, IsHeatingMode, VX_STATUS_FLAG_HEATING_MODE, true, now, later);
    StatusActionConfirmedByEcho(s, t, IsHeatingMode, VX_STATUS_FLAG_HEATING_MODE, false, now, later);
  }

  /** The panel copy of set_switch_on's write, decoded, reads the switch as active only if the mainboard sets the is-active bit; the write itself sets only the activate bit. */
  lemma SwitchOnWritesOnlyActivateBit(s: State)
    requires HasAllFields(s) && Flags06Known(s) && s.portOpen
    ensures var r := SetSwitchOn(s).state;
            var w := r.tx[|r.tx| - 1][4];
      && HasFlag(w, VX_06_FIREPLACE_FLAG_ACTIVATE)
      && HasFlag(w, VX_06_FIREPLACE_FLAG_IS_ACTIVE) == HasFlag(s.data[Flags06].value.n as bv8, VX_06_FIREPLACE_FLAG_IS_ACTIVE)
      && r.data == s.data && !r.statusMutex == !s.statusMutex
  {
    var b := s.data[Flags06].value.n as bv8;
    var w := WithBits(b, VX_06_FIREPLACE_FLAG_ACTIVATE, true);
    WithBitsKeepsOtherBits(b, VX_06_FIREPLACE_FLAG_ACTIVATE, true, VX_06_FIREPLACE_FLAG_IS_ACTIVE);
    var r := SetSwitchOn(s).state;
    assert r.tx[|r.tx| - 1] == SetFrames(VX_VARIABLE_FLAGS_06, w, VX_MSG_MAINBOARDS)[1];
  }

  // ---------------------------------------------------------------------------------------
  // Setters

  /** The last frame a setter wrote on an open port is the panel copy of `code` for `variable`. */
  lemma SettingEcho(s: State, r: State, variable: bv8, code: bv8, f: Field, v: Value)
    requires f in s.data && s.portOpen && SettingWritten(s, r, variable, code, f, v)
    ensures |r.tx| > 0 && r.tx[|r.tx| - 1] == SetFrames(variable, code, VX_MSG_MAINBOARDS)[1]
    ensures r.tx[|r.tx| - 1][3] == variable && r.tx[|r.tx| - 1][4] == code
  {
  }

  /** A frame carrying a fan-speed code decodes as the speed of that code. */
  lemma FanSpeedFrameDecodes(t: State, variable: bv8, f: Field, code: bv8, now: int)
    requires HasAllFields(t)
    requires (variable, f) in {(VX_VARIABLE_FAN_SPEED, FanSpeed), (VX_VARIABLE_DEFAULT_FAN_SPEED, DefaultFanSpeed)}
    ensures var o := DecodeMessage(t, SetFrames(variable, code, VX_MSG_MAINBOARDS)[1], now);
      !o.raised && o.state.data[f] == Observed(Num(HexToFanSpeed(code)), now)
  {
    var echo := SetFrames(variable, code, VX_MSG_MAINBOARDS)[1];
    assert echo[3] == variable && echo[4] == code;
    var d := DecodeSetting(t, f, Num(HexToFanSpeed(code)), now);
    assert DecodeVariable(t, variable, code, now) == Outcome(d, false);
    assert DecodeMessage(t, echo, now) == Outcome(CompleteInit(d), false);
  }

  /** The fan_speed and default_fan_speed setters, for a speed 1..8, are confirmed by the panel copy of their write. */
  lemma FanSpeedSettersConfirmedByEcho(s: State, t: State, speed: int, now: int)
    requires HasAllFields(s) && HasAllFields(t) && s.portOpen && VX_MIN_FAN_SPEED <= speed <= VX_MAX_FAN_SPEED
    ensures var r := SetFanSpeed(s, speed); var o := DecodeMessage(t, r.tx[|r.tx| - 1], now);
      !o.raised && o.state.data[FanSpeed] == Observed(r.data[FanSpeed].value, now) && r.data[FanSpeed].value == Num(speed)
    ensures var r := SetDefaultFanSpeed(s, speed); var o := DecodeMessage(t, r.tx[|r.tx| - 1], now);
      !o.raised && o.state.data[DefaultFanSpeed] == Observed(r.data[DefaultFanSpeed].value, now)
      && r.data[DefaultFanSpeed].value == Num(speed)
  {
    var code := VX_FAN_SPEEDS[speed - 1];
    FanSpeedRoundTrip(speed);
    assert HexToFanSpeed(code) == speed;
    SettingEcho(s, SetFanSpeed(s, speed), VX_VARIABLE_FAN_SPEED, code, FanSpeed, Num(speed));
    SettingEcho(s, SetDefaultFanSpeed(s, speed), VX_VARIABLE_DEFAULT_FAN_SPEED, code, DefaultFanSpeed, Num(speed));
    FanSpeedFrameDecodes(t, VX_VARIABLE_FAN_SPEED, FanSpeed, code, now);
    FanSpeedFrameDecodes(t, VX_VARIABLE_DEFAULT_FAN_SPEED, DefaultFanSpeed, code, now);
  }

  /** Only the upper bound is checked: a fan speed of 0 or below is stored as given, but its write reads back as speed 1. */
  lemma NonPositiveFanSpeedReadsBackAsOne(s: State, t: State, speed: int, now: int)
    requires HasAllFields(s) && HasAllFields(t) && s.portOpen && speed < VX_MIN_FAN_SPEED
    ensures var r := SetFanSpeed(s, speed); var o := DecodeMessage(t, r.tx[|r.tx| - 1], now);
      r.data[FanSpeed].value == Num(speed) && o.state.data[FanSpeed].value == Num(1)
  {
    FanSpeedRoundTrip(1);
    SettingEcho(s, SetFanSpeed(s, speed), VX_VARIABLE_FAN_SPEED, VX_FAN_SPEED_1, FanSpeed, Num(speed));
    FanSpeedFrameDecodes(t, VX_VARIABLE_FAN_SPEED, FanSpeed, VX_FAN_SPEED_1, now);
  }

  /** A valid heating-target frame stores the looked-up temperature and raises nothing. */
  lemma HeatingTargetFrameDecodes(t: State, m: Frame, now: int)
    requires HasAllFields(t) && |m| == VX_MSG_LENGTH && ChecksumValid(m) && m[3] == VX_VARIABLE_HEATING_TARGET
    ensures DecodeMessage(t, m, now)
         == Outcome(CompleteInit(DecodeSetting(t, HeatingTarget, Num(NtcToCel(m[4] as int)), now)), false)
  {
    var d := DecodeSetting(t, HeatingTarget, Num(NtcToCel(m[4] as int)), now);
    assert DecodeVariable(t, m[3], m[4], now) == Outcome(d, false);
  }

  /** The panel copy of a heating-target write decodes as the temperature of the byte written. */
  lemma HeatingTargetEchoDecodes(t: State, code: bv8, now: int)
    requires HasAllFields(t)
    ensures var o := DecodeMessage(t, SetFrames(VX_VARIABLE_HEATING_TARGET, code, VX_MSG_MAINBOARDS)[1], now);
      !o.raised && o.state.data[HeatingTarget] == Observed(Num(NtcToCel(code as int)), now)
  {
    var echo := SetFrames(VX_VARIABLE_HEATING_TARGET, code, VX_MSG_MAINBOARDS)[1];
    assert echo[3] == VX_VARIABLE_HEATING_TARGET && echo[4] == code;
    HeatingTargetFrameDecodes(t, echo, now);
  }

  /** The heating_target setter, for 10..27 degrees, is confirmed by the panel copy of its write. */
  lemma HeatingTargetSetterConfirmedByEcho(s: State, t: State, celsius: int, now: int)
    requires HasAllFields(s) && HasAllFields(t) && s.portOpen && 10 <= celsius <= 27
    ensures var r := SetHeatingTarget(s, celsius); var o := DecodeMessage(t, r.tx[|r.tx| - 1], now);
      !o.raised && o.state.data[HeatingTarget] == Observed(r.data[HeatingTarget].value, now)
      && r.data[HeatingTarget].value == Num(celsius)
  {
    var ntc := CelToNtc(celsius);
    var r := SetHeatingTarget(s, celsius);
    SettingEcho(s, r, VX_VARIABLE_HEATING_TARGET, ntc as bv8, HeatingTarget, Num(celsius));
    HeatingTargetEchoDecodes(t, ntc as bv8, now);
    ByteOfInt(ntc);
    assert NtcToCel((ntc as bv8) as int) == celsius;
  }

  /** A frame carrying a service month count decodes as that count. */
  lemma ServiceFrameDecodes(t: State, variable: bv8, f: Field, months: int, now: int)
    requires HasAllFields(t) && 0 <= months < 256
    requires (variable, f) in {(VX_VARIABLE_SERVICE_PERIOD, ServicePeriod), (VX_VARIABLE_SERVICE_COUNTER, ServiceCounter)}
    ensures var o := DecodeMessage(t, SetFrames(variable, months as bv8, VX_MSG_MAINBOARDS)[1], now);
      !o.raised && o.state.data[f] == Observed(Num(months), now)
  {
    var echo := SetFrames(variable, months as bv8, VX_MSG_MAINBOARDS)[1];
    ByteOfInt(months);
    assert echo[3] == variable && echo[4] as int == months;
    var d := DecodeSetting(t, f, Num(echo[4] as int), now);
    assert DecodeVariable(t, echo[3], echo[4], now) == Outcome(d, false);
    assert DecodeMessage(t, echo, now) == Outcome(CompleteInit(d), false);
  }

  /** The service_period and service_counter setters, for 0..255 months, are confirmed by the panel copy of their write. */
  lemma ServiceSettersConfirmedByEcho(s: State, t: State, months: int, now: int)
    requires HasAllFields(s) && HasAllFields(t) && s.portOpen && 0 <= months < 256
    ensures var r := SetServicePeriod(s, months); var o := DecodeMessage(t, r.tx[|r.tx| - 1], now);
      !o.raised && o.state.data[ServicePeriod] == Observed(r.data[ServicePeriod].value, now)
      && r.data[ServicePeriod].value == Num(months)
    ensures var r := SetServiceCounter(s, months); var o := DecodeMessage(t, r.tx[|r.tx| - 1], now);
      !o.raised && o.state.data[ServiceCounter] == Observed(r.data[ServiceCounter].value, now)
      && r.data[ServiceCounter].value == Num(months)
  {
    SettingEcho(s, SetServicePeriod(s, months), VX_VARIABLE_SERVICE_PERIOD, months as bv8, ServicePeriod, Num(months));
    SettingEcho(s, SetServiceCounter(s, months), VX_VARIABLE_SERVICE_COUNTER, months as bv8, ServiceCounter, Num(months));
    ServiceFrameDecodes(t, VX_VARIABLE_SERVICE_PERIOD, ServicePeriod, months, now);
    ServiceFrameDecodes(t, VX_VARIABLE_SERVICE_COUNTER, ServiceCounter, months, now);
  }

  // ---------------------------------------------------------------------------------------
  // Getters

  /** The fan-speed getters read back a speed the setter accepted; a speed above 8 leaves them as before. */
  lemma FanSpeedSettersReadBack(s: State, x: int)
    requires HasAllFields(s)
    ensures x <= VX_MAX_FAN_SPEED ==>
      SettingReading(SetFanSpeed(s, x), FanSpeed) == x && SettingReading(SetDefaultFanSpeed(s, x), DefaultFanSpeed) == x
    ensures x > VX_MAX_FAN_SPEED ==>
      SettingReading(SetFanSpeed(s, x), FanSpeed) == SettingReading(s, FanSpeed)
      && SettingReading(SetDefaultFanSpeed(s, x), DefaultFanSpeed) == SettingReading(s, DefaultFanSpeed)
  {
  }

  /** The service getters read back a month count of 0..255. */
  lemma ServiceSettersReadBack(s: State, x: int)
    requires HasAllFields(s) && 0 <= x < 256
    ensures SettingReading(SetServicePeriod(s, x), ServicePeriod) == x
    ensures SettingReading(SetServiceCounter(s, x), ServiceCounter) == x
  {
  }

  /** The heating_target getter reads back a target of 10..27 degrees. */
  lemma HeatingTargetSetterReadsBack(s: State, x: int)
    requires HasAllFields(s) && 10 <= x <= 27
    ensures SettingReading(SetHeatingTarget(s, x), HeatingTarget) == x
  {
  }

  /** With the guard free, each status action's getter reads the new state at once; a heating-mode action that writes does too. */
  lemma StatusActionsReadBack(s: State, now: int)
    requires HasAllFields(s) && StatusKnown(s) && !s.statusMutex
    ensures FlagReading(SetOn(s, now).state, IsOn) && !FlagReading(SetOff(s, now).state, IsOn)
    ensures FlagReading(SetRhModeOn(s, now).state, IsRhMode) && !FlagReading(SetRhModeOff(s, now).state, IsRhMode)
    ensures !HasFlag(StatusByte(s), VX_STATUS_FLAG_HEATING_MODE) ==> FlagReading(SetHeatingModeOn(s, now).state, IsHeatingMode)
    ensures HasFlag(StatusByte(s), VX_STATUS_FLAG_HEATING_MODE) ==> !FlagReading(SetHeatingModeOff(s, now).state, IsHeatingMode)
  {
  }
}
