/**
 * The state of a Vallox Digit SE panel (class Vallox in vallox.py) as a value, and each of
 * its operations as a function from the state before to the state after. The class in
 * vallox_device.dfy updates its fields step by step and is proved to agree with these
 * functions; the lemmas below state what the operations promise.
 *
 * The serial port is `portOpen`, the bytes waiting in its input buffer `rx`, and the frames
 * written to it `tx`. Calls of the status-changed callback and of on_property_changed are
 * recorded, in order, in `events`. Time is a parameter `now`, in milliseconds.
 */
module ValloxModel {
  import opened Wrappers
  import opened ValloxProtocol
  import opened ValloxCodec
  import opened Bytes

  /** The entries of `self.data` that hold a value and a "last received" time, in insertion order. */
  datatype Field =
    | IsOn | IsRhMode | IsHeatingMode | IsFilter | IsHeating | IsFault | IsServiceNeeded
    | IsSummerMode | IsErrorRelay | IsMotorIn | IsFrontHeating | IsMotorOut | IsExtraFunc
    | IsSwitchActive
    | OutsideTemp | InsideTemp | ExhaustTemp | IncomingTemp
    | Rh1 | Rh2 | Co2Hi | Co2Lo | Co2
    | FanSpeed | DefaultFanSpeed | ServicePeriod | ServiceCounter | HeatingTarget
    | Status | Variable08 | Flags06

  /** The names passed to the status-changed callback: the keys of `self.data`, and the boost setting. */
  datatype Key = Updated | DataKey(field: Field) | IsBoostSetting

  /** The keys of `self.data` in insertion order, 'updated' first. */
  const DATA_KEYS: seq<Key> := [
    Updated,
    DataKey(IsOn), DataKey(IsRhMode), DataKey(IsHeatingMode), DataKey(IsFilter),
    DataKey(IsHeating), DataKey(IsFault), DataKey(IsServiceNeeded),
    DataKey(IsSummerMode), DataKey(IsErrorRelay), DataKey(IsMotorIn), DataKey(IsFrontHeating),
    DataKey(IsMotorOut), DataKey(IsExtraFunc), DataKey(IsSwitchActive),
    DataKey(OutsideTemp), DataKey(InsideTemp), DataKey(ExhaustTemp), DataKey(IncomingTemp),
    DataKey(Rh1), DataKey(Rh2), DataKey(Co2Hi), DataKey(Co2Lo), DataKey(Co2),
    DataKey(FanSpeed), DataKey(DefaultFanSpeed), DataKey(ServicePeriod), DataKey(ServiceCounter),
    DataKey(HeatingTarget),
    DataKey(Status), DataKey(Variable08), DataKey(Flags06)
  ]

  /** A stored value: None, a bool, or an int. */
  datatype Value = Unset | Flag(b: bool) | Num(n: int)

  /** ValueWithTimestamp; a `lastReceived` of 0 means never received. */
  datatype Observed = Observed(value: Value, lastReceived: int)

  const NEVER_RECEIVED := Observed(Unset, 0)

  datatype Event =
    | StatusChanged(key: Key)                   // _call_status_changed(name)
    | PropertyChanged(field: Field, value: Value) // on_property_changed(name, value)

  datatype State = State(
    data: map<Field, Observed>,
    updated: int,
    boostSetting: Observed,
    program: Observed,
    fullInitDone: bool,
    statusMutex: bool,
    lastRequested: int,
    lastRetryLoop: int,
    portOpen: bool,
    rx: seq<bv8>,
    tx: seq<Frame>,
    events: seq<Event>)

  /** The outcome of an operation that may raise: the state it leaves, and whether it raised TypeError. */
  datatype Outcome = Outcome(state: State, raised: bool)

  predicate HasAllFields(s: State)
  {
    forall f: Field :: f in s.data
  }

  /** `not x.last_received` is false: the entry has been received. */
  predicate Received(o: Observed)
  {
    o.lastReceived != 0
  }

  /** A raw status byte entry: unset, or an int that fits a byte. */
  predicate ByteValued(v: Value)
  {
    v.Unset? || (v.Num? && 0 <= v.n < 256)
  }

  /** The bus-side part of the state (input, output, port, timers) is the same in `s` and `r`. */
  predicate BusUnchanged(s: State, r: State)
  {
    && r.rx == s.rx && r.tx == s.tx && r.portOpen == s.portOpen
    && r.lastRequested == s.lastRequested && r.lastRetryLoop == s.lastRetryLoop
  }

  /** Every entry received in `s` is still received in `r`. */
  predicate KeepsStamps(s: State, r: State)
    requires HasAllFields(s) && HasAllFields(r)
  {
    forall f: Field :: Received(s.data[f]) ==> Received(r.data[f])
  }

  /** `r` extends `s` with status-changed notifications only. */
  predicate OnlyStatusEvents(s: seq<Event>, r: seq<Event>)
  {
    |s| <= |r| && r[..|s|] == s && forall i :: |s| <= i < |r| ==> r[i].StatusChanged?
  }

  /** An unchanged event list extends itself with status notifications only. */
  lemma NoEventsAreStatusEvents(es: seq<Event>)
    ensures OnlyStatusEvents(es, es)
  {
    assert es[..|es|] == es;
  }

  /**
   * What holds of every state the panel can reach: every entry is present; the temperature,
   * humidity and CO2 entries are never stamped, because their decode branches never set
   * last_received; the raw status bytes fit a byte; and every frame written has a valid checksum.
   */
  predicate Inv(s: State)
  {
    && HasAllFields(s)
    && s.data[OutsideTemp].lastReceived == 0 && s.data[InsideTemp].lastReceived == 0
    && s.data[ExhaustTemp].lastReceived == 0 && s.data[IncomingTemp].lastReceived == 0
    && s.data[Rh1].lastReceived == 0 && s.data[Rh2].lastReceived == 0
    && s.data[Co2].lastReceived == 0
    && ByteValued(s.data[Status].value) && ByteValued(s.data[Variable08].value)
    && ByteValued(s.data[Flags06].value)
    && forall i :: 0 <= i < |s.tx| ==> |s.tx[i]| == VX_MSG_LENGTH && ChecksumValid(s.tx[i])
  }

  /** Vallox.__init__: every entry unset and never received, port not open, nothing pending. */
  function Initial(): (s: State)
    ensures Inv(s)
  {
    AllFieldsComplete();
    State(map f: Field | f in AllFields() :: NEVER_RECEIVED, 0, NEVER_RECEIVED, NEVER_RECEIVED,
          false, false, 0, 0, false, [], [], [])
  }

  function AllFields(): set<Field>
  {
    {IsOn, IsRhMode, IsHeatingMode, IsFilter, IsHeating, IsFault, IsServiceNeeded,
     IsSummerMode, IsErrorRelay, IsMotorIn, IsFrontHeating, IsMotorOut, IsExtraFunc,
     IsSwitchActive, OutsideTemp, InsideTemp, ExhaustTemp, IncomingTemp,
     Rh1, Rh2, Co2Hi, Co2Lo, Co2, FanSpeed, DefaultFanSpeed, ServicePeriod, ServiceCounter,
     HeatingTarget, Status, Variable08, Flags06}
  }

  lemma AllFieldsComplete()
    ensures forall f: Field :: f in AllFields()
  {
    forall f: Field
      ensures f in AllFields()
    {
      match f
        case IsOn =>
        case IsRhMode =>
        case IsHeatingMode =>
        case IsFilter =>
        case IsHeating =>
        case IsFault =>
        case IsServiceNeeded =>
        case IsSummerMode =>
        case IsErrorRelay =>
        case IsMotorIn =>
        case IsFrontHeating =>
        case IsMotorOut =>
        case IsExtraFunc =>
        case IsSwitchActive =>
        case OutsideTemp =>
        case InsideTemp =>
        case ExhaustTemp =>
        case IncomingTemp =>
        case Rh1 =>
        case Rh2 =>
        case Co2Hi =>
        case Co2Lo =>
        case Co2 =>
        case FanSpeed =>
        case DefaultFanSpeed =>
        case ServicePeriod =>
        case ServiceCounter =>
        case HeatingTarget =>
        case Status =>
        case Variable08 =>
        case Flags06 =>
    }
  }

  // ---------------------------------------------------------------------------------------
  // Completeness

  /** _is_status_init_done: all seven status flags, variable 08 and the five settings received. */
  predicate StatusInitDone(s: State)
    requires HasAllFields(s)
    ensures StatusInitDone(s) ==> forall i :: 0 <= i < |RETRY_TABLE| ==> Received(s.data[RETRY_TABLE[i].0])
  {
    && Received(s.data[IsOn]) && Received(s.data[IsRhMode]) && Received(s.data[IsHeatingMode])
    && Received(s.data[Variable08]) && Received(s.data[IsFilter]) && Received(s.data[IsHeating])
    && Received(s.data[IsFault]) && Received(s.data[IsServiceNeeded])
    && Received(s.data[FanSpeed]) && Received(s.data[DefaultFanSpeed])
    && Received(s.data[ServicePeriod]) && Received(s.data[ServiceCounter])
    && Received(s.data[HeatingTarget])
  }

  /** _is_temperature_init_done: all four temperatures received. */
  predicate TemperatureInitDone(s: State)
    requires HasAllFields(s)
    ensures Inv(s) ==> !TemperatureInitDone(s)
  {
    && Received(s.data[OutsideTemp]) && Received(s.data[InsideTemp])
    && Received(s.data[ExhaustTemp]) && Received(s.data[IncomingTemp])
  }

  // ---------------------------------------------------------------------------------------
  // Change dispatch

  /**
   * _check_status_change: store `v` and the update time only when it differs from the stored
   * value; report the change only once full initialisation is done.
   */
  function CheckStatusChange(s: State, f: Field, v: Value, now: int): (r: State)
    requires f in s.data
    ensures r.data == s.data[f := Observed(v, s.data[f].lastReceived)]
    ensures HasAllFields(s) ==> HasAllFields(r)
    ensures s.data[f].value == v ==> r == s
    ensures r.updated == if s.data[f].value != v then now else s.updated
    ensures r.events == s.events + if s.data[f].value != v && s.fullInitDone
                                   then [PropertyChanged(f, v), StatusChanged(DataKey(f))] else []
    ensures r == s.(data := r.data, updated := r.updated, events := r.events)
  {
    if s.data[f].value != v then
      var r := s.(data := s.data[f := s.data[f].(value := v)], updated := now);
      if s.fullInitDone then r.(events := r.events + [PropertyChanged(f, v), StatusChanged(DataKey(f))])
      else r
    else s
  }

  /** `self.data[f].last_received = now`. */
  function Stamp(s: State, f: Field, now: int): (r: State)
    requires f in s.data
    ensures r.data == s.data[f := Observed(s.data[f].value, now)]
    ensures HasAllFields(s) ==> HasAllFields(r)
    ensures r == s.(data := r.data)
  {
    s.(data := s.data[f := s.data[f].(lastReceived := now)])
  }

  /** `self.data[f].value = v; self.data[f].last_received = now` for a raw byte entry. */
  function StoreByte(s: State, f: Field, b: bv8, now: int): (r: State)
    requires f in s.data
    ensures r.data == s.data[f := Observed(Num(b as int), now)]
    ensures HasAllFields(s) ==> HasAllFields(r)
    ensures HasAllFields(s) && now != 0 ==> KeepsStamps(s, r)
    ensures r == s.(data := r.data)
  {
    s.(data := s.data[f := Observed(Num(b as int), now)])
  }

  /** `(byte & mask) != 0`. */
  predicate HasFlag(b: bv8, mask: bv8)
  {
    b & mask != 0
  }

  // ---------------------------------------------------------------------------------------
  // Decoding

  /** `f` is the entry of some row of `table`. */
  predicate InTable(f: Field, table: seq<(Field, bv8)>)
    decreases |table|
  {
    table != [] && (table[0].0 == f || InTable(f, table[1..]))
  }

  /** A table of flag entries and the bit each one reads, with no entry twice. */
  predicate FlagTable(table: seq<(Field, bv8)>)
    decreases |table|
  {
    table == [] || (!InTable(table[0].0, table[1..]) && FlagTable(table[1..]))
  }

  /** The bit that the row of `f` reads. */
  function BitOf(f: Field, table: seq<(Field, bv8)>): bv8
    requires InTable(f, table)
    decreases |table|
  {
    if table[0].0 == f then table[0].1 else BitOf(f, table[1..])
  }

  /** Stamp every entry of `table` with `now`, leaving the values alone. */
  function StampFlags(s: State, table: seq<(Field, bv8)>, now: int): (r: State)
    requires HasAllFields(s)
    ensures HasAllFields(r) && r == s.(data := r.data)
    ensures forall f: Field :: r.data[f].value == s.data[f].value
    ensures now != 0 ==> KeepsStamps(s, r)
    decreases |table|
  {
    if table == [] then s
    else StampFlags(Stamp(s, table[0].0, now), table[1..], now)
  }

  /** StampFlags stamps `f` when it is an entry of `table` and leaves it alone otherwise. */
  lemma {:induction false} StampFlagsEffect(s: State, table: seq<(Field, bv8)>, now: int, f: Field)
    requires HasAllFields(s)
    ensures StampFlags(s, table, now).data[f] == if InTable(f, table) then s.data[f].(lastReceived := now) else s.data[f]
    decreases |table|
  {
    if table != [] {
      StampFlagsEffect(Stamp(s, table[0].0, now), table[1..], now, f);
    }
  }

  /** Run _check_status_change on every entry of `table`, in order, with the bit it reads from `b`. */
  function CheckFlags(s: State, table: seq<(Field, bv8)>, b: bv8, now: int): (r: State)
    requires HasAllFields(s) && FlagTable(table)
    ensures HasAllFields(r) && r == s.(data := r.data, updated := r.updated, events := r.events)
    ensures forall f: Field :: r.data[f].lastReceived == s.data[f].lastReceived
    ensures !s.fullInitDone ==> r.events == s.events
    decreases |table|
  {
    if table == [] then s
    else CheckFlags(CheckStatusChange(s, table[0].0, Flag(HasFlag(b, table[0].1)), now), table[1..], b, now)
  }

  /** CheckFlags gives `f` the bit its row reads when it is an entry of `table`, and leaves it alone otherwise. */
  lemma {:induction false} CheckFlagsEffect(s: State, table: seq<(Field, bv8)>, b: bv8, now: int, f: Field)
    requires HasAllFields(s) && FlagTable(table)
    ensures CheckFlags(s, table, b, now).data[f]
         == if InTable(f, table) then s.data[f].(value := Flag(HasFlag(b, BitOf(f, table)))) else s.data[f]
    decreases |table|
  {
    if table != [] {
      var s1 := CheckStatusChange(s, table[0].0, Flag(HasFlag(b, table[0].1)), now);
      CheckFlagsEffect(s1, table[1..], b, now, f);
    }
  }

  /** One row of StampFlags: stamp the first entry, then the rest of the table. */
  lemma StampFlagsStep(s: State, table: seq<(Field, bv8)>, now: int)
    requires HasAllFields(s) && table != []
    ensures StampFlags(s, table, now) == StampFlags(Stamp(s, table[0].0, now), table[1..], now)
  {
  }

  /** One row of CheckFlags: check the first entry, then the rest of the table. */
  lemma CheckFlagsStep(s: State, table: seq<(Field, bv8)>, b: bv8, now: int)
    requires HasAllFields(s) && FlagTable(table) && table != []
    ensures FlagTable(table[1..])
    ensures CheckFlags(s, table, b, now)
         == CheckFlags(CheckStatusChange(s, table[0].0, Flag(HasFlag(b, table[0].1)), now), table[1..], b, now)
  {
  }

  /** The seven status flags in the order _decode_status reports them, with their bits. */
  const STATUS_FLAGS: seq<(Field, bv8)> := [
    (IsOn, VX_STATUS_FLAG_POWER), (IsRhMode, VX_STATUS_FLAG_RH),
    (IsHeatingMode, VX_STATUS_FLAG_HEATING_MODE), (IsFilter, VX_STATUS_FLAG_FILTER),
    (IsHeating, VX_STATUS_FLAG_HEATING), (IsFault, VX_STATUS_FLAG_FAULT),
    (IsServiceNeeded, VX_STATUS_FLAG_SERVICE)
  ]

  /** The six variable-08 flags in the order _decode_variable08 reports them, with their bits. */
  const VARIABLE08_FLAGS: seq<(Field, bv8)> := [
    (IsSummerMode, VX_08_FLAG_SUMMER_MODE), (IsErrorRelay, VX_08_FLAG_ERROR_RELAY),
    (IsMotorIn, VX_08_FLAG_MOTOR_IN), (IsFrontHeating, VX_08_FLAG_FRONT_HEATING),
    (IsMotorOut, VX_08_FLAG_MOTOR_OUT), (IsExtraFunc, VX_08_FLAG_EXTRA_FUNC)
  ]

  /** Membership in a table is having a row with that entry. */
  lemma {:induction false} InTableAt(f: Field, table: seq<(Field, bv8)>)
    ensures InTable(f, table) <==> exists i :: 0 <= i < |table| && table[i].0 == f
    decreases |table|
  {
    if table != [] {
      InTableAt(f, table[1..]);
      if InTable(f, table[1..]) {
        var i :| 0 <= i < |table[1..]| && table[1..][i].0 == f;
        assert table[i + 1].0 == f;
      }
      if table[0].0 != f && exists i :: 0 <= i < |table| && table[i].0 == f {
        var i :| 0 <= i < |table| && table[i].0 == f;
        assert table[1..][i - 1].0 == f;
      }
    }
  }

  /** In a flag table, the bit found for the entry of row `i` is the bit of row `i`. */
  lemma {:induction false} BitOfAt(table: seq<(Field, bv8)>, i: nat)
    requires FlagTable(table) && i < |table|
    ensures InTable(table[i].0, table) && BitOf(table[i].0, table) == table[i].1
    decreases |table|
  {
    if i > 0 {
      BitOfAt(table[1..], i - 1);
      assert table[1..][i - 1] == table[i];
    }
  }

  /** A flag table is one whose rows name pairwise different entries. */
  lemma {:induction false} FlagTableDistinct(table: seq<(Field, bv8)>)
    ensures FlagTable(table) <==> forall i, j :: 0 <= i < j < |table| ==> table[i].0 != table[j].0
    decreases |table|
  {
    if table != [] {
      FlagTableDistinct(table[1..]);
      InTableAt(table[0].0, table[1..]);
      if forall i, j :: 0 <= i < j < |table| ==> table[i].0 != table[j].0 {
        forall i, j | 0 <= i < j < |table[1..]|
          ensures table[1..][i].0 != table[1..][j].0
        {
          assert table[1..][i] == table[i + 1] && table[1..][j] == table[j + 1];
        }
      }
    }
  }

  lemma FlagTablesDistinct()
    ensures FlagTable(STATUS_FLAGS) && FlagTable(VARIABLE08_FLAGS)
  {
    StatusFlagsDistinct();
    Variable08FlagsDistinct();
  }

  lemma StatusFlagsDistinct()
    ensures FlagTable(STATUS_FLAGS)
  {
    FlagTableDistinct(STATUS_FLAGS);
  }

  lemma Variable08FlagsDistinct()
    ensures FlagTable(VARIABLE08_FLAGS)
  {
    FlagTableDistinct(VARIABLE08_FLAGS);
  }

  lemma StatusFlagsTable()
    ensures forall f: Field :: InTable(f, STATUS_FLAGS) <==>
      f in {IsOn, IsRhMode, IsHeatingMode, IsFilter, IsHeating, IsFault, IsServiceNeeded}
  {
    forall f: Field
      ensures InTable(f, STATUS_FLAGS) <==>
        f in {IsOn, IsRhMode, IsHeatingMode, IsFilter, IsHeating, IsFault, IsServiceNeeded}
    {
      InTableAt(f, STATUS_FLAGS);
      if f in {IsOn, IsRhMode, IsHeatingMode, IsFilter, IsHeating, IsFault, IsServiceNeeded} {
        var i := if f == IsOn then 0 else if f == IsRhMode then 1 else if f == IsHeatingMode then 2
                 else if f == IsFilter then 3 else if f == IsHeating then 4 else if f == IsFault then 5 else 6;
        assert STATUS_FLAGS[i].0 == f;
      }
    }
  }

  lemma Variable08FlagsTable()
    ensures forall f: Field :: InTable(f, VARIABLE08_FLAGS) <==>
      f in {IsSummerMode, IsErrorRelay, IsMotorIn, IsFrontHeating, IsMotorOut, IsExtraFunc}
  {
    forall f: Field
      ensures InTable(f, VARIABLE08_FLAGS) <==>
        f in {IsSummerMode, IsErrorRelay, IsMotorIn, IsFrontHeating, IsMotorOut, IsExtraFunc}
    {
      InTableAt(f, VARIABLE08_FLAGS);
      if f in {IsSummerMode, IsErrorRelay, IsMotorIn, IsFrontHeating, IsMotorOut, IsExtraFunc} {
        var i := if f == IsSummerMode then 0 else if f == IsErrorRelay then 1 else if f == IsMotorIn then 2
                 else if f == IsFrontHeating then 3 else if f == IsMotorOut then 4 else 5;
        assert VARIABLE08_FLAGS[i].0 == f;
      }
    }
  }

  /** StampFlags over STATUS_FLAGS, row by row. */
  lemma StampStatusFlagsUnrolled(s: State, now: int)
    requires HasAllFields(s)
    ensures StampFlags(s, STATUS_FLAGS, now) ==
      var s1 := Stamp(s, IsOn, now);
      var s2 := Stamp(s1, IsRhMode, now);
      var s3 := Stamp(s2, IsHeatingMode, now);
      var s4 := Stamp(s3, IsFilter, now);
      var s5 := Stamp(s4, IsHeating, now);
      var s6 := Stamp(s5, IsFault, now);
      Stamp(s6, IsServiceNeeded, now)
  {
    var t := STATUS_FLAGS;
    assert t[1..][1..] == t[2..] && t[2..][1..] == t[3..] && t[3..][1..] == t[4..]
        && t[4..][1..] == t[5..] && t[5..][1..] == t[6..] && t[6..][1..] == t[7..];
    StampFlagsStep(s, t, now);
    var s1 := Stamp(s, IsOn, now);
    StampFlagsStep(s1, t[1..], now);
    var s2 := Stamp(s1, IsRhMode, now);
    StampFlagsStep(s2, t[2..], now);
    var s3 := Stamp(s2, IsHeatingMode, now);
    StampFlagsStep(s3, t[3..], now);
    var s4 := Stamp(s3, IsFilter, now);
    StampFlagsStep(s4, t[4..], now);
    var s5 := Stamp(s4, IsHeating, now);
    StampFlagsStep(s5, t[5..], now);
    var s6 := Stamp(s5, IsFault, now);
    StampFlagsStep(s6, t[6..], now);
  }

  /** CheckFlags over STATUS_FLAGS, row by row. */
  lemma CheckStatusFlagsUnrolled(s: State, b: bv8, now: int)
    requires HasAllFields(s)
    ensures FlagTable(STATUS_FLAGS)
    ensures CheckFlags(s, STATUS_FLAGS, b, now) ==
      var s1 := CheckStatusChange(s, IsOn, Flag(HasFlag(b, VX_STATUS_FLAG_POWER)), now);
      var s2 := CheckStatusChange(s1, IsRhMode, Flag(HasFlag(b, VX_STATUS_FLAG_RH)), now);
      var s3 := CheckStatusChange(s2, IsHeatingMode, Flag(HasFlag(b, VX_STATUS_FLAG_HEATING_MODE)), now);
      CheckStatusFlagsFromFilter(s3, b, now)
  {
    FlagTablesDistinct();
    var t := STATUS_FLAGS;
    assert t[1..][1..] == t[2..] && t[2..][1..] == t[3..];
    CheckFlagsStep(s, t, b, now);
    var s1 := CheckStatusChange(s, IsOn, Flag(HasFlag(b, VX_STATUS_FLAG_POWER)), now);
    CheckFlagsStep(s1, t[1..], b, now);
    var s2 := CheckStatusChange(s1, IsRhMode, Flag(HasFlag(b, VX_STATUS_FLAG_RH)), now);
    CheckFlagsStep(s2, t[2..], b, now);
    var s3 := CheckStatusChange(s2, IsHeatingMode, Flag(HasFlag(b, VX_STATUS_FLAG_HEATING_MODE)), now);
    CheckStatusFlagsTail(s3, b, now);
  }

  /** The last four rows of CheckFlags over STATUS_FLAGS. */
  function CheckStatusFlagsFromFilter(s3: State, b: bv8, now: int): (r: State)
    requires HasAllFields(s3)
    ensures HasAllFields(r)
  {
    var s4 := CheckStatusChange(s3, IsFilter, Flag(HasFlag(b, VX_STATUS_FLAG_FILTER)), now);
    var s5 := CheckStatusChange(s4, IsHeating, Flag(HasFlag(b, VX_STATUS_FLAG_HEATING)), now);
    var s6 := CheckStatusChange(s5, IsFault, Flag(HasFlag(b, VX_STATUS_FLAG_FAULT)), now);
    CheckStatusChange(s6, IsServiceNeeded, Flag(HasFlag(b, VX_STATUS_FLAG_SERVICE)), now)
  }

  lemma CheckStatusFlagsTail(s3: State, b: bv8, now: int)
    requires HasAllFields(s3)
    ensures FlagTable(STATUS_FLAGS[3..])
    ensures CheckFlags(s3, STATUS_FLAGS[3..], b, now) == CheckStatusFlagsFromFilter(s3, b, now)
  {
    FlagTablesDistinct();
    var t := STATUS_FLAGS;
    assert FlagTable(t[1..]) && FlagTable(t[2..]) && FlagTable(t[3..]);
    assert t[3..][1..] == t[4..] && t[4..][1..] == t[5..] && t[5..][1..] == t[6..] && t[6..][1..] == t[7..];
    CheckFlagsStep(s3, t[3..], b, now);
    var s4 := CheckStatusChange(s3, IsFilter, Flag(HasFlag(b, VX_STATUS_FLAG_FILTER)), now);
    CheckFlagsStep(s4, t[4..], b, now);
    var s5 := CheckStatusChange(s4, IsHeating, Flag(HasFlag(b, VX_STATUS_FLAG_HEATING)), now);
    CheckFlagsStep(s5, t[5..], b, now);
    var s6 := CheckStatusChange(s5, IsFault, Flag(HasFlag(b, VX_STATUS_FLAG_FAULT)), now);
    CheckFlagsStep(s6, t[6..], b, now);
  }

  /** StampFlags over VARIABLE08_FLAGS, row by row. */
  lemma StampVariable08FlagsUnrolled(s: State, now: int)
    requires HasAllFields(s)
    ensures StampFlags(s, VARIABLE08_FLAGS, now) ==
      var s1 := Stamp(s, IsSummerMode, now);
      var s2 := Stamp(s1, IsErrorRelay, now);
      var s3 := Stamp(s2, IsMotorIn, now);
      var s4 := Stamp(s3, IsFrontHeating, now);
      var s5 := Stamp(s4, IsMotorOut, now);
      Stamp(s5, IsExtraFunc, now)
  {
    var t := VARIABLE08_FLAGS;
    assert t[1..][1..] == t[2..] && t[2..][1..] == t[3..] && t[3..][1..] == t[4..]
        && t[4..][1..] == t[5..] && t[5..][1..] == t[6..];
    StampFlagsStep(s, t, now);
    var s1 := Stamp(s, IsSummerMode, now);
    StampFlagsStep(s1, t[1..], now);
    var s2 := Stamp(s1, IsErrorRelay, now);
    StampFlagsStep(s2, t[2..], now);
    var s3 := Stamp(s2, IsMotorIn, now);
    StampFlagsStep(s3, t[3..], now);
    var s4 := Stamp(s3, IsFrontHeating, now);
    StampFlagsStep(s4, t[4..], now);
    var s5 := Stamp(s4, IsMotorOut, now);
    StampFlagsStep(s5, t[5..], now);
  }

  /** CheckFlags over VARIABLE08_FLAGS, row by row. */
  lemma CheckVariable08FlagsUnrolled(s: State, b: bv8, now: int)
    requires HasAllFields(s)
    ensures FlagTable(VARIABLE08_FLAGS)
    ensures CheckFlags(s, VARIABLE08_FLAGS, b, now) ==
      var s1 := CheckStatusChange(s, IsSummerMode, Flag(HasFlag(b, VX_08_FLAG_SUMMER_MODE)), now);
      var s2 := CheckStatusChange(s1, IsErrorRelay, Flag(HasFlag(b, VX_08_FLAG_ERROR_RELAY)), now);
      var s3 := CheckStatusChange(s2, IsMotorIn, Flag(HasFlag(b, VX_08_FLAG_MOTOR_IN)), now);
      CheckVariable08FlagsFromFrontHeating(s3, b, now)
  {
    FlagTablesDistinct();
    var t := VARIABLE08_FLAGS;
    assert t[1..][1..] == t[2..] && t[2..][1..] == t[3..];
    CheckFlagsStep(s, t, b, now);
    var s1 := CheckStatusChange(s, IsSummerMode, Flag(HasFlag(b, VX_08_FLAG_SUMMER_MODE)), now);
    CheckFlagsStep(s1, t[1..], b, now);
    var s2 := CheckStatusChange(s1, IsErrorRelay, Flag(HasFlag(b, VX_08_FLAG_ERROR_RELAY)), now);
    CheckFlagsStep(s2, t[2..], b, now);
    var s3 := CheckStatusChange(s2, IsMotorIn, Flag(HasFlag(b, VX_08_FLAG_MOTOR_IN)), now);
    CheckVariable08FlagsTail(s3, b, now);
  }

  /** The last three rows of CheckFlags over VARIABLE08_FLAGS. */
  function CheckVariable08FlagsFromFrontHeating(s3: State, b: bv8, now: int): (r: State)
    requires HasAllFields(s3)
    ensures HasAllFields(r)
  {
    var s4 := CheckStatusChange(s3, IsFrontHeating, Flag(HasFlag(b, VX_08_FLAG_FRONT_HEATING)), now);
    var s5 := CheckStatusChange(s4, IsMotorOut, Flag(HasFlag(b, VX_08_FLAG_MOTOR_OUT)), now);
    CheckStatusChange(s5, IsExtraFunc, Flag(HasFlag(b, VX_08_FLAG_EXTRA_FUNC)), now)
  }

  lemma CheckVariable08FlagsTail(s3: State, b: bv8, now: int)
    requires HasAllFields(s3)
    ensures FlagTable(VARIABLE08_FLAGS[3..])
    ensures CheckFlags(s3, VARIABLE08_FLAGS[3..], b, now) == CheckVariable08FlagsFromFrontHeating(s3, b, now)
  {
    FlagTablesDistinct();
    var t := VARIABLE08_FLAGS;
    assert FlagTable(t[1..]) && FlagTable(t[2..]) && FlagTable(t[3..]);
    assert t[3..][1..] == t[4..] && t[4..][1..] == t[5..] && t[5..][1..] == t[6..];
    CheckFlagsStep(s3, t[3..], b, now);
    var s4 := CheckStatusChange(s3, IsFrontHeating, Flag(HasFlag(b, VX_08_FLAG_FRONT_HEATING)), now);
    CheckFlagsStep(s4, t[4..], b, now);
    var s5 := CheckStatusChange(s4, IsMotorOut, Flag(HasFlag(b, VX_08_FLAG_MOTOR_OUT)), now);
    CheckFlagsStep(s5, t[5..], b, now);
  }

  /**
   * The shape shared by _decode_status and _decode_variable08: stamp every flag of `table`,
   * store the raw byte in `byteField`, then check each flag against its bit of the byte.
   */
  function FlagByte(s: State, table: seq<(Field, bv8)>, byteField: Field, b: bv8, now: int): (r: State)
    requires HasAllFields(s) && FlagTable(table)
    ensures HasAllFields(r) && BusUnchanged(s, r) && r.fullInitDone == s.fullInitDone
    ensures r.statusMutex == s.statusMutex && r.boostSetting == s.boostSetting && r.program == s.program
    ensures !s.fullInitDone ==> r.events == s.events
    ensures now != 0 ==> KeepsStamps(s, r)
  {
    CheckFlags(StoreByte(StampFlags(s, table, now), byteField, b, now), table, b, now)
  }

  /** _decode_status: stamp the seven flags and the raw byte, store each flag's bit, release the write guard. */
  function DecodeStatus(s: State, status: bv8, now: int): (r: State)
    requires HasAllFields(s)
    ensures HasAllFields(r) && BusUnchanged(s, r) && r.fullInitDone == s.fullInitDone
    ensures !s.fullInitDone ==> r.events == s.events
    ensures now != 0 ==> KeepsStamps(s, r)
    ensures !r.statusMutex
  {
    FlagTablesDistinct();
    FlagByte(s, STATUS_FLAGS, Status, status, now).(statusMutex := false)
  }

  /** _decode_variable08: stamp the six flags and the raw byte, store each flag's bit. */
  function DecodeVariable08(s: State, variable08: bv8, now: int): (r: State)
    requires HasAllFields(s)
    ensures HasAllFields(r) && BusUnchanged(s, r) && r.fullInitDone == s.fullInitDone
    ensures !s.fullInitDone ==> r.events == s.events
    ensures now != 0 ==> KeepsStamps(s, r)
  {
    FlagTablesDistinct();
    FlagByte(s, VARIABLE08_FLAGS, Variable08, variable08, now)
  }

  /** _decode_flags06: stamp the switch flag and the raw byte, store the "switch active" bit. */
  function DecodeFlags06(s: State, flags06: bv8, now: int): (r: State)
    requires HasAllFields(s)
    ensures HasAllFields(r) && BusUnchanged(s, r) && r.fullInitDone == s.fullInitDone
    ensures !s.fullInitDone ==> r.events == s.events
    ensures now != 0 ==> KeepsStamps(s, r)
  {
    var s1 := StoreByte(Stamp(s, IsSwitchActive, now), Flags06, flags06, now);
    CheckStatusChange(s1, IsSwitchActive, Flag(HasFlag(flags06, VX_06_FIREPLACE_FLAG_IS_ACTIVE)), now)
  }

  /**
   * _decode_program: store the program byte and the switch type (boost or fireplace); report
   * the switch type when it changed or was never received before, whatever the init state.
   */
  function DecodeProgram(s: State, program: bv8, now: int): (r: State)
    ensures r.data == s.data && BusUnchanged(s, r) && r.fullInitDone == s.fullInitDone
    ensures OnlyStatusEvents(s.events, r.events)
  {
    var shouldInform := !Received(s.boostSetting);
    var newValue := Flag(HasFlag(program, VX_PROGRAM_SWITCH_TYPE));
    var s1 := s.(boostSetting := s.boostSetting.(lastReceived := now),
                 program := Observed(Num(program as int), now));
    if s.boostSetting.value != newValue then
      s1.(boostSetting := s1.boostSetting.(value := newValue),
          events := s1.events + [StatusChanged(IsBoostSetting)])
    else if shouldInform then
      s1.(events := s1.events + [StatusChanged(IsBoostSetting)])
    else s1
  }

  /** _handle_co2_total_value: CO2 is `lo + (hi << 8)`; a half that was never received raises TypeError. */
  function HandleCo2TotalValue(s: State, hi: Value, lo: Value, now: int): (r: Outcome)
    requires HasAllFields(s)
    ensures HasAllFields(r.state) && BusUnchanged(s, r.state) && r.state.fullInitDone == s.fullInitDone
    ensures !s.fullInitDone ==> r.state.events == s.events
    ensures now != 0 ==> KeepsStamps(s, r.state)
    ensures r.raised <==> !(hi.Num? && lo.Num?)
    ensures r.raised ==> r.state == s
    ensures !r.raised ==> r.state.data == s.data[Co2 := Observed(Num(lo.n + hi.n * 256), s.data[Co2].lastReceived)]
  {
    if hi.Num? && lo.Num? then Outcome(CheckStatusChange(s, Co2, Num(lo.n + hi.n * 256), now), false)
    else Outcome(s, true)
  }

  /**
   * One CO2 half-byte: store and stamp it, then assemble the total when the other half was
   * stamped less than CO2_LIFE_TIME_MS ago.
   */
  function DecodeCo2Half(s: State, half: Field, other: Field, value: bv8, now: int): (r: Outcome)
    requires HasAllFields(s) && half in {Co2Hi, Co2Lo} && other in {Co2Hi, Co2Lo} && half != other
    ensures HasAllFields(r.state) && BusUnchanged(s, r.state) && r.state.fullInitDone == s.fullInitDone
    ensures !s.fullInitDone ==> r.state.events == s.events
    ensures now != 0 ==> KeepsStamps(s, r.state)
    ensures r.state.data[half] == Observed(Num(value as int), now) && r.state.data[other] == s.data[other]
    ensures var inWindow := now - s.data[other].lastReceived < CO2_LIFE_TIME_MS;
      && (r.raised <==> inWindow && !s.data[other].value.Num?)
      && r.state.data[Co2].value ==
           if inWindow && s.data[other].value.Num? then
             (if half == Co2Hi then Num(s.data[other].value.n + value as int * 256)
              else Num(value as int + s.data[other].value.n * 256))
           else s.data[Co2].value
  {
    var s1 := StoreByte(s, half, value, now);
    if now - s.data[other].lastReceived < CO2_LIFE_TIME_MS then
      HandleCo2TotalValue(s1, s1.data[Co2Hi].value, s1.data[Co2Lo].value, now)
    else Outcome(s1, false)
  }

  /** A temperature or humidity frame: stored through _check_status_change, never stamped. */
  function DecodeReading(s: State, f: Field, v: Value, now: int): (r: State)
    requires HasAllFields(s)
    ensures HasAllFields(r) && BusUnchanged(s, r) && r.fullInitDone == s.fullInitDone
    ensures r.data == s.data[f := Observed(v, s.data[f].lastReceived)]
    ensures !s.fullInitDone ==> r.events == s.events
    ensures KeepsStamps(s, r)
  {
    CheckStatusChange(s, f, v, now)
  }

  /** A settings frame (fan speeds, service months, heating target): stamped, then stored through _check_status_change. */
  function DecodeSetting(s: State, f: Field, v: Value, now: int): (r: State)
    requires HasAllFields(s)
    ensures HasAllFields(r) && BusUnchanged(s, r) && r.fullInitDone == s.fullInitDone
    ensures r.data == s.data[f := Observed(v, now)]
    ensures !s.fullInitDone ==> r.events == s.events
    ensures now != 0 ==> KeepsStamps(s, r)
  {
    CheckStatusChange(Stamp(s, f, now), f, v, now)
  }

  /** The elif chain of _decode_message on the variable byte: the measurements (temperatures, humidity, CO2) here, the configuration variables in DecodeConfiguration. RH2 raises TypeError (a two-argument call given three). */
  function DecodeVariable(s: State, variable: bv8, value: bv8, now: int): (r: Outcome)
    requires HasAllFields(s)
    ensures HasAllFields(r.state) && BusUnchanged(s, r.state) && r.state.fullInitDone == s.fullInitDone
    ensures !s.fullInitDone ==> OnlyStatusEvents(s.events, r.state.events)
    ensures now != 0 ==> KeepsStamps(s, r.state)
  {
    NoEventsAreStatusEvents(s.events);
    if variable == VX_VARIABLE_T_OUTSIDE then
      Outcome(DecodeReading(s, OutsideTemp, Num(NtcToCel(value as int)), now), false)
    else if variable == VX_VARIABLE_T_EXHAUST then
      Outcome(DecodeReading(s, ExhaustTemp, Num(NtcToCel(value as int)), now), false)
    else if variable == VX_VARIABLE_T_INSIDE then
      Outcome(DecodeReading(s, InsideTemp, Num(NtcToCel(value as int)), now), false)
    else if variable == VX_VARIABLE_T_INCOMING then
      Outcome(DecodeReading(s, IncomingTemp, Num(NtcToCel(value as int)), now), false)
    else if variable == VX_VARIABLE_RH1 then
      Outcome(DecodeReading(s, Rh1, Num(HexToRh(value)), now), false)
    else if variable == VX_VARIABLE_RH2 then
      Outcome(s, true)
    else if variable == VX_VARIABLE_CO2_HI then
      DecodeCo2Half(s, Co2Hi, Co2Lo, value, now)
    else if variable == VX_VARIABLE_CO2_LO then
      DecodeCo2Half(s, Co2Lo, Co2Hi, value, now)
    else DecodeConfiguration(s, variable, value, now)
  }

  /** The configuration branches of the elif chain of _decode_message; a variable it does not name is ignored. */
  function DecodeConfiguration(s: State, variable: bv8, value: bv8, now: int): (r: Outcome)
    requires HasAllFields(s)
    ensures HasAllFields(r.state) && BusUnchanged(s, r.state) && r.state.fullInitDone == s.fullInitDone
    ensures !s.fullInitDone ==> OnlyStatusEvents(s.events, r.state.events)
    ensures now != 0 ==> KeepsStamps(s, r.state)
  {
    NoEventsAreStatusEvents(s.events);
    if variable == VX_VARIABLE_FAN_SPEED then
      Outcome(DecodeSetting(s, FanSpeed, Num(HexToFanSpeed(value)), now), false)
    else if variable == VX_VARIABLE_DEFAULT_FAN_SPEED then
      Outcome(DecodeSetting(s, DefaultFanSpeed, Num(HexToFanSpeed(value)), now), false)
    else if variable == VX_VARIABLE_STATUS then
      Outcome(DecodeStatus(s, value, now), false)
    else if variable == VX_VARIABLE_IO_08 then
      Outcome(DecodeVariable08(s, value, now), false)
    else if variable == VX_VARIABLE_FLAGS_06 then
      Outcome(DecodeFlags06(s, value, now), false)
    else if variable == VX_VARIABLE_SERVICE_PERIOD then
      Outcome(DecodeSetting(s, ServicePeriod, Num(value as int), now), false)
    else if variable == VX_VARIABLE_SERVICE_COUNTER then
      Outcome(DecodeSetting(s, ServiceCounter, Num(value as int), now), false)
    else if variable == VX_VARIABLE_HEATING_TARGET then
      Outcome(DecodeSetting(s, HeatingTarget, Num(NtcToCel(value as int)), now), false)
    else if variable == VX_VARIABLE_PROGRAM then
      Outcome(DecodeProgram(s, value, now), false)
    else Outcome(s, false)
  }

  /** The 32 synthetic notifications, one per key of `self.data` in insertion order. */
  function InitialBurst(): (es: seq<Event>)
    ensures |es| == |DATA_KEYS| == 32
    ensures forall i :: 0 <= i < |es| ==> es[i] == StatusChanged(DATA_KEYS[i])
  {
    seq(|DATA_KEYS|, i requires 0 <= i < |DATA_KEYS| => StatusChanged(DATA_KEYS[i]))
  }

  /** The tail of _decode_message: the first time the status entries are complete, set full_init_done and report every key. */
  function CompleteInit(s: State): (r: State)
    requires HasAllFields(s)
    ensures r == s.(fullInitDone := r.fullInitDone, events := r.events)
    ensures r.fullInitDone <==> s.fullInitDone || StatusInitDone(s)
    ensures r.events == s.events + if !s.fullInitDone && StatusInitDone(s) then InitialBurst() else []
  {
    if !s.fullInitDone && StatusInitDone(s) then
      s.(fullInitDone := true, events := s.events + InitialBurst())
    else s
  }

  /** _decode_message: drop a frame whose checksum fails; otherwise dispatch it and check completeness. */
  function DecodeMessage(s: State, m: Frame, now: int): (r: Outcome)
    requires HasAllFields(s) && |m| == VX_MSG_LENGTH
    ensures HasAllFields(r.state) && BusUnchanged(s, r.state)
    ensures s.fullInitDone ==> r.state.fullInitDone
    ensures now != 0 ==> KeepsStamps(s, r.state)
    ensures !ChecksumValid(m) ==> r == Outcome(s, false)
  {
    if !ChecksumValid(m) then Outcome(s, false)
    else
      var d := DecodeVariable(s, m[3], m[4], now);
      if d.raised then d else Outcome(CompleteInit(d.state), false)
  }

  // ---------------------------------------------------------------------------------------
  // Serial input and output

  /** _read_message: nothing from a closed port; otherwise ReadFrame on the waiting bytes. */
  function ReadMessage(s: State): (r: (State, Option<Frame>))
    ensures r.0 == s.(rx := r.0.rx) && |r.0.rx| <= |s.rx|
    ensures r.1.Some? ==> |r.1.value| == VX_MSG_LENGTH && |r.0.rx| < |s.rx|
    ensures !s.portOpen ==> r == (s, None)
    ensures s.portOpen ==> r.0.rx == s.rx[ReadFrame(s.rx).consumed..] && r.1 == ReadFrame(s.rx).frame
    ensures r.1.Some? ==> r.1.value[0] == VX_MSG_DOMAIN && s.rx == r.1.value + r.0.rx
  {
    if !s.portOpen then (s, None)
    else
      var o := ReadFrame(s.rx);
      (s.(rx := s.rx[o.consumed..]), o.frame)
  }

  /** _set_variable: on an open port, the frame to `target` and its copy to the panels; nothing on a closed one. */
  function SetVariable(s: State, variable: bv8, value: bv8, target: bv8): (r: State)
    ensures r == s.(tx := r.tx)
    ensures r.tx == s.tx + if s.portOpen then SetFrames(variable, value, target) else []
  {
    if s.portOpen then s.(tx := s.tx + SetFrames(variable, value, target)) else s
  }

  /** _request_variable: on an open port, one poll frame for `variable`; nothing on a closed one. */
  function RequestVariable(s: State, variable: bv8): (r: State)
    ensures r == s.(tx := r.tx)
    ensures r.tx == s.tx + if s.portOpen then [RequestFrame(variable)] else []
  {
    if s.portOpen then s.(tx := s.tx + [RequestFrame(variable)]) else s
  }

  /** The variables request_config asks for, in order. */
  const CONFIG_VARIABLES: seq<bv8> := [
    VX_VARIABLE_STATUS, VX_VARIABLE_IO_08, VX_VARIABLE_FAN_SPEED, VX_VARIABLE_DEFAULT_FAN_SPEED,
    VX_VARIABLE_RH1, VX_VARIABLE_SERVICE_PERIOD, VX_VARIABLE_SERVICE_COUNTER,
    VX_VARIABLE_HEATING_TARGET, VX_VARIABLE_FLAGS_06, VX_VARIABLE_PROGRAM
  ]

  /** The poll frames for `vs`, in order. */
  function RequestFrames(vs: seq<bv8>): (fs: seq<Frame>)
    ensures |fs| == |vs|
  {
    if vs == [] then [] else [RequestFrame(vs[0])] + RequestFrames(vs[1..])
  }

  /** Frame `i` of RequestFrames(vs) polls `vs[i]`. */
  lemma {:induction false} RequestFramesAt(vs: seq<bv8>, i: nat)
    requires i < |vs|
    ensures RequestFrames(vs)[i] == RequestFrame(vs[i])
    decreases i
  {
    if i > 0 {
      RequestFramesAt(vs[1..], i - 1);
    }
  }

  /** _request_variable for each of `vs`, in order. */
  function RequestAll(s: State, vs: seq<bv8>): (r: State)
    ensures r == s.(tx := r.tx)
    decreases |vs|
  {
    if vs == [] then s else RequestAll(RequestVariable(s, vs[0]), vs[1..])
  }

  /** RequestAll writes the poll frames of `vs`, in order, on an open port, and nothing on a closed one. */
  lemma {:induction false} RequestAllFrames(s: State, vs: seq<bv8>)
    ensures RequestAll(s, vs).tx == s.tx + if s.portOpen then RequestFrames(vs) else []
    decreases |vs|
  {
    if vs != [] {
      RequestAllFrames(RequestVariable(s, vs[0]), vs[1..]);
      assert RequestFrames(vs) == [RequestFrame(vs[0])] + RequestFrames(vs[1..]);
    }
  }

  /** One step of RequestAll: poll the first variable, then the rest. */
  lemma RequestAllStep(s: State, vs: seq<bv8>)
    requires vs != []
    ensures RequestAll(s, vs) == RequestAll(RequestVariable(s, vs[0]), vs[1..])
  {
  }

  /** request_config: the ten _send_*_req calls, in the order of CONFIG_VARIABLES, then stamp `updated` and `last_requested`. */
  function RequestConfig(s: State, now: int): (r: State)
    ensures r == s.(tx := r.tx, updated := now, lastRequested := now)
  {
    var s1 := RequestVariable(RequestVariable(RequestVariable(s, VX_VARIABLE_STATUS), VX_VARIABLE_IO_08),
                              VX_VARIABLE_FAN_SPEED);
    var s2 := RequestVariable(RequestVariable(s1, VX_VARIABLE_DEFAULT_FAN_SPEED), VX_VARIABLE_RH1);
    var s3 := RequestVariable(RequestVariable(s2, VX_VARIABLE_SERVICE_PERIOD), VX_VARIABLE_SERVICE_COUNTER);
    var s4 := RequestVariable(RequestVariable(RequestVariable(s3, VX_VARIABLE_HEATING_TARGET), VX_VARIABLE_FLAGS_06),
                              VX_VARIABLE_PROGRAM);
    s4.(updated := now, lastRequested := now)
  }

  /** The first five calls of request_config poll the first five configuration variables. */
  lemma RequestConfigFirstHalf(s: State)
    ensures RequestAll(s, CONFIG_VARIABLES)
         == RequestAll(RequestVariable(RequestVariable(RequestVariable(RequestVariable(RequestVariable(s,
              VX_VARIABLE_STATUS), VX_VARIABLE_IO_08), VX_VARIABLE_FAN_SPEED), VX_VARIABLE_DEFAULT_FAN_SPEED),
              VX_VARIABLE_RH1), CONFIG_VARIABLES[5..])
  {
    var s1 := RequestVariable(s, VX_VARIABLE_STATUS);
    var s2 := RequestVariable(s1, VX_VARIABLE_IO_08);
    var s3 := RequestVariable(s2, VX_VARIABLE_FAN_SPEED);
    var s4 := RequestVariable(s3, VX_VARIABLE_DEFAULT_FAN_SPEED);
    RequestAllStep(s, CONFIG_VARIABLES);
    RequestAllStep(s1, CONFIG_VARIABLES[1..]);
    RequestAllStep(s2, CONFIG_VARIABLES[2..]);
    RequestAllStep(s3, CONFIG_VARIABLES[3..]);
    RequestAllStep(s4, CONFIG_VARIABLES[4..]);
  }

  /** The last five calls of request_config poll the last five configuration variables. */
  lemma RequestConfigSecondHalf(s: State)
    ensures RequestAll(s, CONFIG_VARIABLES[5..])
         == RequestVariable(RequestVariable(RequestVariable(RequestVariable(RequestVariable(s,
              VX_VARIABLE_SERVICE_PERIOD), VX_VARIABLE_SERVICE_COUNTER), VX_VARIABLE_HEATING_TARGET),
              VX_VARIABLE_FLAGS_06), VX_VARIABLE_PROGRAM)
  {
    var s1 := RequestVariable(s, VX_VARIABLE_SERVICE_PERIOD);
    var s2 := RequestVariable(s1, VX_VARIABLE_SERVICE_COUNTER);
    var s3 := RequestVariable(s2, VX_VARIABLE_HEATING_TARGET);
    var s4 := RequestVariable(s3, VX_VARIABLE_FLAGS_06);
    RequestAllStep(s, CONFIG_VARIABLES[5..]);
    RequestAllStep(s1, CONFIG_VARIABLES[6..]);
    RequestAllStep(s2, CONFIG_VARIABLES[7..]);
    RequestAllStep(s3, CONFIG_VARIABLES[8..]);
    RequestAllStep(s4, CONFIG_VARIABLES[9..]);
    assert CONFIG_VARIABLES[10..] == [];
  }

  /** request_config is _request_variable for each of CONFIG_VARIABLES, in order. */
  lemma RequestConfigIsRequestAll(s: State, now: int)
    ensures RequestConfig(s, now) == RequestAll(s, CONFIG_VARIABLES).(updated := now, lastRequested := now)
  {
    RequestConfigFirstHalf(s);
    var s5 := RequestVariable(RequestVariable(RequestVariable(RequestVariable(RequestVariable(s,
              VX_VARIABLE_STATUS), VX_VARIABLE_IO_08), VX_VARIABLE_FAN_SPEED), VX_VARIABLE_DEFAULT_FAN_SPEED),
              VX_VARIABLE_RH1);
    RequestConfigSecondHalf(s5);
  }

  /** The seven entries the retry pass tracks, with the variable that is requested when one is missing. */
  const RETRY_TABLE: seq<(Field, bv8)> := [
    (IsOn, VX_VARIABLE_STATUS), (Variable08, VX_VARIABLE_IO_08), (FanSpeed, VX_VARIABLE_FAN_SPEED),
    (DefaultFanSpeed, VX_VARIABLE_DEFAULT_FAN_SPEED), (ServicePeriod, VX_VARIABLE_SERVICE_PERIOD),
    (ServiceCounter, VX_VARIABLE_SERVICE_COUNTER), (HeatingTarget, VX_VARIABLE_HEATING_TARGET)
  ]

  /** The variables of `table` whose entry in `data` was never received, in table order. */
  function MissingVariables(data: map<Field, Observed>, table: seq<(Field, bv8)>): (vs: seq<bv8>)
    requires forall f: Field :: f in data
  {
    if table == [] then []
    else (if Received(data[table[0].0]) then [] else [table[0].1]) + MissingVariables(data, table[1..])
  }

  /** MissingVariables asks for exactly the variables whose entries are missing: nothing received, nothing twice when the table has each variable once. */
  lemma {:induction false} MissingVariablesExact(data: map<Field, Observed>, table: seq<(Field, bv8)>)
    requires forall f: Field :: f in data
    ensures var vs := MissingVariables(data, table);
      && |vs| <= |table|
      && (forall v :: v in vs ==> exists i :: 0 <= i < |table| && table[i].1 == v && !Received(data[table[i].0]))
      && (forall i :: 0 <= i < |table| && !Received(data[table[i].0]) ==> table[i].1 in vs)
    decreases |table|
  {
    if table != [] {
      MissingVariablesExact(data, table[1..]);
      assert forall i :: 1 <= i < |table| ==> table[i] == table[1..][i - 1];
    }
  }

  /** The poll frames of two lists of variables, one after the other, are the poll frames of the joined list. */
  lemma {:induction false} RequestFramesAppend(a: seq<bv8>, b: seq<bv8>)
    ensures RequestFrames(a + b) == RequestFrames(a) + RequestFrames(b)
    decreases |a|
  {
    if a == [] {
      assert a + b == b;
    } else {
      var head := [RequestFrame(a[0])];
      assert (a + b)[0] == a[0] && (a + b)[1..] == a[1..] + b;
      RequestFramesAppend(a[1..], b);
      calc {
        RequestFrames(a + b);
        head + RequestFrames(a[1..] + b);
        head + (RequestFrames(a[1..]) + RequestFrames(b));
        (head + RequestFrames(a[1..])) + RequestFrames(b);
        RequestFrames(a) + RequestFrames(b);
      }
    }
  }

  /** The `if not ....last_received: _send_..._req()` chain over `table`, row by row. */
  function RequestMissing(s: State, table: seq<(Field, bv8)>): (r: State)
    requires HasAllFields(s)
    ensures r == s.(tx := r.tx)
    decreases |table|
  {
    if table == [] then s
    else RequestMissing(if Received(s.data[table[0].0]) then s else RequestVariable(s, table[0].1), table[1..])
  }

  /** RequestMissing polls exactly the missing variables of `table`, in order. */
  lemma {:induction false} RequestMissingIsRequestAll(s: State, table: seq<(Field, bv8)>)
    requires HasAllFields(s)
    ensures RequestMissing(s, table) == RequestAll(s, MissingVariables(s.data, table))
    decreases |table|
  {
    if table != [] {
      var s1 := if Received(s.data[table[0].0]) then s else RequestVariable(s, table[0].1);
      assert s1.data == s.data;
      RequestMissingIsRequestAll(s1, table[1..]);
      var tail := MissingVariables(s.data, table[1..]);
      if Received(s.data[table[0].0]) {
        assert MissingVariables(s.data, table) == [] + tail == tail;
      } else {
        var vs := [table[0].1] + tail;
        assert MissingVariables(s.data, table) == vs;
        assert vs[0] == table[0].1 && vs[1..] == tail;
      }
    }
  }

  /** RequestMissing writes the poll frames of the missing variables of `table`, in order, on an open port. */
  lemma RequestMissingFrames(s: State, table: seq<(Field, bv8)>)
    requires HasAllFields(s)
    ensures RequestMissing(s, table).tx == s.tx + if s.portOpen then RequestFrames(MissingVariables(s.data, table)) else []
  {
    RequestMissingIsRequestAll(s, table);
    RequestAllFrames(s, MissingVariables(s.data, table));
  }

  /** One row of RequestMissing: poll the first entry when it is missing, then the rest of the table. */
  lemma RequestMissingStep(s: State, table: seq<(Field, bv8)>)
    requires HasAllFields(s) && table != []
    ensures RequestMissing(s, table)
         == RequestMissing(if Received(s.data[table[0].0]) then s else RequestVariable(s, table[0].1), table[1..])
  {
  }

  /** One `if not self.data[f].last_received: _send_..._req()` of _send_missing_requests. */
  function RequestIfMissing(s: State, f: Field, variable: bv8): (r: State)
    requires f in s.data
    ensures r == s.(tx := r.tx)
    ensures r.tx == s.tx + if s.portOpen && !Received(s.data[f]) then [RequestFrame(variable)] else []
  {
    if Received(s.data[f]) then s else RequestVariable(s, variable)
  }

  /** _send_missing_requests: poll each of the seven tracked entries that was never received, in the order of RETRY_TABLE. */
  function SendMissingRequests(s: State): (r: State)
    requires HasAllFields(s)
    ensures r == s.(tx := r.tx)
    ensures !s.portOpen ==> r.tx == s.tx
  {
    var s1 := RequestIfMissing(RequestIfMissing(s, IsOn, VX_VARIABLE_STATUS), Variable08, VX_VARIABLE_IO_08);
    var s2 := RequestIfMissing(RequestIfMissing(s1, FanSpeed, VX_VARIABLE_FAN_SPEED),
                               DefaultFanSpeed, VX_VARIABLE_DEFAULT_FAN_SPEED);
    var s3 := RequestIfMissing(RequestIfMissing(s2, ServicePeriod, VX_VARIABLE_SERVICE_PERIOD),
                               ServiceCounter, VX_VARIABLE_SERVICE_COUNTER);
    RequestIfMissing(s3, HeatingTarget, VX_VARIABLE_HEATING_TARGET)
  }

  /** One row of RequestMissing is one RequestIfMissing. */
  lemma RequestMissingRow(s: State, table: seq<(Field, bv8)>)
    requires HasAllFields(s) && table != []
    ensures RequestMissing(s, table) == RequestMissing(RequestIfMissing(s, table[0].0, table[0].1), table[1..])
  {
    RequestMissingStep(s, table);
  }

  /** The first four rows of _send_missing_requests are the first four rows of RETRY_TABLE. */
  lemma SendMissingFirstHalf(s: State)
    requires HasAllFields(s)
    ensures var s2 := RequestIfMissing(RequestIfMissing(s, IsOn, VX_VARIABLE_STATUS), Variable08, VX_VARIABLE_IO_08);
            var s4 := RequestIfMissing(RequestIfMissing(s2, FanSpeed, VX_VARIABLE_FAN_SPEED),
                                       DefaultFanSpeed, VX_VARIABLE_DEFAULT_FAN_SPEED);
            RequestMissing(s, RETRY_TABLE) == RequestMissing(s4, RETRY_TABLE[4..])
  {
    var t := RETRY_TABLE;
    var s1 := RequestIfMissing(s, IsOn, VX_VARIABLE_STATUS);
    var s2 := RequestIfMissing(s1, Variable08, VX_VARIABLE_IO_08);
    var s3 := RequestIfMissing(s2, FanSpeed, VX_VARIABLE_FAN_SPEED);
    RequestMissingRow(s, t);
    assert t[1..][1..] == t[2..] && t[2..][1..] == t[3..] && t[3..][1..] == t[4..];
    RequestMissingRow(s1, t[1..]);
    RequestMissingRow(s2, t[2..]);
    RequestMissingRow(s3, t[3..]);
  }

  /** The last three rows of _send_missing_requests are the rest of RETRY_TABLE. */
  lemma SendMissingSecondHalf(s4: State)
    requires HasAllFields(s4)
    ensures var s6 := RequestIfMissing(RequestIfMissing(s4, ServicePeriod, VX_VARIABLE_SERVICE_PERIOD),
                                       ServiceCounter, VX_VARIABLE_SERVICE_COUNTER);
            RequestMissing(s4, RETRY_TABLE[4..]) == RequestIfMissing(s6, HeatingTarget, VX_VARIABLE_HEATING_TARGET)
  {
    var t := RETRY_TABLE;
    var s5 := RequestIfMissing(s4, ServicePeriod, VX_VARIABLE_SERVICE_PERIOD);
    var s6 := RequestIfMissing(s5, ServiceCounter, VX_VARIABLE_SERVICE_COUNTER);
    assert t[4..][1..] == t[5..] && t[5..][1..] == t[6..] && t[6..][1..] == [];
    RequestMissingRow(s4, t[4..]);
    RequestMissingRow(s5, t[5..]);
    RequestMissingRow(s6, t[6..]);
  }

  /** _send_missing_requests is RequestMissing over RETRY_TABLE. */
  lemma SendMissingRequestsIsRequestMissing(s: State)
    requires HasAllFields(s)
    ensures SendMissingRequests(s) == RequestMissing(s, RETRY_TABLE)
  {
    SendMissingFirstHalf(s);
    var s2 := RequestIfMissing(RequestIfMissing(s, IsOn, VX_VARIABLE_STATUS), Variable08, VX_VARIABLE_IO_08);
    var s4 := RequestIfMissing(RequestIfMissing(s2, FanSpeed, VX_VARIABLE_FAN_SPEED),
                               DefaultFanSpeed, VX_VARIABLE_DEFAULT_FAN_SPEED);
    SendMissingSecondHalf(s4);
  }

  /** _retry_loop: request what is missing, release the write guard, stamp the retry time. */
  function RetryLoop(s: State, now: int): (r: State)
    requires HasAllFields(s)
    ensures r == s.(tx := r.tx, statusMutex := false, lastRetryLoop := now)
    ensures !s.portOpen ==> r.tx == s.tx
  {
    SendMissingRequests(s).(statusMutex := false, lastRetryLoop := now)
  }

  /**
   * The drain of `loop`: read and decode frames until a read yields nothing or a decode raises.
   * It stops at the first read that yields nothing, reads nothing from a closed port, only ever
   * consumes input from the front, writes nothing, and never loses a stamp or full_init_done.
   */
  function Drain(s: State, now: int): (r: Outcome)
    requires HasAllFields(s)
    ensures HasAllFields(r.state)
    ensures ReadMessage(s).1.None? ==> r == Outcome(ReadMessage(s).0, false)
    ensures !s.portOpen ==> r == Outcome(s, false)
    ensures |r.state.rx| <= |s.rx| && r.state.rx == s.rx[|s.rx| - |r.state.rx|..]
    ensures r.state.tx == s.tx && r.state.portOpen == s.portOpen
    ensures r.state.lastRequested == s.lastRequested && r.state.lastRetryLoop == s.lastRetryLoop
    ensures now != 0 ==> KeepsStamps(s, r.state)
    ensures s.fullInitDone ==> r.state.fullInitDone
    decreases |s.rx|
  {
    var (s1, msg) := ReadMessage(s);
    if msg.None? then Outcome(s1, false)
    else
      var d := DecodeMessage(s1, msg.value, now);
      if d.raised then d else Drain(d.state, now)
  }

  /** The timers of `loop`: the five-minute re-query, then the five-second retry pass. */
  function Timers(s: State, now: int): (r: State)
    requires HasAllFields(s)
    ensures r == s.(tx := r.tx, statusMutex := r.statusMutex, lastRequested := r.lastRequested,
                    lastRetryLoop := r.lastRetryLoop)
    ensures !s.portOpen ==> r.tx == s.tx
    ensures r.lastRequested == if now - s.lastRequested > QUERY_INTERVAL * 1000 then now else s.lastRequested
    ensures now - s.lastRetryLoop > RETRY_INTERVAL * 1000 ==> !r.statusMutex && r.lastRetryLoop == now
    ensures now - s.lastRetryLoop <= RETRY_INTERVAL * 1000 ==>
      r.statusMutex == s.statusMutex && r.lastRetryLoop == s.lastRetryLoop
  {
    var s1 := if now - s.lastRequested > QUERY_INTERVAL * 1000 then
                var t := s.(lastRequested := now);
                if StatusInitDone(t) then
                  RequestVariable(RequestVariable(t, VX_VARIABLE_IO_08), VX_VARIABLE_SERVICE_COUNTER)
                else t
              else s;
    if now - s1.lastRetryLoop > RETRY_INTERVAL * 1000 then RetryLoop(s1, now) else s1
  }

  /**
   * loop: drain the input, then run the timers; a decode that raises ends the call before the
   * timers. It keeps the port as it was, consumes input only from the front, never loses a stamp
   * or full_init_done, and on a closed port reads and writes nothing and changes no entry.
   */
  function Loop(s: State, now: int): (r: Outcome)
    requires HasAllFields(s)
    ensures HasAllFields(r.state)
    ensures r.raised ==> r == Drain(s, now)
    ensures r.state.portOpen == s.portOpen
    ensures |r.state.rx| <= |s.rx| && r.state.rx == s.rx[|s.rx| - |r.state.rx|..]
    ensures now != 0 ==> KeepsStamps(s, r.state)
    ensures s.fullInitDone ==> r.state.fullInitDone
    ensures !s.portOpen ==> r.state.rx == s.rx && r.state.tx == s.tx && r.state.data == s.data
  {
    var d := Drain(s, now);
    if d.raised then d else Outcome(Timers(d.state, now), false)
  }

  /** connect: when opening the port succeeds (`success`), clear full_init_done and request the configuration. */
  function Connect(s: State, success: bool, now: int): (r: (State, bool))
    ensures r.1 == success
    ensures !success ==> r.0 == s
    ensures success ==> r.0.portOpen && !r.0.fullInitDone && r.0.data == s.data && r.0.events == s.events
  {
    if success then (RequestConfig(s.(portOpen := true, fullInitDone := false), now), true)
    else (s, false)
  }

  /** disconnect: close the port when it is open. */
  function Disconnect(s: State): (r: State)
    ensures !r.portOpen
    ensures r == s.(portOpen := false)
  {
    if s.portOpen then s.(portOpen := false) else s
  }

  // ---------------------------------------------------------------------------------------
  // Commands

  /** A setter's optimistic update: store the value, keeping its receive time, and call the status-changed callback. */
  function Assign(s: State, f: Field, v: Value): (r: State)
    requires f in s.data
    ensures r.data == s.data[f := Observed(v, s.data[f].lastReceived)]
    ensures r.events == s.events + [StatusChanged(DataKey(f))]
    ensures r == s.(data := r.data, events := r.events)
  {
    s.(data := s.data[f := s.data[f].(value := v)], events := s.events + [StatusChanged(DataKey(f))])
  }

  /**
   * What a setter does once its range check passes: `code` is written for `variable` to the
   * mainboards (when the port is open), `v` is stored in `f` with its receive time kept, and
   * `f` is reported; nothing else changes.
   */
  predicate SettingWritten(s: State, r: State, variable: bv8, code: bv8, f: Field, v: Value)
    requires f in s.data
  {
    r == s.(tx := s.tx + (if s.portOpen then SetFrames(variable, code, VX_MSG_MAINBOARDS) else []),
            data := s.data[f := Observed(v, s.data[f].lastReceived)],
            events := s.events + [StatusChanged(DataKey(f))])
  }

  /**
   * The fan_speed setter: a speed of 1..8 is written as its table code; only `speed <= 8` is
   * checked, so 0 and below write the speed-1 code yet store the number as given.
   */
  function SetFanSpeed(s: State, speed: int): (r: State)
    requires HasAllFields(s)
    ensures speed > VX_MAX_FAN_SPEED ==> r == s
    ensures VX_MIN_FAN_SPEED <= speed <= VX_MAX_FAN_SPEED ==>
              SettingWritten(s, r, VX_VARIABLE_FAN_SPEED, VX_FAN_SPEEDS[speed - 1], FanSpeed, Num(speed))
    ensures speed < VX_MIN_FAN_SPEED ==>
              SettingWritten(s, r, VX_VARIABLE_FAN_SPEED, VX_FAN_SPEED_1, FanSpeed, Num(speed))
  {
    if speed <= VX_MAX_FAN_SPEED then
      Assign(SetVariable(s, VX_VARIABLE_FAN_SPEED, FanSpeedToHex(speed), VX_MSG_MAINBOARDS), FanSpeed, Num(speed))
    else s
  }

  /** The default_fan_speed setter, with the same check and codes as fan_speed. */
  function SetDefaultFanSpeed(s: State, speed: int): (r: State)
    requires HasAllFields(s)
    ensures speed > VX_MAX_FAN_SPEED ==> r == s
    ensures VX_MIN_FAN_SPEED <= speed <= VX_MAX_FAN_SPEED ==>
              SettingWritten(s, r, VX_VARIABLE_DEFAULT_FAN_SPEED, VX_FAN_SPEEDS[speed - 1], DefaultFanSpeed, Num(speed))
    ensures speed < VX_MIN_FAN_SPEED ==>
              SettingWritten(s, r, VX_VARIABLE_DEFAULT_FAN_SPEED, VX_FAN_SPEED_1, DefaultFanSpeed, Num(speed))
  {
    if speed <= VX_MAX_FAN_SPEED then
      Assign(SetVariable(s, VX_VARIABLE_DEFAULT_FAN_SPEED, FanSpeedToHex(speed), VX_MSG_MAINBOARDS),
             DefaultFanSpeed, Num(speed))
    else s
  }

  /** The service_period setter: months 0..255 are written as that byte; anything else is ignored. */
  function SetServicePeriod(s: State, months: int): (r: State)
    requires HasAllFields(s)
    ensures !(0 <= months < 256) ==> r == s
    ensures 0 <= months < 256 ==>
              (months as bv8) as int == months
              && SettingWritten(s, r, VX_VARIABLE_SERVICE_PERIOD, months as bv8, ServicePeriod, Num(months))
  {
    if 0 <= months < 256 then
      ByteOfInt(months);
      Assign(SetVariable(s, VX_VARIABLE_SERVICE_PERIOD, months as bv8, VX_MSG_MAINBOARDS), ServicePeriod, Num(months))
    else s
  }

  /** The service_counter setter: months 0..255 are written as that byte; anything else is ignored. */
  function SetServiceCounter(s: State, months: int): (r: State)
    requires HasAllFields(s)
    ensures !(0 <= months < 256) ==> r == s
    ensures 0 <= months < 256 ==>
              (months as bv8) as int == months
              && SettingWritten(s, r, VX_VARIABLE_SERVICE_COUNTER, months as bv8, ServiceCounter, Num(months))
  {
    if 0 <= months < 256 then
      ByteOfInt(months);
      Assign(SetVariable(s, VX_VARIABLE_SERVICE_COUNTER, months as bv8, VX_MSG_MAINBOARDS), ServiceCounter, Num(months))
    else s
  }

  /**
   * The heating_target setter: 10..27 degrees, written as the least NTC byte the table maps to
   * that temperature; anything else is ignored.
   */
  function SetHeatingTarget(s: State, celsius: int): (r: State)
    requires HasAllFields(s)
    ensures !(10 <= celsius <= 27) ==> r == s
    ensures 10 <= celsius <= 27 ==>
              NtcToCel(CelToNtc(celsius)) == celsius
              && SettingWritten(s, r, VX_VARIABLE_HEATING_TARGET, CelToNtc(celsius) as bv8, HeatingTarget, Num(celsius))
  {
    if 10 <= celsius <= 27 then
      HeatingTargetRoundTrip(celsius);
      Assign(SetVariable(s, VX_VARIABLE_HEATING_TARGET, CelToNtc(celsius) as bv8, VX_MSG_MAINBOARDS),
             HeatingTarget, Num(celsius))
    else s
  }

  /**
   * _set_status_variable: unless a status write is pending, take the guard, write to the first
   * mainboard, stamp the retry time and answer true; while one is pending, do nothing and answer false.
   */
  function SetStatusVariable(s: State, variable: bv8, value: bv8, now: int): (r: (State, bool))
    ensures r.1 <==> !s.statusMutex
    ensures s.statusMutex ==> r.0 == s
    ensures !s.statusMutex ==>
              r.0 == s.(statusMutex := true, lastRetryLoop := now,
                        tx := s.tx + if s.portOpen then SetFrames(variable, value, VX_MSG_MAINBOARD_1) else [])
  {
    if !s.statusMutex then
      (SetVariable(s.(statusMutex := true), variable, value, VX_MSG_MAINBOARD_1).(lastRetryLoop := now), true)
    else (s, false)
  }

  /** The raw status byte is known: a status frame has arrived. */
  predicate StatusKnown(s: State)
  {
    Status in s.data && s.data[Status].value.Num? && 0 <= s.data[Status].value.n < 256
  }

  function StatusByte(s: State): bv8
    requires StatusKnown(s)
  {
    s.data[Status].value.n as bv8
  }

  /** `b | mask` when `on`, `b & ~mask` otherwise: the bits of `mask` set or cleared, every other bit kept. */
  function WithBits(b: bv8, mask: bv8, on: bool): (w: bv8)
    ensures w & mask == (if on then mask else 0)
    ensures w & !mask == b & !mask
  {
    if on then b | mask else b & !mask
  }

  /**
   * What a status action does once the guard is free: the guard is taken, the retry time
   * stamped, `status` written to the first mainboard (when the port is open), `on` stored in
   * `f` with its receive time kept, and `f` reported; nothing else changes.
   */
  predicate StatusWritten(s: State, r: State, f: Field, status: bv8, on: bool, now: int)
    requires f in s.data
  {
    r == s.(statusMutex := true, lastRetryLoop := now,
            tx := s.tx + (if s.portOpen then SetFrames(VX_VARIABLE_STATUS, status, VX_MSG_MAINBOARD_1) else []),
            data := s.data[f := Observed(Flag(on), s.data[f].lastReceived)],
            events := s.events + [StatusChanged(DataKey(f))])
  }

  /** A status action: write `status` under the guard and, when the write went out, store `on` in `f`. */
  function StatusAction(s: State, f: Field, status: bv8, on: bool, now: int): (r: State)
    requires HasAllFields(s)
    ensures s.statusMutex ==> r == s
    ensures !s.statusMutex ==> StatusWritten(s, r, f, status, on, now)
  {
    var (s1, sent) := SetStatusVariable(s, VX_VARIABLE_STATUS, status, now);
    if sent then Assign(s1, f, Flag(on)) else s1
  }

  /**
   * The body shared by set_on, set_off, set_rh_mode_on and set_rh_mode_off: the new byte is
   * computed before the guard is looked at, so an unset status byte raises TypeError even
   * while a write is pending; otherwise a status action on `f` with the bits of `mask`.
   */
  function SwitchStatusBit(s: State, f: Field, mask: bv8, on: bool, now: int): (r: Outcome)
    requires HasAllFields(s) && ByteValued(s.data[Status].value)
    ensures r.raised <==> !StatusKnown(s)
    ensures r.raised || s.statusMutex ==> r.state == s
    ensures !r.raised && !s.statusMutex ==> StatusWritten(s, r.state, f, WithBits(StatusByte(s), mask, on), on, now)
  {
    if s.data[Status].value.Unset? then Outcome(s, true)
    else Outcome(StatusAction(s, f, WithBits(StatusByte(s), mask, on), on, now), false)
  }

  /** set_on: the power bit set. */
  function SetOn(s: State, now: int): (r: Outcome)
    requires HasAllFields(s) && ByteValued(s.data[Status].value)
    ensures r.raised <==> !StatusKnown(s)
    ensures r.raised || s.statusMutex ==> r.state == s
    ensures !r.raised && !s.statusMutex ==>
              StatusWritten(s, r.state, IsOn, WithBits(StatusByte(s), VX_STATUS_FLAG_POWER, true), true, now)
  {
    SwitchStatusBit(s, IsOn, VX_STATUS_FLAG_POWER, true, now)
  }

  /** set_off: the power bit cleared. */
  function SetOff(s: State, now: int): (r: Outcome)
    requires HasAllFields(s) && ByteValued(s.data[Status].value)
    ensures r.raised <==> !StatusKnown(s)
    ensures r.raised || s.statusMutex ==> r.state == s
    ensures !r.raised && !s.statusMutex ==>
              StatusWritten(s, r.state, IsOn, WithBits(StatusByte(s), VX_STATUS_FLAG_POWER, false), false, now)
  {
    SwitchStatusBit(s, IsOn, VX_STATUS_FLAG_POWER, false, now)
  }

  /** set_rh_mode_on: the RH bit set. */
  function SetRhModeOn(s: State, now: int): (r: Outcome)
    requires HasAllFields(s) && ByteValued(s.data[Status].value)
    ensures r.raised <==> !StatusKnown(s)
    ensures r.raised || s.statusMutex ==> r.state == s
    ensures !r.raised && !s.statusMutex ==>
              StatusWritten(s, r.state, IsRhMode, WithBits(StatusByte(s), VX_STATUS_FLAG_RH, true), true, now)
  {
    SwitchStatusBit(s, IsRhMode, VX_STATUS_FLAG_RH, true, now)
  }

  /** set_rh_mode_off: the RH bit cleared. */
  function SetRhModeOff(s: State, now: int): (r: Outcome)
    requires HasAllFields(s) && ByteValued(s.data[Status].value)
    ensures r.raised <==> !StatusKnown(s)
    ensures r.raised || s.statusMutex ==> r.state == s
    ensures !r.raised && !s.statusMutex ==>
              StatusWritten(s, r.state, IsRhMode, WithBits(StatusByte(s), VX_STATUS_FLAG_RH, false), false, now)
  {
    SwitchStatusBit(s, IsRhMode, VX_STATUS_FLAG_RH, false, now)
  }

  /**
   * set_heating_mode_on: testing the bit raises TypeError while the status byte is unset; when
   * the bit is already set, only report; otherwise as set_on with the heating-mode bit.
   */
  function SetHeatingModeOn(s: State, now: int): (r: Outcome)
    requires HasAllFields(s) && ByteValued(s.data[Status].value)
    ensures r.raised <==> !StatusKnown(s)
    ensures r.raised ==> r.state == s
    ensures !r.raised && HasFlag(StatusByte(s), VX_STATUS_FLAG_HEATING_MODE) ==>
              r.state == s.(events := s.events + [StatusChanged(DataKey(IsHeatingMode))])
    ensures !r.raised && !HasFlag(StatusByte(s), VX_STATUS_FLAG_HEATING_MODE) && s.statusMutex ==> r.state == s
    ensures !r.raised && !HasFlag(StatusByte(s), VX_STATUS_FLAG_HEATING_MODE) && !s.statusMutex ==>
              StatusWritten(s, r.state, IsHeatingMode, WithBits(StatusByte(s), VX_STATUS_FLAG_HEATING_MODE, true), true, now)
  {
    if s.data[Status].value.Unset? then Outcome(s, true)
    else if HasFlag(StatusByte(s), VX_STATUS_FLAG_HEATING_MODE) then
      Outcome(s.(events := s.events + [StatusChanged(DataKey(IsHeatingMode))]), false)
    else SwitchStatusBit(s, IsHeatingMode, VX_STATUS_FLAG_HEATING_MODE, true, now)
  }

  /**
   * set_heating_mode_off: testing the bit raises TypeError while the status byte is unset; when
   * the bit is already clear, only report; otherwise as set_off with the heating-mode bit.
   */
  function SetHeatingModeOff(s: State, now: int): (r: Outcome)
    requires HasAllFields(s) && ByteValued(s.data[Status].value)
    ensures r.raised <==> !StatusKnown(s)
    ensures r.raised ==> r.state == s
    ensures !r.raised && !HasFlag(StatusByte(s), VX_STATUS_FLAG_HEATING_MODE) ==>
              r.state == s.(events := s.events + [StatusChanged(DataKey(IsHeatingMode))])
    ensures !r.raised && HasFlag(StatusByte(s), VX_STATUS_FLAG_HEATING_MODE) && s.statusMutex ==> r.state == s
    ensures !r.raised && HasFlag(StatusByte(s), VX_STATUS_FLAG_HEATING_MODE) && !s.statusMutex ==>
              StatusWritten(s, r.state, IsHeatingMode, WithBits(StatusByte(s), VX_STATUS_FLAG_HEATING_MODE, false), false, now)
  {
    if s.data[Status].value.Unset? then Outcome(s, true)
    else if !HasFlag(StatusByte(s), VX_STATUS_FLAG_HEATING_MODE) then
      Outcome(s.(events := s.events + [StatusChanged(DataKey(IsHeatingMode))]), false)
    else SwitchStatusBit(s, IsHeatingMode, VX_STATUS_FLAG_HEATING_MODE, false, now)
  }

  /** The raw flags-06 byte is known: a flags-06 frame has arrived. */
  predicate Flags06Known(s: State)
  {
    Flags06 in s.data && s.data[Flags06].value.Num? && 0 <= s.data[Flags06].value.n < 256
  }

  /**
   * set_switch_on: raises TypeError while the flags-06 byte is unset; otherwise writes it with
   * the activate bit set to the mainboards, without the guard and without storing anything.
   */
  function SetSwitchOn(s: State): (r: Outcome)
    requires HasAllFields(s) && ByteValued(s.data[Flags06].value)
    ensures r.raised <==> !Flags06Known(s)
    ensures r.raised ==> r.state == s
    ensures !r.raised ==>
              r.state == s.(tx := s.tx + if s.portOpen then
                SetFrames(VX_VARIABLE_FLAGS_06, WithBits(s.data[Flags06].value.n as bv8, VX_06_FIREPLACE_FLAG_ACTIVATE, true),
                          VX_MSG_MAINBOARDS)
              else [])
  {
    if s.data[Flags06].value.Unset? then Outcome(s, true)
    else Outcome(SetVariable(s, VX_VARIABLE_FLAGS_06, WithBits(s.data[Flags06].value.n as bv8, VX_06_FIREPLACE_FLAG_ACTIVATE, true),
                             VX_MSG_MAINBOARDS), false)
  }

  // ---------------------------------------------------------------------------------------
  // Getters

  /** The boolean getters (is_on, ...): `value or False`. */
  function FlagReading(s: State, f: Field): (r: bool)
    requires f in s.data
    ensures r <==> s.data[f].value == Flag(true)
  {
    s.data[f].value.Flag? && s.data[f].value.b
  }

  /** The temperature getters: the value, or 0 while unset. */
  function TemperatureReading(s: State, f: Field): (r: int)
    requires f in s.data
    ensures s.data[f].value.Num? ==> r == s.data[f].value.n
    ensures !s.data[f].value.Num? ==> r == 0
  {
    if s.data[f].value.Num? then s.data[f].value.n else 0
  }

  /** The rh1, rh2 and co2 getters: NOT_SET unless received, then the value or NOT_SET. */
  function SensorReading(s: State, f: Field): (r: int)
    requires f in s.data
    ensures r != NOT_SET ==> Received(s.data[f]) && s.data[f].value == Num(r)
    ensures !Received(s.data[f]) ==> r == NOT_SET
    ensures Inv(s) && f in {Rh1, Rh2, Co2} ==> r == NOT_SET
  {
    if !Received(s.data[f]) then NOT_SET
    else if s.data[f].value.Num? then s.data[f].value.n else NOT_SET
  }

  /** The fan_speed, default_fan_speed, service_period, service_counter and heating_target getters. */
  function SettingReading(s: State, f: Field): (r: int)
    requires f in s.data
    ensures r != NOT_SET ==> s.data[f].value == Num(r)
    ensures s.data[f].value.Num? ==> r == s.data[f].value.n
    ensures !s.data[f].value.Num? ==> r == NOT_SET
  {
    if s.data[f].value.Num? then s.data[f].value.n else NOT_SET
  }

  /** switch_type: NOT_SET until the program byte arrives, then 1 for boost and 0 for fireplace. */
  function SwitchType(s: State): (r: int)
    ensures r in {NOT_SET, 0, 1}
    ensures r == NOT_SET <==> !Received(s.boostSetting)
    ensures r == 1 <==> Received(s.boostSetting) && s.boostSetting.value == Flag(true)
  {
    if !Received(s.boostSetting) then NOT_SET
    else if s.boostSetting.value.Flag? && s.boostSetting.value.b then 1 else 0
  }
}
