/**
 * The measure points of src/devices/ouman.py on values: what each kind of point makes of a
 * raw reading, when a read reports a change, what `MeasurePoint.read` and `Ouman.read_all`
 * do to the points and to the serial port, and the EH-203 measure-point table.
 */
module OumanModel {
  import opened Wrappers
  import opened OumanCodec

  /** 2 to the power `k`. */
  function Pow2(k: nat): (r: nat)
    ensures r >= 1
  {
    if k == 0 then 1 else 2 * Pow2(k - 1)
  }

  /** Bit `k` of `x` in two's complement, as Python's integers have it (negative `x` included). */
  predicate BitAt(x: int, k: nat)
    decreases k
  {
    if k == 0 then x % 2 == 1 else BitAt(x / 2, k - 1)
  }

  /** Python's `bool(x & m)` for a mask `m >= 0`: some bit is set in both `x` and `m`. */
  predicate AndNonzero(x: int, m: nat)
    decreases m
  {
    m != 0 && ((x % 2 == 1 && m % 2 == 1) || AndNonzero(x / 2, m / 2))
  }

  /** A one-bit mask tests exactly that bit. */
  lemma {:induction false} AndWithPowerOfTwo(x: int, k: nat)
    ensures AndNonzero(x, Pow2(k)) == BitAt(x, k)
    decreases k
  {
    if k > 0 {
      AndWithPowerOfTwo(x / 2, k - 1);
    }
  }

  /** Two numbers below 2^k with the same k low bits are equal. */
  lemma {:induction false} BitsDetermineValue(x: int, y: int, k: nat)
    requires 0 <= x < Pow2(k) && 0 <= y < Pow2(k)
    requires forall j | 0 <= j < k :: BitAt(x, j) == BitAt(y, j)
    ensures x == y
    decreases k
  {
    if k > 0 {
      assert BitAt(x, 0) == BitAt(y, 0);
      forall j | 0 <= j < k - 1
        ensures BitAt(x / 2, j) == BitAt(y / 2, j)
      {
        assert BitAt(x, j + 1) == BitAt(y, j + 1);
      }
      BitsDetermineValue(x / 2, y / 2, k - 1);
    }
  }

  /** class Flags: a raw reading whose bits are looked at one by one. */
  datatype Flags = Flags(raw: int)
  {
    /** The properties bit1 .. bit8: `bool(raw & 2**(n - 1))`. */
    function Bit(n: nat): (b: bool)
      requires 1 <= n <= 8
      ensures b == BitAt(raw, n - 1)
    {
      AndWithPowerOfTwo(raw, n - 1);
      AndNonzero(raw, Pow2(n - 1))
    }
  }

  /** The eight bit properties tell apart any two byte values. */
  lemma FlagsDetermineByte(f: Flags, g: Flags)
    requires 0 <= f.raw < 256 && 0 <= g.raw < 256
    requires forall n | 1 <= n <= 8 :: f.Bit(n) == g.Bit(n)
    ensures f == g
  {
    forall j | 0 <= j < 8
      ensures BitAt(f.raw, j) == BitAt(g.raw, j)
    {
      assert f.Bit(j + 1) == g.Bit(j + 1);
    }
    assert Pow2(8) == 256;
    BitsDetermineValue(f.raw, g.raw, 8);
  }

  /** Which `parse` a measure point has: MeasurePoint's own, or that of one of its subclasses. */
  datatype Kind = Plain | Binary | FlagBits | Numeric

  /** The constructor arguments of a measure point, and the class it is built with. */
  datatype Point = Point(idx: int, mask: nat, name: string, dataStart: nat, dataEnd: nat,
                         unit: string, divisor: int, kind: Kind)

  /**
   * A parsed value: the raw integer, a bool, a Flags object, or the float `raw / divisor`,
   * kept here as its two operands (for raw values of at most 32 bits and a fixed divisor,
   * two such floats are equal exactly when the raw values are).
   */
  datatype Reading = Number(n: int) | Bool(b: bool) | FlagSet(flags: Flags) | Scaled(raw: int, divisor: int)

  /** NumericMeasurePoint.parse divides by the divisor, which raises when it is 0. */
  predicate ParseRaises(p: Point, raw: Option<int>)
  {
    p.kind == Numeric && raw.Some? && p.divisor == 0
  }

  /** `parse` of each kind of measure point; every kind maps None to None. */
  function Parse(p: Point, raw: Option<int>): (r: Option<Reading>)
    ensures r.None? <==> raw.None?
  {
    match raw
    case None => None
    case Some(n) =>
      Some(match p.kind
           case Plain => Number(n)
           case Binary => Bool(AndNonzero(n, p.mask))
           case FlagBits => FlagSet(Flags(n))
           case Numeric => Scaled(n, p.divisor))
  }

  /** A binary point whose mask is a single bit reports that bit of the raw value. */
  lemma BinaryParseIsBitTest(p: Point, x: int, k: nat)
    requires p.kind == Binary && p.mask == Pow2(k)
    ensures Parse(p, Some(x)) == Some(Bool(BitAt(x, k)))
  {
    AndWithPowerOfTwo(x, k);
  }

  /**
   * `new_value != self._value`. Values compare as values, except that Flags has no equality
   * of its own, so a new Flags object differs from whatever was stored, even from equal bits.
   */
  predicate Differs(v: Option<Reading>, stored: Option<Reading>)
  {
    (v.Some? && v.value.FlagSet?) || v != stored
  }

  /** `on_property_changed(name, value)`, as a record of the call. */
  datatype Event = PropertyChanged(name: string, value: Option<Reading>)

  /** The serial port and the change callbacks: unread input, bytes written, callbacks made. */
  datatype Port = Port(rx: seq<bv8>, tx: seq<bv8>, events: seq<Event>)

  /** The two fields a read updates: `_raw_value` and `_value`. */
  datatype PointState = PointState(raw: Option<int>, value: Option<Reading>)

  /** A measure point and the port after a read, and whether the read raised. */
  datatype PointStep = PointStep(state: PointState, port: Port, raised: bool)

  /** The value `__read` returns, when it returns. */
  function RawOf(r: ReadResult): Option<int>
  {
    if r.Value? then Some(r.v) else None
  }

  /**
   * MeasurePoint.read: ask the device for the point, store the raw value, and store the parsed
   * value with a callback only when it differs from the stored one. If `__read` raises nothing
   * is stored; if parsing raises the raw value is stored already.
   */
  function ReadPoint(p: Point, st: PointState, port: Port): (r: PointStep)
    ensures r.port.tx == port.tx + RequestOf(p)
    ensures !InSigned(p.idx, 2) ==> r.raised && r.state == st && r.port.events == port.events
    ensures !r.raised ==> r.state.value == Parse(p, r.state.raw)
  {
    Settle(p, st, port, Read(p.idx, p.dataStart, p.dataEnd, port.rx))
  }

  /** The rest of MeasurePoint.read once `__read` has had the exchange `x` with the device. */
  function Settle(p: Point, st: PointState, port: Port, x: Exchange): (r: PointStep)
    ensures r.port.rx == x.rest && r.port.tx == port.tx + x.sent
    ensures r.raised <==> x.result.Raises? || ParseRaises(p, RawOf(x.result))
    ensures x.result.Raises? ==> r.state == st
    ensures !r.raised ==> r.state.raw == RawOf(x.result) && r.state.value == Parse(p, r.state.raw)
    ensures !r.raised && Differs(Parse(p, RawOf(x.result)), st.value) ==>
      r.port.events == port.events + [PropertyChanged(p.name, r.state.value)]
    ensures r.raised || !Differs(Parse(p, RawOf(x.result)), st.value) ==>
      r.port.events == port.events && r.state.value == st.value
  {
    var sent := port.(rx := x.rest, tx := port.tx + x.sent);
    if x.result.Raises? then PointStep(st, sent, true)
    else
      var raw := RawOf(x.result);
      if ParseRaises(p, raw) then PointStep(st.(raw := raw), sent, true)
      else
        var v := Parse(p, raw);
        if Differs(v, st.value) then
          PointStep(PointState(raw, v), sent.(events := sent.events + [PropertyChanged(p.name, v)]), false)
        else
          PointStep(PointState(raw, st.value), sent, false)
  }

  /**
   * A point that is not a flags point and reads the same value twice in a row reports it at
   * most once: the second read makes no callback.
   */
  lemma RepeatedReadingIsSilent(p: Point, st: PointState, port: Port)
    requires p.kind != FlagBits
    requires var r := ReadPoint(p, st, port);
      !r.raised && Read(p.idx, p.dataStart, p.dataEnd, r.port.rx).result
                == Read(p.idx, p.dataStart, p.dataEnd, port.rx).result
    ensures var r := ReadPoint(p, st, port);
      ReadPoint(p, r.state, r.port).port.events == r.port.events
  {
    var r := ReadPoint(p, st, port);
  }

  /** A flags point reports every value it reads, changed or not. */
  lemma FlagsReadingAlwaysReported(p: Point, st: PointState, port: Port)
    requires p.kind == FlagBits && Read(p.idx, p.dataStart, p.dataEnd, port.rx).result.Value?
    ensures ReadPoint(p, st, port).port.events
         == port.events + [PropertyChanged(p.name, Some(FlagSet(Flags(Read(p.idx, p.dataStart, p.dataEnd, port.rx).result.v))))]
  {
  }

  /** The points, the port, and whether an exception ended the sweep. */
  datatype Sweep = Sweep(states: seq<PointState>, port: Port, raised: bool)

  /** How one point is read: MeasurePoint.read is `ReadPoint`. */
  type PointReader = (Point, PointState, Port) -> PointStep

  /** The first `n` iterations of the loop of read_all, reading each point with `read`; an
      exception leaves the loop. */
  function ReadPrefix(read: PointReader, points: seq<Point>, start: Sweep, n: nat): (r: Sweep)
    requires n <= |points| == |start.states|
    ensures |r.states| == |points|
  {
    if n == 0 then start
    else
      var prev := ReadPrefix(read, points, start, n - 1);
      if prev.raised then prev
      else
        var step := read(points[n - 1], prev.states[n - 1], prev.port);
        Sweep(prev.states[n - 1 := step.state], step.port, step.raised)
  }

  /** Ouman.read_all: read every point, in the order of the table. */
  function ReadAll(points: seq<Point>, states: seq<PointState>, port: Port): (r: Sweep)
    requires |points| == |states|
    ensures |r.states| == |points|
    ensures !r.raised ==> r.port.tx == port.tx + Requests(RequestOf, points, |points|)
    ensures !r.raised ==> forall i | 0 <= i < |points| :: r.states[i].value == Parse(points[i], r.states[i].raw)
  {
    var start := Sweep(states, port, false);
    ReadPointSweepSound(points, start);
    ReadPrefix(ReadPoint, points, start, |points|)
  }

  /** A sweep with MeasurePoint.read that raises nothing writes every request and stores every parse. */
  lemma ReadPointSweepSound(points: seq<Point>, start: Sweep)
    requires |points| == |start.states| && !start.raised
    ensures var r := ReadPrefix(ReadPoint, points, start, |points|);
      !r.raised ==> r.port.tx == start.port.tx + Requests(RequestOf, points, |points|)
    ensures var r := ReadPrefix(ReadPoint, points, start, |points|);
      !r.raised ==> forall i | 0 <= i < |points| :: r.states[i].value == Parse(points[i], r.states[i].raw)
  {
    var r := ReadPrefix(ReadPoint, points, start, |points|);
    if !r.raised {
      ReadPointSendsRequest();
      ReadPointStoresParse();
      SweepSendsRequests(ReadPoint, RequestOf, points, start, |points|);
      forall i | 0 <= i < |points|
        ensures r.states[i].value == Parse(points[i], r.states[i].raw)
      {
        SweepStoresParsed(ReadPoint, points, start, |points|, i);
      }
    }
  }

  /** Once an exception has left the loop, further iterations change nothing. */
  lemma {:induction false} RaisedSweepIsFinal(read: PointReader, points: seq<Point>, start: Sweep, i: nat, n: nat)
    requires i <= n <= |points| == |start.states| && ReadPrefix(read, points, start, i).raised
    ensures ReadPrefix(read, points, start, n) == ReadPrefix(read, points, start, i)
    decreases n - i
  {
    if i < n {
      RaisedSweepIsFinal(read, points, start, i, n - 1);
    }
  }

  /** The loop of read_all ends once every point is read or one read has raised. */
  lemma SweepEnds(read: PointReader, points: seq<Point>, start: Sweep, i: nat)
    requires i <= |points| == |start.states|
    requires i == |points| || ReadPrefix(read, points, start, i).raised
    ensures ReadPrefix(read, points, start, |points|) == ReadPrefix(read, points, start, i)
  {
    if i < |points| {
      RaisedSweepIsFinal(read, points, start, i, |points|);
    }
  }

  /** The request `__read` writes for a point: nothing when the index does not fit a short. */
  function RequestOf(p: Point): seq<bv8>
  {
    if InSigned(p.idx, 2) then FmtCmd(p.idx) else []
  }

  /** The requests for the first `n` points, one after another. */
  function Requests(request: Point -> seq<bv8>, points: seq<Point>, n: nat): seq<bv8>
    requires n <= |points|
  {
    if n == 0 then [] else Requests(request, points, n - 1) + request(points[n - 1])
  }

  /** A reader that writes the point's `request` and nothing else. */
  ghost predicate SendsRequest(read: PointReader, request: Point -> seq<bv8>)
  {
    forall p, st, port :: read(p, st, port).port.tx == port.tx + request(p)
  }

  /** A reader that, when it does not raise, leaves the point holding the parse of its raw value. */
  ghost predicate StoresParse(read: PointReader)
  {
    forall p, st, port :: !read(p, st, port).raised ==>
      read(p, st, port).state.value == Parse(p, read(p, st, port).state.raw)
  }

  /** MeasurePoint.read writes the point's request and nothing else. */
  lemma ReadPointSendsRequest()
    ensures SendsRequest(ReadPoint, RequestOf)
  {
    forall p, st, port
      ensures ReadPoint(p, st, port).port.tx == port.tx + RequestOf(p)
    {
    }
  }

  /** MeasurePoint.read, when it does not raise, leaves the parse of the raw value it stored. */
  lemma ReadPointStoresParse()
    ensures StoresParse(ReadPoint)
  {
    forall p, st, port
      ensures !ReadPoint(p, st, port).raised ==>
        ReadPoint(p, st, port).state.value == Parse(p, ReadPoint(p, st, port).state.raw)
    {
    }
  }

  /** A sweep that raises nothing writes the request of every point it reads, in table order. */
  lemma {:induction false} SweepSendsRequests(read: PointReader, request: Point -> seq<bv8>,
                                               points: seq<Point>, start: Sweep, n: nat)
    requires n <= |points| == |start.states| && !start.raised && SendsRequest(read, request)
    requires !ReadPrefix(read, points, start, n).raised
    ensures ReadPrefix(read, points, start, n).port.tx == start.port.tx + Requests(request, points, n)
  {
    if n > 0 {
      SweepSendsRequests(read, request, points, start, n - 1);
    }
  }


  /** The loop leaves the points it has not reached as they were. */
  lemma {:induction false} SweepKeepsUnvisited(read: PointReader, points: seq<Point>, start: Sweep, n: nat, j: nat)
    requires n <= j < |points| == |start.states|
    ensures ReadPrefix(read, points, start, n).states[j] == start.states[j]
  {
    if n > 0 {
      SweepKeepsUnvisited(read, points, start, n - 1, j);
    }
  }

  /** After a sweep that raises nothing, every point it read holds the parse of its own raw value. */
  lemma {:induction false} SweepStoresParsed(read: PointReader, points: seq<Point>, start: Sweep, n: nat, i: nat)
    requires i < n <= |points| == |start.states| && !start.raised && StoresParse(read)
    requires !ReadPrefix(read, points, start, n).raised
    ensures var st := ReadPrefix(read, points, start, n).states[i];
      st.value == Parse(points[i], st.raw)
  {
    if i < n - 1 {
      SweepStoresParsed(read, points, start, n - 1, i);
    }
  }


  /** No two points share a name, so a dictionary keyed by name keeps them all. */
  predicate NamesDistinct(points: seq<Point>)
  {
    forall i, j | 0 <= i < j < |points| :: points[i].name != points[j].name
  }

  /** `get_measurepoint(name)`: where the point of that name is, if there is one. */
  function IndexOfName(points: seq<Point>, name: string): (r: Option<nat>)
    ensures r.Some? ==> r.value < |points| && points[r.value].name == name
    ensures r.None? ==> forall i | 0 <= i < |points| :: points[i].name != name
  {
    if points == [] then None
    else if points[0].name == name then Some(0)
    else match IndexOfName(points[1..], name)
         case None => None
         case Some(i) => Some(i + 1)
  }

  /** With distinct names, looking a point up by its name finds that very point. */
  lemma {:induction false} LookupFindsEveryPoint(points: seq<Point>, i: nat)
    requires NamesDistinct(points) && i < |points|
    ensures IndexOfName(points, points[i].name) == Some(i)
  {
    if i > 0 {
      assert points[0].name != points[i].name;
      assert NamesDistinct(points[1..]) by {
        forall a, b | 0 <= a < b < |points| - 1
          ensures points[1..][a].name != points[1..][b].name
        {
          assert points[a + 1].name != points[b + 1].name;
        }
      }
      LookupFindsEveryPoint(points[1..], i - 1);
    }
  }

  /** Point `i` of the OumanEH203 constructor, which adds them in this order. */
  function EH203Point(i: nat): Point
    requires i < 26
  {
    if i == 0 then Point(18, 0, "outdoor_temperature", 0, 1, "C", 100, Numeric)
    else if i == 1 then Point(20, 0, "h1_supply_temperature", 0, 1, "C", 100, Numeric)
    else if i == 2 then Point(21, 0, "h1_room_temperature", 0, 1, "C", 100, Numeric)
    else if i == 3 then Point(23, 0, "h1_return_temperature", 0, 1, "C", 100, Numeric)
    else if i == 4 then Point(26, 0, "h2_supply_temperature", 0, 1, "C", 100, Numeric)
    else if i == 5 then Point(27, 0, "measurement_6", 0, 1, "C", 100, Numeric)
    else if i == 6 then Point(24, 0, "hw_supply_temperature", 0, 1, "C", 100, Numeric)
    else if i == 7 then Point(25, 0, "hw_circulation_temperature", 0, 1, "C", 100, Numeric)
    else if i == 8 then Point(33, 0, "measurement_9", 0, 1, "C", 100, Numeric)
    else if i == 9 then Point(34, 0, "measurement_10", 0, 1, "C", 100, Numeric)
    else if i == 10 then Point(41, 0, "measurement_11", 0, 1, "C", 100, Numeric)
    else if i == 11 then Point(45, 1, "digital_input1", 0, 1, "dig", 1, Binary)
    else if i == 12 then Point(45, 2, "digital_input2", 0, 1, "dig", 1, Binary)
    else if i == 13 then Point(45, 4, "digital_input3", 0, 1, "dig", 1, Binary)
    else if i == 14 then Point(45, 8, "relay1", 0, 1, "dig", 1, Binary)
    else if i == 15 then Point(45, 16, "relay2", 0, 1, "dig", 1, Binary)
    else if i == 16 then Point(49, 0, "h1_valve_position", 0, 0, "%", 1, Numeric)
    else if i == 17 then Point(50, 0, "h2_valve_position", 0, 0, "%", 1, Numeric)
    else if i == 18 then Point(51, 0, "hw_valve_position", 0, 0, "%", 1, Numeric)
    else if i == 19 then Point(13, 0, "h1_room_setpoint", 1, 2, "C", 10, Numeric)
    else if i == 20 then Point(13, 0, "h2_room_setpoint", 11, 12, "C", 10, Numeric)
    else if i == 21 then Point(15, 0, "hw_supply_setpoint", 15, 15, "C", 1, Numeric)
    else if i == 22 then Point(60, 0, "peak_power", 0, 3, "kWh", 1, Numeric)
    else if i == 23 then Point(61, 0, "peak_flow", 0, 3, "m3", 100, Numeric)
    else if i == 24 then Point(63, 0, "hw_energy", 0, 3, "kWh", 1, Numeric)
    else Point(64, 0, "hw_water", 0, 3, "m3", 100, Numeric)
  }

  /** The measure points of the OumanEH203 constructor. */
  function EH203(): (t: seq<Point>)
    ensures |t| == 26 && forall i | 0 <= i < 26 :: t[i] == EH203Point(i)
  {
    seq(26, i requires 0 <= i < 26 => EH203Point(i))
  }

  /**
   * A point `__read` and `parse` can serve without raising on a sound response: its command
   * fits a short, its slice is 1, 2 or 4 bytes wide, and a numeric point does not divide by 0.
   */
  predicate Serviceable(p: Point)
  {
    InSigned(p.idx, 2) && KnownWidth(p.dataEnd - p.dataStart + 1) && (p.kind == Numeric ==> p.divisor != 0)
  }

  /** Every EH-203 point is serviceable, and each binary point tests a single bit. */
  lemma EH203Serviceable()
    ensures forall p | p in EH203() :: Serviceable(p)
    ensures forall p | p in EH203() && p.kind == Binary :: p.mask in {1, 2, 4, 8, 16}
  {
    forall p | p in EH203()
      ensures Serviceable(p) && (p.kind == Binary ==> p.mask in {1, 2, 4, 8, 16})
    {
      var i :| 0 <= i < 26 && EH203()[i] == p;
      PointServiceable(i);
    }
  }

  lemma PointServiceable(i: nat)
    requires i < 26
    ensures Serviceable(EH203Point(i))
    ensures EH203Point(i).kind == Binary ==> EH203Point(i).mask in {1, 2, 4, 8, 16}
  {
    assert Pow256(2) == 65536;
    if i < 13 {
      FirstPointsServiceable(i);
    } else {
      LastPointsServiceable(i);
    }
  }

  lemma FirstPointsServiceable(i: nat)
    requires i < 13 && Pow256(2) == 65536
    ensures Serviceable(EH203Point(i))
    ensures EH203Point(i).kind == Binary ==> EH203Point(i).mask in {1, 2, 4, 8, 16}
  {
  }

  lemma LastPointsServiceable(i: nat)
    requires 13 <= i < 26 && Pow256(2) == 65536
    ensures Serviceable(EH203Point(i))
    ensures EH203Point(i).kind == Binary ==> EH203Point(i).mask in {1, 2, 4, 8, 16}
  {
  }

  lemma EH203NamesDistinct()
    ensures NamesDistinct(EH203())
  {
    forall i, j | 0 <= i < j < |EH203()|
      ensures EH203()[i].name != EH203()[j].name
    {
      if i < 4 {
        NamesDistinctFromFirst(i, j);
      } else if i < 9 {
        NamesDistinctFromSecond(i, j);
      } else if i < 15 {
        NamesDistinctFromThird(i, j);
      } else {
        NamesDistinctFromLast(i, j);
      }
    }
  }

  lemma NamesDistinctFromFirst(i: nat, j: nat)
    requires i < 4 && i < j < 26
    ensures EH203Point(i).name != EH203Point(j).name
  {
  }

  lemma NamesDistinctFromSecond(i: nat, j: nat)
    requires 4 <= i < 9 && i < j < 26
    ensures EH203Point(i).name != EH203Point(j).name
  {
  }

  lemma NamesDistinctFromThird(i: nat, j: nat)
    requires 9 <= i < 15 && i < j < 26
    ensures EH203Point(i).name != EH203Point(j).name
  {
  }

  lemma NamesDistinctFromLast(i: nat, j: nat)
    requires 15 <= i < j < 26
    ensures EH203Point(i).name != EH203Point(j).name
  {
  }

  /**
   * A serviceable point answered by a sound response that holds `v` in its slice stores `v`
   * and its parse, consumes exactly the response, and writes exactly the point's request.
   */
  lemma ReadPointOfResponse(p: Point, st: PointState, port: Port, v: int, body: seq<bv8>, trailing: seq<bv8>)
    requires Serviceable(p) && |body| < 254 && p.dataEnd < |body|
    requires InSigned(v, p.dataEnd - p.dataStart + 1)
    requires body[p.dataStart..p.dataEnd + 1] == EncodeSigned(v, p.dataEnd - p.dataStart + 1)
    requires port.rx == Frame(Payload(p.idx, body)) + trailing
    ensures var r := ReadPoint(p, st, port);
      && !r.raised && r.state == PointState(Some(v), r.state.value)
      && r.state.value == Parse(p, Some(v))
      && r.port.rx == trailing && r.port.tx == port.tx + FmtCmd(p.idx)
  {
    ReadOfResponse(p.idx, p.dataStart, p.dataEnd, v, body, trailing);
  }
}
