/**
 * The classes MeasurePoint and Ouman of src/devices/ouman.py as Dafny classes: the fields a
 * read updates in place, and methods that update them step by step as the source does. Each
 * method is proved to leave the objects as the matching function of OumanModel computes, so
 * what is proved there holds of the objects.
 */
module OumanDevice {
  import opened Wrappers
  import opened Bytes
  import opened OumanCodec
  import opened OumanModel

  class MeasurePoint {
    /** The constructor arguments, which never change. */
    const spec: Point
    var rawValue: Option<int>
    var value: Option<Reading>

    function State(): PointState
      reads this
    {
      PointState(rawValue, value)
    }

    /** MeasurePoint.__init__: nothing read yet. */
    constructor (spec: Point)
      ensures this.spec == spec && State() == PointState(None, None)
    {
      this.spec := spec;
      rawValue := None;
      value := None;
    }

    /**
     * MeasurePoint.read on the device `ouman`: ask for the raw value, parse it, and store it
     * with a callback when it differs from the stored one. `raised` stands for an exception.
     */
    method Read(ouman: Ouman) returns (raised: bool)
      modifies this, ouman
      ensures PointStep(State(), ouman.PortState(), raised) == ReadPoint(spec, old(State()), old(ouman.PortState()))
    {
      ghost var port := ouman.PortState();
      ghost var x := OumanCodec.Read(spec.idx, spec.dataStart, spec.dataEnd, port.rx);
      var result := ouman.ReadValue(spec);
      raised := Store(ouman, result, port, x);
    }

    /** The rest of MeasurePoint.read once `__read` has returned `result` from the exchange `x`. */
    method Store(ouman: Ouman, result: ReadResult, ghost port: Port, ghost x: Exchange) returns (raised: bool)
      requires ouman.PortState() == port.(rx := x.rest, tx := port.tx + x.sent) && result == x.result
      modifies this, ouman
      ensures PointStep(State(), ouman.PortState(), raised) == Settle(spec, old(State()), port, x)
    {
      if result.Raises? {
        return true;
      }
      rawValue := RawOf(result);
      if ParseRaises(spec, rawValue) {
        return true;
      }
      var newValue := Parse(spec, rawValue);
      if Differs(newValue, value) {
        value := newValue;
        ouman.OnPropertyChanged(spec.name, value);
      }
      return false;
    }
  }

  class Ouman {
    /** The measure points, in the order of the name-keyed dictionary (the order they were given). */
    const points: seq<MeasurePoint>
    /** The bytes the serial port has received and not yet handed out. */
    var rx: seq<bv8>
    /** Every byte written to the serial port. */
    var tx: seq<bv8>
    /** Every on_property_changed call. */
    var events: seq<Event>

    function PortState(): Port
      reads this
    {
      Port(rx, tx, events)
    }

    /** The measure points are distinct objects. */
    predicate Valid()
    {
      forall i, j | 0 <= i < j < |points| :: points[i] != points[j]
    }

    function Specs(): (r: seq<Point>)
      ensures |r| == |points|
    {
      seq(|points|, i requires 0 <= i < |points| => points[i].spec)
    }

    function States(): (r: seq<PointState>)
      reads points
      ensures |r| == |points|
    {
      seq(|points|, i requires 0 <= i < |points| reads points => points[i].State())
    }

    /**
     * Ouman.__init__ with the measure points built from `table`. The source keys them by name;
     * with distinct names that dictionary holds every point, in the order of the table.
     */
    constructor (table: seq<Point>)
      requires NamesDistinct(table)
      ensures Valid() && Specs() == table && PortState() == Port([], [], [])
      ensures forall i | 0 <= i < |points| :: fresh(points[i]) && points[i].State() == PointState(None, None)
    {
      var made: seq<MeasurePoint> := [];
      var i := 0;
      while i < |table|
        invariant i <= |table| && |made| == i
        invariant forall j | 0 <= j < i :: made[j].spec == table[j] && fresh(made[j])
        invariant forall j | 0 <= j < i :: made[j].State() == PointState(None, None)
        invariant forall j, k | 0 <= j < k < i :: made[j] != made[k]
      {
        var mp := new MeasurePoint(table[i]);
        made := made + [mp];
        i := i + 1;
      }
      points := made;
      rx := [];
      tx := [];
      events := [];
    }

    /** OumanEH203.__init__: an Ouman over the EH-203 measure points. */
    static method NewEH203() returns (o: Ouman)
      ensures fresh(o) && o.Valid() && o.Specs() == EH203() && o.PortState() == Port([], [], [])
    {
      EH203NamesDistinct();
      o := new Ouman(EH203());
    }

    /** Ouman.connect: reset_input_buffer drops whatever input is pending. */
    method Connect()
      modifies this
      ensures rx == [] && tx == old(tx) && events == old(events)
    {
      rx := [];
    }

    /** Device.on_property_changed, as a record of the call. */
    method OnPropertyChanged(name: string, v: Option<Reading>)
      modifies this
      ensures PortState() == old(PortState()).(events := old(events) + [PropertyChanged(name, v)])
    {
      events := events + [PropertyChanged(name, v)];
    }

    /** `serio.read()`: the next byte, or none once the input has run out. */
    method ReadByte() returns (b: Option<bv8>)
      modifies this
      ensures old(rx) == [] ==> b.None? && rx == []
      ensures old(rx) != [] ==> b == Some(old(rx)[0]) && rx == old(rx)[1..]
      ensures tx == old(tx) && events == old(events)
    {
      if rx == [] {
        return None;
      }
      b := Some(rx[0]);
      rx := rx[1..];
    }

    /** `serio.read(n)`: the next `n` bytes, fewer once the input has run out. */
    method ReadBytes(n: nat) returns (data: seq<bv8>)
      modifies this
      ensures data == old(rx)[..Min(n, |old(rx)|)] && rx == old(rx)[|data|..]
      ensures tx == old(tx) && events == old(events)
    {
      var k := Min(n, |rx|);
      data := rx[..k];
      rx := rx[k..];
    }

    /** Ouman.read(measurepoint): `__read` with the point's command and slice. */
    method ReadValue(p: Point) returns (result: ReadResult)
      modifies this
      ensures var x := OumanCodec.Read(p.idx, p.dataStart, p.dataEnd, old(rx));
        result == x.result && rx == x.rest && tx == old(tx) + x.sent && events == old(events)
    {
      result := ReadRaw(p.idx, p.dataStart, p.dataEnd);
    }

    /**
     * The reads of `__read` once the request is written, up to the checksum test: STX, ACK,
     * the length byte, that many data bytes and the checksum byte.
     */
    method ReceiveFrame() returns (payload: Option<seq<bv8>>)
      modifies this
      ensures Received(payload, rx) == Receive(old(rx))
      ensures tx == old(tx) && events == old(events)
    {
      ghost var input := rx;
      var stx := ReadByte();
      if stx != Some(STX) {
        assert rx == input[Min(1, |input|)..] && (|input| < 1 || input[0] != STX);
        assert Receive(input) == Received(None, rx);
        return None;
      }
      var ack := ReadByte();
      if ack != Some(ACK) {
        assert rx == input[Min(2, |input|)..] && (|input| < 2 || input[1] != ACK);
        assert Receive(input) == Received(None, rx);
        return None;
      }
      var datalen := ReadByte();
      if datalen.None? {
        assert |input| == 2 && rx == [];
        assert Receive(input) == Received(None, rx);
        return None;
      }
      var n := datalen.value;
      assert n == input[2] && rx == input[3..];
      var data := ReadBytes(n as nat);
      assert data == input[3..][..Min(input[2] as nat, |input| - 3)];
      ghost var after := input[3 + |data|..];
      assert rx == after;
      var checksum := ReadByte();
      var crc := Sum8([ACK, n] + data);
      if checksum.None? || checksum.value != crc {
        ReceiveChecksumMismatch(input, data, after);
        return None;
      }
      assert after != [] && after[0] == crc && rx == after[1..];
      assert Receive(input) == Received(Some(data), rx);
      return Some(data);
    }

    /**
     * `__read(cmd, s, e)`: write the request, take a response off the port, check the echoed
     * command and unpack the slice `s..e` of the data after it.
     */
    method ReadRaw(cmd: int, s: nat, e: nat) returns (result: ReadResult)
      modifies this
      ensures var x := OumanCodec.Read(cmd, s, e, old(rx));
        result == x.result && rx == x.rest && tx == old(tx) + x.sent && events == old(events)
    {
      if !InSigned(cmd, 2) {
        return Raises;
      }
      tx := tx + FmtCmd(cmd);
      var payload := ReceiveFrame();
      if payload.None? {
        return Missing;
      }
      var data := payload.value;
      if |data| < 2 {
        return Raises;
      }
      if DecodeSigned(data[..2]) != cmd {
        return Missing;
      }
      var valueLen := e - s + 1;
      if !KnownWidth(valueLen) {
        return Raises;
      }
      if e + 1 > |data| - 2 {
        return Raises;
      }
      return Value(DecodeSigned(data[2..][s..e + 1]));
    }

    /** The points and the port are where the first `i` iterations of read_all leave them. */
    ghost predicate SweptTo(start: Sweep, i: nat, raised: bool)
      reads this, points
    {
      i <= |points| == |start.states| && Valid() &&
      Sweep(States(), PortState(), raised) == ReadPrefix(ReadPoint, Specs(), start, i)
    }

    /** One iteration of read_all: read the `i`-th measure point. */
    method ReadNext(i: nat, ghost start: Sweep) returns (raised: bool)
      requires i < |points| && SweptTo(start, i, false)
      modifies this, points[i]
      ensures SweptTo(start, i + 1, raised)
    {
      ghost var prev := Sweep(States(), PortState(), false);
      raised := points[i].Read(this);
      ghost var step := PointStep(points[i].State(), PortState(), raised);
      assert step == ReadPoint(Specs()[i], prev.states[i], prev.port);
      forall j | 0 <= j < |points|
        ensures States()[j] == prev.states[i := step.state][j]
      {
        if j != i {
          assert points[j] != points[i];
        }
      }
      assert States() == prev.states[i := step.state];
    }

    /** Ouman.read_all: read every measure point in turn; an exception ends the loop. */
    method ReadAll() returns (raised: bool)
      requires Valid()
      modifies this, points
      ensures Sweep(States(), PortState(), raised) == OumanModel.ReadAll(Specs(), old(States()), old(PortState()))
    {
      ghost var start := Sweep(States(), PortState(), false);
      raised := false;
      var i := 0;
      while i < |points| && !raised
        invariant SweptTo(start, i, raised)
      {
        raised := ReadNext(i, start);
        i := i + 1;
      }
      SweepEnds(ReadPoint, Specs(), start, i);
    }

    /** Ouman.get_measurepoint: the point of that name, if there is one. */
    function GetMeasurePoint(name: string): (r: Option<MeasurePoint>)
      ensures r.Some? ==> r.value in points && r.value.spec.name == name
      ensures r.None? ==> forall i | 0 <= i < |points| :: points[i].spec.name != name
    {
      match IndexOfName(Specs(), name)
      case None =>
        assert forall i | 0 <= i < |points| :: Specs()[i] == points[i].spec;
        None
      case Some(i) => Some(points[i])
    }
  }
}
