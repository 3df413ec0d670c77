/**
 * The request/response codec of the Ouman heating controller (class Ouman of
 * src/devices/ouman.py): big-endian two's-complement integers as struct packs them,
 * the six-byte request `__fmt_cmd` builds, and what `__read` makes of the bytes that
 * come back on a serial port with a read timeout.
 */
module OumanCodec {
  import opened Wrappers
  import opened Bytes

  const STX: bv8 := 0x02
  const ACK: bv8 := 0x06
  /** The first header byte of every request; the length byte follows it. */
  const HEADER: bv8 := 0x81

  function Min(a: nat, b: nat): nat
  {
    if a < b then a else b
  }

  /** 256 to the power `w`: how many values a `w`-byte integer has. */
  function Pow256(w: nat): (r: nat)
    ensures r >= 1
  {
    if w == 0 then 1 else 256 * Pow256(w - 1)
  }

  /** The unsigned value of a byte string, most significant byte first. */
  function BigEndian(b: seq<bv8>): nat
  {
    if b == [] then 0 else BigEndian(b[..|b| - 1]) * 256 + b[|b| - 1] as nat
  }

  /** The `w` low bytes of `u`, most significant first. */
  function ToBigEndian(u: nat, w: nat): (b: seq<bv8>)
    ensures |b| == w
  {
    if w == 0 then [] else ToBigEndian(u / 256, w - 1) + [(u % 256) as bv8]
  }

  /** `v` is representable as a `w`-byte two's-complement integer. */
  predicate InSigned(v: int, w: nat)
  {
    -(Pow256(w) as int) <= 2 * v < Pow256(w)
  }

  /** struct.unpack with 'b', '!h' or '!i': the bytes as a big-endian two's-complement integer. */
  function DecodeSigned(b: seq<bv8>): (v: int)
    ensures InSigned(v, |b|)
  {
    BigEndianBound(b);
    var u := BigEndian(b);
    if 2 * u >= Pow256(|b|) then u - Pow256(|b|) else u
  }

  /** struct.pack with 'b', '!h' or '!i' of a value the format can hold. */
  function EncodeSigned(v: int, w: nat): (b: seq<bv8>)
    requires InSigned(v, w)
    ensures |b| == w
  {
    ToBigEndian(if v < 0 then v + Pow256(w) else v, w)
  }

  lemma {:induction false} BigEndianBound(b: seq<bv8>)
    ensures BigEndian(b) < Pow256(|b|)
  {
    if b != [] {
      BigEndianBound(b[..|b| - 1]);
    }
  }

  lemma {:induction false} BigEndianOfToBigEndian(u: nat, w: nat)
    requires u < Pow256(w)
    ensures BigEndian(ToBigEndian(u, w)) == u
  {
    if w > 0 {
      var b := ToBigEndian(u, w);
      assert b[..w - 1] == ToBigEndian(u / 256, w - 1);
      BigEndianOfToBigEndian(u / 256, w - 1);
      ByteOfInt(u % 256);
    }
  }

  lemma {:induction false} ToBigEndianOfBigEndian(b: seq<bv8>)
    ensures ToBigEndian(BigEndian(b), |b|) == b
  {
    if b != [] {
      var p := b[..|b| - 1];
      var u := BigEndian(b);
      assert u / 256 == BigEndian(p) && u % 256 == b[|b| - 1] as int;
      ToBigEndianOfBigEndian(p);
      assert b == p + [b[|b| - 1]];
    }
  }

  /** Unpacking what was packed gives the value back. */
  lemma DecodeOfEncode(v: int, w: nat)
    requires InSigned(v, w)
    ensures DecodeSigned(EncodeSigned(v, w)) == v
  {
    BigEndianOfToBigEndian(if v < 0 then v + Pow256(w) else v, w);
  }

  /** Packing what was unpacked gives the bytes back: every byte string is some value's encoding. */
  lemma EncodeOfDecode(b: seq<bv8>)
    ensures EncodeSigned(DecodeSigned(b), |b|) == b
  {
    BigEndianBound(b);
    ToBigEndianOfBigEndian(b);
  }

  /**
   * `__fmt_cmd`: STX, the header 0x81 followed by the command's length 2, the command as a
   * big-endian signed short, and the 8-bit sum of the header and the command (STX is not summed).
   * struct.pack raises for a command outside the signed 16-bit range; `Read` models that case.
   */
  function FmtCmd(cmd: int): (r: seq<bv8>)
    requires InSigned(cmd, 2)
    ensures |r| == 6 && r[0] == STX && r[1] == HEADER && r[2] == 2
    ensures DecodeSigned(r[3..5]) == cmd
    ensures r[5] == Sum8(r[1..5])
  {
    var c := EncodeSigned(cmd, 2);
    var header := [HEADER, 2];
    var r := [STX] + header + c + [Sum8(header + c)];
    assert r[3..5] == c && r[1..5] == header + c;
    DecodeOfEncode(cmd, 2);
    r
  }

  /** What `__read` does: return a value, return None, or raise (struct.error or a KeyError). */
  datatype ReadResult = Missing | Value(v: int) | Raises

  /** One `__read` on the port: its result, the bytes it wrote, and the input it left unread. */
  datatype Exchange = Exchange(result: ReadResult, sent: seq<bv8>, rest: seq<bv8>)

  /** The widths the unpack format table of `__read` knows: 1 ('b'), 2 ('!h') and 4 ('!i'). */
  predicate KnownWidth(w: int)
  {
    w == 1 || w == 2 || w == 4
  }

  /**
   * The rest of `__read` once the checksum matched: `data`, the payload, starts with the echoed
   * command; bytes `s..e` of what follows it hold the value.
   */
  function DecodeReply(cmd: int, s: nat, e: nat, data: seq<bv8>): (r: ReadResult)
    ensures r == Raises <==>
      (|data| < 2 || (DecodeSigned(data[..2]) == cmd && (!KnownWidth(e - s + 1) || e + 1 > |data| - 2)))
    ensures r == Missing <==> |data| >= 2 && DecodeSigned(data[..2]) != cmd
    ensures r.Value? ==> KnownWidth(e - s + 1) && e + 1 <= |data| - 2 && InSigned(r.v, e - s + 1)
    ensures r.Value? ==> EncodeSigned(r.v, e - s + 1) == data[2 + s..2 + e + 1]
  {
    if |data| < 2 then Raises
    else if DecodeSigned(data[..2]) != cmd then Missing
    else if !KnownWidth(e - s + 1) then Raises
    else if e + 1 > |data| - 2 then Raises
    else
      var slice := data[2..][s..e + 1];
      assert slice == data[2 + s..2 + e + 1];
      EncodeOfDecode(slice);
      Value(DecodeSigned(slice))
  }

  /** The response a device sends: STX, ACK, the payload's length, the payload, its checksum. */
  function Frame(payload: seq<bv8>): (r: seq<bv8>)
    requires |payload| < 256
    ensures |r| == |payload| + 4
  {
    var len := |payload| as bv8;
    [STX, ACK, len] + payload + [Sum8([ACK, len] + payload)]
  }

  /** The part of `__read` that takes a response off the port: the payload, if the frame is sound. */
  datatype Received = Received(payload: Option<seq<bv8>>, rest: seq<bv8>)

  /**
   * The reads of `__read` up to the checksum test, on a port whose input is `rx`. A read with a
   * timeout returns fewer bytes than asked for, or none, once the input runs out, and each read
   * consumes what it returns.
   */
  function Receive(rx: seq<bv8>): (r: Received)
    ensures |r.rest| <= |rx| && r.rest == rx[|rx| - |r.rest|..]
    ensures |rx| < 2 || rx[0] != STX || rx[1] != ACK ==> r.payload.None?
  {
    if |rx| < 1 || rx[0] != STX then Received(None, rx[Min(1, |rx|)..])
    else if |rx| < 2 || rx[1] != ACK then Received(None, rx[Min(2, |rx|)..])
    else if |rx| < 3 then Received(None, [])
    else
      var data := rx[3..][..Min(rx[2] as nat, |rx| - 3)];
      var after := rx[3 + |data|..];
      if after == [] || after[0] != Sum8([ACK, rx[2]] + data) then
        Received(None, after[Min(1, |after|)..])
      else Received(Some(data), after[1..])
  }

  /** Soundness: a payload is only accepted from a well-formed frame at the head of the input. */
  lemma ReceivedIsFrame(rx: seq<bv8>)
    ensures var r := Receive(rx);
      r.payload.Some? ==> |r.payload.value| < 256 && rx == Frame(r.payload.value) + r.rest
  {
    if |rx| >= 3 && rx[0] == STX && rx[1] == ACK {
      var data := rx[3..][..Min(rx[2] as nat, |rx| - 3)];
      var after := rx[3 + |data|..];
      if after != [] && after[0] == Sum8([ACK, rx[2]] + data) {
        FrameOfReceived(rx, data, after);
      }
    }
  }

  lemma FrameOfReceived(rx: seq<bv8>, data: seq<bv8>, after: seq<bv8>)
    requires |rx| >= 3 && rx[0] == STX && rx[1] == ACK
    requires data == rx[3..][..Min(rx[2] as nat, |rx| - 3)] && after == rx[3 + |data|..]
    requires after != [] && after[0] == Sum8([ACK, rx[2]] + data)
    ensures |data| < 256 && rx == Frame(data) + after[1..]
  {
    ByteOfInt(rx[2] as int);
    assert rx == [rx[0], rx[1], rx[2]] + data + [after[0]] + after[1..];
  }

  lemma ReceiveSound(rx: seq<bv8>, payload: seq<bv8>, trailing: seq<bv8>)
    requires |rx| >= 3 && rx[0] == STX && rx[1] == ACK && rx[2] as nat == |payload|
    requires |rx| >= 3 + |payload| && rx[3..][..|payload|] == payload
    requires rx[3 + |payload|..] == [Sum8([ACK, rx[2]] + payload)] + trailing
    ensures Receive(rx) == Received(Some(payload), trailing)
  {
  }

  /** A response whose checksum byte is missing or wrong is dropped together with that byte. */
  lemma ReceiveChecksumMismatch(rx: seq<bv8>, data: seq<bv8>, after: seq<bv8>)
    requires |rx| >= 3 && rx[0] == STX && rx[1] == ACK
    requires data == rx[3..][..Min(rx[2] as nat, |rx| - 3)] && after == rx[3 + |data|..]
    requires after == [] || after[0] != Sum8([ACK, rx[2]] + data)
    ensures Receive(rx) == Received(None, after[Min(1, |after|)..])
  {
  }

  /** Where the parts of a frame sit. */
  lemma FrameParts(payload: seq<bv8>, trailing: seq<bv8>)
    requires |payload| < 256
    ensures var rx := Frame(payload) + trailing;
      |rx| >= 3 + |payload| && rx[0] == STX && rx[1] == ACK && rx[2] as nat == |payload| &&
      rx[3..][..|payload|] == payload && rx[3 + |payload|..] == [Sum8([ACK, rx[2]] + payload)] + trailing
  {
    var len := |payload| as bv8;
    var rx := Frame(payload) + trailing;
    assert rx == [STX, ACK, len] + payload + [Sum8([ACK, len] + payload)] + trailing;
    ByteOfInt(|payload|);
    assert rx[3..][..|payload|] == payload;
  }

  /** A sound frame is taken off the port whole, and what follows it is left unread. */
  lemma ReceiveFrame(payload: seq<bv8>, trailing: seq<bv8>)
    requires |payload| < 256
    ensures Receive(Frame(payload) + trailing) == Received(Some(payload), trailing)
  {
    FrameParts(payload, trailing);
    ReceiveSound(Frame(payload) + trailing, payload, trailing);
  }

  /** `__read(cmd, s, e)` on a port whose input is `rx`. */
  function Read(cmd: int, s: nat, e: nat, rx: seq<bv8>): (x: Exchange)
    ensures InSigned(cmd, 2) <==> x.sent != []
    ensures InSigned(cmd, 2) ==> x.sent == FmtCmd(cmd)
    ensures |x.rest| <= |rx| && x.rest == rx[|rx| - |x.rest|..]
    ensures x.result.Value? ==> KnownWidth(e - s + 1) && InSigned(x.result.v, e - s + 1)
    ensures InSigned(cmd, 2) && (|rx| < 2 || rx[0] != STX || rx[1] != ACK) ==> x.result == Missing
  {
    if !InSigned(cmd, 2) then Exchange(Raises, [], rx)
    else
      var r := Receive(rx);
      match r.payload
      case None => Exchange(Missing, FmtCmd(cmd), r.rest)
      case Some(data) => Exchange(DecodeReply(cmd, s, e, data), FmtCmd(cmd), r.rest)
  }

  /** The payload of a response to `echo`: the command echoed, then the device's data. */
  function Payload(echo: int, body: seq<bv8>): (p: seq<bv8>)
    requires InSigned(echo, 2)
    ensures |p| == |body| + 2
  {
    EncodeSigned(echo, 2) + body
  }

  /** The payload is read back in full, and the bytes after the checksum are left unread. */
  lemma ReadOfFrame(cmd: int, s: nat, e: nat, payload: seq<bv8>, trailing: seq<bv8>)
    requires InSigned(cmd, 2) && |payload| < 256
    ensures Read(cmd, s, e, Frame(payload) + trailing)
         == Exchange(DecodeReply(cmd, s, e, payload), FmtCmd(cmd), trailing)
  {
    ReceiveFrame(payload, trailing);
  }

  /**
   * Round trip: a well-formed response to `cmd` whose data holds the encoding of `v` in bytes
   * `s..e`, of width 1, 2 or 4, reads as `v`, and the frame is consumed exactly.
   */
  lemma ReadOfResponse(cmd: int, s: nat, e: nat, v: int, body: seq<bv8>, trailing: seq<bv8>)
    requires InSigned(cmd, 2) && |body| < 254
    requires KnownWidth(e - s + 1) && e < |body| && InSigned(v, e - s + 1)
    requires body[s..e + 1] == EncodeSigned(v, e - s + 1)
    ensures Read(cmd, s, e, Frame(Payload(cmd, body)) + trailing)
         == Exchange(Value(v), FmtCmd(cmd), trailing)
  {
    var payload := Payload(cmd, body);
    ReadOfFrame(cmd, s, e, payload, trailing);
    assert payload[..2] == EncodeSigned(cmd, 2) && payload[2..] == body;
    DecodeOfEncode(cmd, 2);
    DecodeOfEncode(v, e - s + 1);
  }

  /** A response that echoes another command reads as None. */
  lemma ReadRejectsOtherEcho(cmd: int, echo: int, s: nat, e: nat, body: seq<bv8>, trailing: seq<bv8>)
    requires InSigned(cmd, 2) && InSigned(echo, 2) && echo != cmd && |body| < 254
    ensures Read(cmd, s, e, Frame(Payload(echo, body)) + trailing).result == Missing
  {
    var payload := Payload(echo, body);
    ReadOfFrame(cmd, s, e, payload, trailing);
    assert payload[..2] == EncodeSigned(echo, 2);
    DecodeOfEncode(echo, 2);
  }

  /** A well-formed response whose slice `s..e` is not 1, 2 or 4 bytes wide makes the read raise. */
  lemma ReadRaisesOnUnknownWidth(cmd: int, s: nat, e: nat, body: seq<bv8>, trailing: seq<bv8>)
    requires InSigned(cmd, 2) && |body| < 254 && !KnownWidth(e - s + 1)
    ensures Read(cmd, s, e, Frame(Payload(cmd, body)) + trailing).result == Raises
  {
    var payload := Payload(cmd, body);
    ReadOfFrame(cmd, s, e, payload, trailing);
    assert payload[..2] == EncodeSigned(cmd, 2);
    DecodeOfEncode(cmd, 2);
  }

  lemma ReceiveRejectsBadSum(rx: seq<bv8>, data: seq<bv8>, c: bv8)
    requires |rx| >= 3 && rx[0] == STX && rx[1] == ACK && rx[2] as nat == |data|
    requires rx[3..] == data + [c] && c != Sum8([ACK, rx[2]] + data)
    ensures Receive(rx).payload.None?
  {
    assert rx[3..][..|data|] == data;
  }

  /** A frame whose payload byte `i` has been replaced by `b` still carries the old checksum. */
  lemma CorruptedFrame(payload: seq<bv8>, i: nat, b: bv8)
    requires |payload| < 256 && i < |payload|
    ensures var len := |payload| as bv8;
      Frame(payload)[3 + i := b] == [STX, ACK, len] + (payload[i := b] + [Sum8([ACK, len] + payload)])
  {
    var len := |payload| as bv8;
    var c := Sum8([ACK, len] + payload);
    assert Frame(payload) == [STX, ACK, len] + (payload + [c]);
    UpdateAfterPrefix([STX, ACK, len], payload + [c], i, b);
    assert (payload + [c])[i := b] == payload[i := b] + [c];
  }

  lemma UpdateAfterPrefix(p: seq<bv8>, t: seq<bv8>, i: nat, b: bv8)
    requires i < |t|
    ensures (p + t)[|p| + i := b] == p + t[i := b]
  {
  }

  /** Changing any one payload byte of a response in transit makes the checksum fail. */
  lemma ReceiveRejectsCorruptedPayload(payload: seq<bv8>, i: nat, b: bv8)
    requires |payload| < 256 && i < |payload| && b != payload[i]
    ensures Receive(Frame(payload)[3 + i := b]).payload.None?
  {
    var len := |payload| as bv8;
    var corrupted := Frame(payload)[3 + i := b];
    CorruptedFrame(payload, i, b);
    ByteOfInt(|payload|);
    var header := [ACK, len];
    assert corrupted[2] == len && corrupted[3..] == payload[i := b] + [Sum8(header + payload)];
    assert (header + payload)[2 + i := b] == header + payload[i := b];
    Sum8DetectsSingleByteChange(header + payload, 2 + i, b);
    ReceiveRejectsBadSum(corrupted, payload[i := b], Sum8(header + payload));
  }

  /** `__read` reports a dropped response as missing. */
  lemma ReadOfDroppedResponse(cmd: int, s: nat, e: nat, rx: seq<bv8>)
    requires InSigned(cmd, 2) && Receive(rx).payload.None?
    ensures Read(cmd, s, e, rx).result == Missing
  {
  }

  /** Changing any one payload byte of a response in transit makes `__read` report it missing. */
  lemma ReadRejectsCorruptedPayload(cmd: int, s: nat, e: nat, payload: seq<bv8>, i: nat, b: bv8)
    requires InSigned(cmd, 2) && |payload| < 256 && i < |payload| && b != payload[i]
    ensures Read(cmd, s, e, Frame(payload)[3 + i := b]).result == Missing
  {
    ReceiveRejectsCorruptedPayload(payload, i, b);
    ReadOfDroppedResponse(cmd, s, e, Frame(payload)[3 + i := b]);
  }
}
