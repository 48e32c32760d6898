/** The parameter stream inside a control message: object parameters, the three timestamps of
    a mode change, and the resource request. */
module Payload {
  import opened Bytes
  import opened ControlMessage
  import opened Fragmentation
  import opened MessageNet
  import opened Time

  const REQUEST_LENGTH := 64     // image of `network_resource_request`
  const STREAM_LENGTH := 136

  type RequestImage = bs: seq<byte> | |bs| == REQUEST_LENGTH witness seq(REQUEST_LENGTH, _ => 0)

  /** A timestamp whose fields fit the 64-bit fields it is stored in. */
  type WireTime = t: Timespec | IsInt64(t.sec) && IsInt64(t.nsec) witness Timespec(0, 0)

  predicate IsInt64(x: int) {
    -0x8000_0000_0000_0000 <= x < 0x8000_0000_0000_0000
  }

  /** The request structure is copied as raw memory; its bytes are not interpreted here. */
  datatype Parameters = Parameters(
    objectSize: uint32,
    objectDeadline: int64,
    priority: uint32,
    measurement: uint32,
    action: uint32,
    stop: WireTime,
    reconfig: WireTime,
    start: WireTime,
    request: RequestImage)

  function EncodeTime(t: WireTime): (bs: seq<byte>)
    ensures |bs| == 16
  {
    EncodeSigned(t.sec) + EncodeSigned(t.nsec)
  }

  /** The nine adds of the serialiser. */
  function StreamFields(p: Parameters): seq<seq<byte>> {
    [Encode(p.objectSize, 4), EncodeSigned(p.objectDeadline), Encode(p.priority, 4), Encode(p.measurement, 4),
     Encode(p.action, 4), EncodeTime(p.stop), EncodeTime(p.reconfig), EncodeTime(p.start), p.request]
  }

  function Stream(p: Parameters): seq<byte> {
    Flatten(StreamFields(p))
  }

  lemma StreamLength(p: Parameters)
    ensures |Stream(p)| == STREAM_LENGTH
  {
    var fs := StreamFields(p);
    FlattenTails(fs, 9);
    assert fs[0..] == fs && Flatten(fs[9..]) == [] && |Flatten(fs[8..])| == 64;
    assert |Flatten(fs[7..])| == 80 && |Flatten(fs[6..])| == 96 && |Flatten(fs[5..])| == 112;
    assert |Flatten(fs[4..])| == 116 && |Flatten(fs[3..])| == 120 && |Flatten(fs[2..])| == 124;
    assert |Flatten(fs[1..])| == 132;
  }

  function TakeTime(data: seq<byte>, prev: WireTime): (seq<byte>, WireTime) {
    if 16 <= |data| then (data[16..], Timespec(DecodeSigned(data[..8]), DecodeSigned(data[8..16])))
    else (data, prev)
  }

  function TakeRequest(data: seq<byte>, prev: RequestImage): (seq<byte>, RequestImage) {
    if REQUEST_LENGTH <= |data| then (data[REQUEST_LENGTH..], data[..REQUEST_LENGTH]) else (data, prev)
  }

  lemma TakeTimeEncoded(t: WireTime, rest: seq<byte>, prev: WireTime)
    ensures TakeTime(EncodeTime(t) + rest, prev) == (rest, t)
  {
    var data := EncodeTime(t) + rest;
    assert data[..8] == EncodeSigned(t.sec) && data[8..16] == EncodeSigned(t.nsec) && data[16..] == rest;
    DecodeEncodeSigned(t.sec);
    DecodeEncodeSigned(t.nsec);
  }

  /** The deserialiser on a parameter stream, into an object that holds `prev`. */
  function Parse(data: seq<byte>, prev: Parameters): (seq<byte>, Parameters) {
    var (d1, objectSize) := Take32(data, prev.objectSize);
    var (d2, objectDeadline) := TakeSigned(d1, prev.objectDeadline);
    var (d3, priority) := Take32(d2, prev.priority);
    var (d4, measurement) := Take32(d3, prev.measurement);
    var (d5, action) := Take32(d4, prev.action);
    var (d6, stop) := TakeTime(d5, prev.stop);
    var (d7, reconfig) := TakeTime(d6, prev.reconfig);
    var (d8, start) := TakeTime(d7, prev.start);
    var (d9, request) := TakeRequest(d8, prev.request);
    (d9, Parameters(objectSize, objectDeadline, priority, measurement, action, stop, reconfig, start, request))
  }

  lemma FrontParameters(p: Parameters)
    ensures |Stream(p)| == 136
    ensures var d := Stream(p);
      && d[0..4] == Encode(p.objectSize, 4) && d[4..12] == EncodeSigned(p.objectDeadline)
      && d[12..16] == Encode(p.priority, 4) && d[16..20] == Encode(p.measurement, 4)
      && d[20..24] == Encode(p.action, 4)
      && d[24..] == Flatten(StreamFields(p)[5..])
  {
    StreamLength(p);
    var d, fs := Stream(p), StreamFields(p);
    FlattenTails(fs, 5);
    assert fs[0..] == fs && d[0..] == d;
    NextField(d, 0, fs[0], Flatten(fs[1..]));
    NextField(d, 4, fs[1], Flatten(fs[2..]));
    NextField(d, 12, fs[2], Flatten(fs[3..]));
    NextField(d, 16, fs[3], Flatten(fs[4..]));
    NextField(d, 20, fs[4], Flatten(fs[5..]));
  }

  /** Where each parameter stands in the stream. */
  lemma ParameterOffsets(p: Parameters)
    ensures |Stream(p)| == 136
    ensures var d := Stream(p);
      && d[0..4] == Encode(p.objectSize, 4) && d[4..12] == EncodeSigned(p.objectDeadline)
      && d[12..16] == Encode(p.priority, 4) && d[16..20] == Encode(p.measurement, 4)
      && d[20..24] == Encode(p.action, 4)
      && d[24..40] == EncodeSigned(p.stop.sec) + EncodeSigned(p.stop.nsec)
      && d[40..56] == EncodeSigned(p.reconfig.sec) + EncodeSigned(p.reconfig.nsec)
      && d[56..72] == EncodeSigned(p.start.sec) + EncodeSigned(p.start.nsec)
      && d[72..136] == p.request
  {
    FrontParameters(p);
    var d, fs := Stream(p), StreamFields(p);
    FlattenTails(fs, 9);
    assert Flatten(fs[9..]) == [] && Flatten(fs[8..]) == p.request;
    NextField(d, 24, fs[5], Flatten(fs[6..]));
    NextField(d, 40, fs[6], Flatten(fs[7..]));
    NextField(d, 56, fs[7], Flatten(fs[8..]));
    assert d[72..136] == d[72..];
  }

  /** A stream with nothing in it leaves every parameter as it was. */
  lemma NothingParsed(prev: Parameters)
    ensures Parse([], prev) == ([], prev)
  {}


  lemma ParseStream(p: Parameters, prev: Parameters)
    ensures Parse(Stream(p), prev) == ([], p)
  {
    Widths();
    var fs := StreamFields(p);
    FlattenTails(fs, 9);
    assert fs[0..] == fs && Flatten(fs[9..]) == [] && Flatten(fs[8..]) == p.request;
    TakeEncoded(p.objectSize, 4, Flatten(fs[1..]), prev.objectSize);
    TakeSignedEncoded(p.objectDeadline, Flatten(fs[2..]), prev.objectDeadline);
    TakeEncoded(p.priority, 4, Flatten(fs[3..]), prev.priority);
    TakeEncoded(p.measurement, 4, Flatten(fs[4..]), prev.measurement);
    TakeEncoded(p.action, 4, Flatten(fs[5..]), prev.action);
    TakeTimeEncoded(p.stop, Flatten(fs[6..]), prev.stop);
    TakeTimeEncoded(p.reconfig, Flatten(fs[7..]), prev.reconfig);
    TakeTimeEncoded(p.start, Flatten(fs[8..]), prev.start);
  }

  /** Both codecs nested: a stream wrapped in a message, sent, decoded into any reused message
      and parsed into any reused object gives back every parameter, and the message as sent. */
  lemma NestedRoundTrip(p: Parameters, m: Message, reused: Message, prev: Parameters)
    requires m.payload == Stream(p)
    ensures var received := Unwire(Wire(m), reused);
      received == m && Parse(received.payload, prev).1 == p
  {
    RoundTrip(m, reused);
    ParseStream(p, prev);
  }

  class RMPayload {
    var objectSize: uint32
    var objectDeadline: int64
    var priority: uint32
    var measurement: uint32
    var action: uint32
    var stop: WireTime
    var reconfig: WireTime
    var start: WireTime
    var request: RequestImage

    function Value(): Parameters
      reads this
    {
      Parameters(objectSize, objectDeadline, priority, measurement, action, stop, reconfig, start, request)
    }

    constructor (p: Parameters)
      ensures Value() == p
    {
      objectSize, objectDeadline, priority := p.objectSize, p.objectDeadline, p.priority;
      measurement, action := p.measurement, p.action;
      stop, reconfig, start, request := p.stop, p.reconfig, p.start, p.request;
    }

    method Serialize(message: MessageNet)
      requires message.Valid()
      modifies message`pos, message`length, message.buffer
      ensures message.Valid() && message.View() == AddAll(old(message.View()), StreamFields(Value()))
    {
      WriteParameters(message, Value());
    }

    method Deserialize(message: MessageNet)
      requires message.Valid() && message.pos <= message.length <= message.maxSize
      modifies this, message`pos
      ensures message.Valid() && message.pos <= message.length
      ensures Value() == Parse(old(Rest(message.View())), old(Value())).1
    {
      var p := ReadParameters(message, Value());
      Assign(p);
    }

    method Assign(p: Parameters)
      modifies this
      ensures Value() == p
    {
      objectSize, objectDeadline, priority := p.objectSize, p.objectDeadline, p.priority;
      measurement, action := p.measurement, p.action;
      stop, reconfig, start, request := p.stop, p.reconfig, p.start, p.request;
    }
  }

  method ReadTime(message: MessageNet, target: WireTime) returns (val: WireTime)
    requires message.Valid() && message.pos <= message.length <= message.maxSize
    modifies message`pos
    ensures message.Valid() && message.pos <= message.length
    ensures (Rest(message.View()), val) == TakeTime(old(Rest(message.View())), target)
  {
    var code, bytes := message.Read(16, EncodeTime(target));
    if code == 0 {
      ghost var rest := old(Rest(message.View()));
      assert bytes[..8] == rest[..8] && bytes[8..] == rest[8..16];
      val := Timespec(DecodeSigned(bytes[..8]), DecodeSigned(bytes[8..]));
    } else {
      val := target;
    }
  }

  method ReadRequest(message: MessageNet, target: RequestImage) returns (val: RequestImage)
    requires message.Valid() && message.pos <= message.length <= message.maxSize
    modifies message`pos
    ensures message.Valid() && message.pos <= message.length
    ensures (Rest(message.View()), val) == TakeRequest(old(Rest(message.View())), target)
  {
    var code, bytes := message.Read(REQUEST_LENGTH, target);
    val := bytes;
  }

  /** The nine adds of the serialiser. */
  method WriteParameters(message: MessageNet, p: Parameters)
    requires message.Valid()
    modifies message`pos, message`length, message.buffer
    ensures message.Valid() && message.View() == AddAll(old(message.View()), StreamFields(p))
  {
    ghost var start := message.View();
    WriteBase(message, p, start);
    WriteNumbers(message, p, start);
    WriteTimes(message, p, start);
    WriteRest(message, p, start);
  }

  /** The fields of the base payload. */
  method WriteBase(message: MessageNet, p: Parameters, ghost start: Net)
    requires message.Valid() && message.View() == AddTo(start, StreamFields(p), 0)
    modifies message`pos, message`length, message.buffer
    ensures message.Valid() && message.View() == AddTo(start, StreamFields(p), 2)
  {
    ghost var fs := StreamFields(p);
    message.AddField(Encode(p.objectSize, 4), start, fs, 0);
    message.AddField(EncodeSigned(p.objectDeadline), start, fs, 1);
  }

  /** Priority, measurement and command. */
  method WriteNumbers(message: MessageNet, p: Parameters, ghost start: Net)
    requires message.Valid() && message.View() == AddTo(start, StreamFields(p), 2)
    modifies message`pos, message`length, message.buffer
    ensures message.Valid() && message.View() == AddTo(start, StreamFields(p), 5)
  {
    ghost var fs := StreamFields(p);
    message.AddField(Encode(p.priority, 4), start, fs, 2);
    message.AddField(Encode(p.measurement, 4), start, fs, 3);
    message.AddField(Encode(p.action, 4), start, fs, 4);
  }

  /** The timestamps of stop and reconfiguration. */
  method WriteTimes(message: MessageNet, p: Parameters, ghost start: Net)
    requires message.Valid() && message.View() == AddTo(start, StreamFields(p), 5)
    modifies message`pos, message`length, message.buffer
    ensures message.Valid() && message.View() == AddTo(start, StreamFields(p), 7)
  {
    ghost var fs := StreamFields(p);
    message.AddField(EncodeTime(p.stop), start, fs, 5);
    message.AddField(EncodeTime(p.reconfig), start, fs, 6);
  }

  /** The timestamp of the start and the resource request. */
  method WriteRest(message: MessageNet, p: Parameters, ghost start: Net)
    requires message.Valid() && message.View() == AddTo(start, StreamFields(p), 7)
    modifies message`pos, message`length, message.buffer
    ensures message.Valid() && message.View() == AddAll(start, StreamFields(p))
  {
    ghost var fs := StreamFields(p);
    message.AddField(EncodeTime(p.start), start, fs, 7);
    message.AddField(p.request, start, fs, 8);
  }

  /** The nine reads of the deserialiser. */
  method ReadParameters(message: MessageNet, prev: Parameters) returns (p: Parameters)
    requires message.Valid() && message.pos <= message.length <= message.maxSize
    modifies message`pos
    ensures message.Valid() && message.pos <= message.length
    ensures (Rest(message.View()), p) == Parse(old(Rest(message.View())), prev)
  {
    var objectSize := Read32(message, prev.objectSize);
    var objectDeadline := ReadSigned(message, prev.objectDeadline);
    var priority := Read32(message, prev.priority);
    var measurement := Read32(message, prev.measurement);
    var action := Read32(message, prev.action);
    var stop := ReadTime(message, prev.stop);
    var reconfig := ReadTime(message, prev.reconfig);
    var start := ReadTime(message, prev.start);
    var request := ReadRequest(message, prev.request);
    p := Parameters(objectSize, objectDeadline, priority, measurement, action, stop, reconfig, start, request);
  }

  /** The receiving client's path from a decoded message to its parameters: the payload is
      added to a fresh buffer, the head reset, and a fresh object read from it. */
  method ReadOrder(m: Message) returns (p: Parameters)
    requires |m.payload| <= PAYLOAD_CAPACITY
    ensures p == Parse(m.payload, Empty()).1
  {
    var received := new MessageNet();
    ghost var bytes := received.buffer[..];
    var code := received.Add(m.payload);
    received.Reset();
    assert received.buffer[..received.length] == m.payload;
    assert Rest(received.View()) == m.payload;
    var copy := new MessageNet.Copy(received);
    var payload := new RMPayload(Empty());
    payload.Deserialize(copy);
    p := payload.Value();
  }

  /** What the empty object constructor sets. */
  function Empty(): Parameters {
    Parameters(0, 0, 0, 0, 0, Timespec(0, 0), Timespec(0, 0), Timespec(0, 0), seq(REQUEST_LENGTH, _ => 0))
  }

  /** The manager's path: serialise into a fresh buffer and wrap it as a message. */
  method WriteOrder(p: RMPayload, kind: uint32, source: uint32, destination: uint32, service: uint64,
                    mode: uint32, stamp: int64) returns (m: RMMessage)
    ensures m.Valid() && fresh(m) && fresh(m.payload)
    ensures m.Value() == Message(kind, RM_PRIORITY, source, destination, service, mode % 0x100, stamp, RM_BASIC,
                                 Stream(p.Value()))
  {
    var net := new MessageNet();
    ghost var bytes := net.buffer[..];
    p.Serialize(net);
    StreamLength(p.Value());
    AllAccepted(StreamFields(p.Value()), MAX_LENGTH);
    BufferLaw(bytes, StreamFields(p.Value()));
    assert net.buffer[..net.length] == Stream(p.Value());
    m := new RMMessage.Wrap(kind, RM_PRIORITY, source, destination, service, mode, stamp, RM_BASIC, net);
  }
}
