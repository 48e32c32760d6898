/** The resource-management message and its two ends of the control channel. */
module ControlMessage {
  import opened Bytes
  import opened Fragmentation
  import opened MessageNet

  const HEADER_LENGTH := 34
  const PAYLOAD_CAPACITY := 1024   // RMConfig::max_payload
  const RM_PRIORITY := 0
  const RM_BASIC := 3

  type uint8 = x: int | 0 <= x < 0x100
  type uint64 = x: int | 0 <= x < TWO_64

  /** The fields of a message as both sides read them. Enumerations are four bytes wide and
      may hold any value after decoding. */
  datatype Message = Message(
    kind: uint32,
    priority: uint8,
    source: uint32,
    destination: uint32,
    service: uint64,
    mode: uint8,
    stamp: int64,
    protocol: uint32,
    payload: seq<byte>)

  /** The nine adds of the encoder. */
  function MessageFields(m: Message): seq<seq<byte>> {
    [Encode(m.kind, 4), Encode(m.priority, 1), Encode(m.source, 4), Encode(m.destination, 4),
     Encode(m.service, 8), Encode(m.mode, 1), EncodeSigned(m.stamp), Encode(m.protocol, 4), m.payload]
  }

  function Wire(m: Message): seq<byte> {
    Flatten(MessageFields(m))
  }

  lemma WireLength(m: Message)
    ensures |Wire(m)| == HEADER_LENGTH + |m.payload|
  {
    var fs := MessageFields(m);
    FlattenTails(fs, 9);
    assert fs[0..] == fs && Flatten(fs[9..]) == [] && |Flatten(fs[8..])| == |m.payload|;
    assert |Flatten(fs[7..])| == 4 + |m.payload| && |Flatten(fs[6..])| == 12 + |m.payload|;
    assert |Flatten(fs[5..])| == 13 + |m.payload| && |Flatten(fs[4..])| == 21 + |m.payload|;
    assert |Flatten(fs[3..])| == 25 + |m.payload| && |Flatten(fs[2..])| == 29 + |m.payload|;
    assert |Flatten(fs[1..])| == 30 + |m.payload|;
  }

  // ---------------------------------------------------------------- decoding

  /** One scalar read: a failed read leaves the data and the previous value. */
  function Take(data: seq<byte>, width: nat, prev: nat): (seq<byte>, nat) {
    if width <= |data| then (data[width..], Decode(data[..width])) else (data, prev)
  }

  function TakeSigned(data: seq<byte>, prev: int64): (seq<byte>, int64) {
    if 8 <= |data| then (data[8..], DecodeSigned(data[..8])) else (data, prev)
  }

  lemma TakeRange(data: seq<byte>, width: nat, prev: nat)
    requires prev < Pow256(width)
    ensures Take(data, width, prev).1 < Pow256(width)
  {
    if width <= |data| {
      DecodeBound(data[..width]);
    }
  }

  lemma TakeEncoded(v: nat, width: nat, rest: seq<byte>, prev: nat)
    requires v < Pow256(width)
    ensures Take(Encode(v, width) + rest, width, prev) == (rest, v)
  {
    var data := Encode(v, width) + rest;
    assert data[..width] == Encode(v, width) && data[width..] == rest;
    DecodeEncode(v, width);
  }

  lemma TakeSignedEncoded(v: int64, rest: seq<byte>, prev: int64)
    ensures TakeSigned(EncodeSigned(v) + rest, prev) == (rest, v)
  {
    var data := EncodeSigned(v) + rest;
    assert data[..8] == EncodeSigned(v) && data[8..] == rest;
    DecodeEncodeSigned(v);
  }

  function Take32(data: seq<byte>, prev: uint32): (seq<byte>, uint32) {
    Widths();
    TakeRange(data, 4, prev);
    Take(data, 4, prev)
  }

  function Take8(data: seq<byte>, prev: uint8): (seq<byte>, uint8) {
    Widths();
    TakeRange(data, 1, prev);
    Take(data, 1, prev)
  }

  function Take64(data: seq<byte>, prev: uint64): (seq<byte>, uint64) {
    Widths();
    TakeRange(data, 8, prev);
    Take(data, 8, prev)
  }

  /** The decoder on a datagram, reusing a message that still holds `prev`. */
  function Unwire(data: seq<byte>, prev: Message): Message {
    var (d1, kind) := Take32(data, prev.kind);
    var (d2, priority) := Take8(d1, prev.priority);
    var (d3, source) := Take32(d2, prev.source);
    var (d4, destination) := Take32(d3, prev.destination);
    var (d5, service) := Take64(d4, prev.service);
    var (d6, mode) := Take8(d5, prev.mode);
    var (d7, stamp) := TakeSigned(d6, prev.stamp);
    var (d8, protocol) := Take32(d7, prev.protocol);
    Message(kind, priority, source, destination, service, mode, stamp, protocol, d8)
  }

  lemma NextField(data: seq<byte>, at: nat, field: seq<byte>, rest: seq<byte>)
    requires at <= |data| && data[at..] == field + rest
    ensures at + |field| <= |data| && data[at..at + |field|] == field && data[at + |field|..] == rest
  {
    assert |data[at..]| == |data| - at;
    assert data[at..][..|field|] == field && data[at..][|field|..] == rest;
  }

  lemma FrontOffsets(m: Message)
    ensures |Wire(m)| == HEADER_LENGTH + |m.payload|
    ensures var d := Wire(m);
      && d[0..4] == Encode(m.kind, 4) && d[4..5] == Encode(m.priority, 1)
      && d[5..9] == Encode(m.source, 4) && d[9..13] == Encode(m.destination, 4)
      && d[13..] == Flatten(MessageFields(m)[4..])
  {
    WireLength(m);
    var d, fs := Wire(m), MessageFields(m);
    FlattenTails(fs, 4);
    assert fs[0..] == fs && d[0..] == d;
    NextField(d, 0, fs[0], Flatten(fs[1..]));
    NextField(d, 4, fs[1], Flatten(fs[2..]));
    NextField(d, 5, fs[2], Flatten(fs[3..]));
    NextField(d, 9, fs[3], Flatten(fs[4..]));
  }

  /** Where each field stands in the datagram. */
  lemma FieldOffsets(m: Message)
    ensures |Wire(m)| == HEADER_LENGTH + |m.payload|
    ensures var d := Wire(m);
      && d[0..4] == Encode(m.kind, 4) && d[4..5] == Encode(m.priority, 1)
      && d[5..9] == Encode(m.source, 4) && d[9..13] == Encode(m.destination, 4)
      && d[13..21] == Encode(m.service, 8) && d[21..22] == Encode(m.mode, 1)
      && d[22..30] == EncodeSigned(m.stamp) && d[30..34] == Encode(m.protocol, 4)
      && d[34..] == m.payload
  {
    FrontOffsets(m);
    var d, fs := Wire(m), MessageFields(m);
    FlattenTails(fs, 9);
    assert Flatten(fs[9..]) == [] && Flatten(fs[8..]) == m.payload;
    NextField(d, 13, fs[4], Flatten(fs[5..]));
    NextField(d, 21, fs[5], Flatten(fs[6..]));
    NextField(d, 22, fs[6], Flatten(fs[7..]));
    NextField(d, 30, fs[7], Flatten(fs[8..]));
  }

  /** Decoding what was encoded gives the message back, whatever the reused message held. */
  lemma RoundTrip(m: Message, prev: Message)
    ensures Unwire(Wire(m), prev) == m
  {
    Widths();
    var fs := MessageFields(m);
    FlattenTails(fs, 9);
    assert fs[0..] == fs && Flatten(fs[9..]) == [] && Flatten(fs[8..]) == m.payload;
    TakeEncoded(m.kind, 4, Flatten(fs[1..]), prev.kind);
    TakeEncoded(m.priority, 1, Flatten(fs[2..]), prev.priority);
    TakeEncoded(m.source, 4, Flatten(fs[3..]), prev.source);
    TakeEncoded(m.destination, 4, Flatten(fs[4..]), prev.destination);
    TakeEncoded(m.service, 8, Flatten(fs[5..]), prev.service);
    TakeEncoded(m.mode, 1, Flatten(fs[6..]), prev.mode);
    TakeSignedEncoded(m.stamp, Flatten(fs[7..]), prev.stamp);
    TakeEncoded(m.protocol, 4, Flatten(fs[8..]), prev.protocol);
  }

  /** What a datagram decodes to depends on the reused message exactly when the datagram is
      shorter than a header. */
  lemma IndependentExactly(data: seq<byte>)
    ensures (forall p, q :: Unwire(data, p) == Unwire(data, q)) <==> |data| >= HEADER_LENGTH
  {
    if |data| < HEADER_LENGTH {
      var p := Message(0, 0, 0, 0, 0, 0, 0, 0, []);
      var q := Message(1, 1, 1, 1, 1, 1, 1, 1, []);
      SomeFieldKept(data, p, q);
    }
  }

  /** What a datagram leaves for the payload fits the payload array exactly if the datagram is no
      longer than header and array together, 1058 bytes. */
  lemma FitsExactly(data: seq<byte>, prev: Message)
    ensures |Unwire(data, prev).payload| <= PAYLOAD_CAPACITY <==> |data| <= HEADER_LENGTH + PAYLOAD_CAPACITY
  {}

  lemma SomeFieldKept(data: seq<byte>, p: Message, q: Message)
    requires |data| < HEADER_LENGTH
    requires p == Message(0, 0, 0, 0, 0, 0, 0, 0, []) && q == Message(1, 1, 1, 1, 1, 1, 1, 1, [])
    ensures Unwire(data, p) != Unwire(data, q)
  {
    var (d1, _) := Take32(data, 0);
    var (d2, _) := Take8(d1, 0);
    var (d3, _) := Take32(d2, 0);
    var (d4, _) := Take32(d3, 0);
    var (d5, _) := Take64(d4, 0);
    var (d6, _) := Take8(d5, 0);
    var (d7, _) := TakeSigned(d6, 0);
  }

  // ---------------------------------------------------------------- the message object

  class RMMessage {
    var kind: uint32
    var priority: uint8
    var source: uint32
    var destination: uint32
    var service: uint64
    var mode: uint8
    var stamp: int64
    var protocol: uint32
    var payload: array<byte>
    var payloadSize: nat

    ghost predicate Valid()
      reads this
    {
      payload.Length == PAYLOAD_CAPACITY && payloadSize <= PAYLOAD_CAPACITY
    }

    function Value(): Message
      requires Valid()
      reads this, payload
    {
      Message(kind, priority, source, destination, service, mode, stamp, protocol, payload[..payloadSize])
    }

    /** The empty message a receiver starts from. */
    constructor ()
      ensures Valid() && fresh(payload)
      ensures payloadSize == 0
    {
      kind, priority, source, destination := 0, 0xFF, 0, 0;
      service, mode, stamp, protocol := 0xFFFF_FFFF_FFFF_FFFF, 0xFF, 0, 0;
      payload := new byte[PAYLOAD_CAPACITY](_ => 0);
      payloadSize := 0;
    }

    /** A message around the parameter stream in `net`; the mode is cut to one byte. Of a stream
        longer than the payload array, which the source copies beyond it, nothing is said. */
    constructor Wrap(kind: uint32, priority: uint8, source: uint32, destination: uint32, service: uint64,
                     mode: uint32, stamp: int64, protocol: uint32, net: MessageNet)
      requires net.Valid() && net.length <= net.maxSize
      ensures Valid() && fresh(payload)
      ensures net.length <= PAYLOAD_CAPACITY ==>
              Value() == Message(kind, priority, source, destination, service, mode % 0x100, stamp, protocol,
                                 net.buffer[..net.length])
    {
      this.kind, this.priority, this.source, this.destination := kind, priority, source, destination;
      this.service, this.mode, this.stamp, this.protocol := service, mode % 0x100, stamp, protocol;
      var bytes := new byte[PAYLOAD_CAPACITY](_ => 0);
      var size := if net.length <= PAYLOAD_CAPACITY then net.length else 0;
      forall i | 0 <= i < size {
        bytes[i] := net.buffer[i];
      }
      payload := bytes;
      payloadSize := size;
      new;
      assert payload[..payloadSize] == net.buffer[..size];
    }

    method RmToNetwork(message: MessageNet)
      requires Valid() && message.Valid() && message.buffer != payload
      modifies message`pos, message`length, message.buffer
      ensures Valid() && message.Valid() && Value() == old(Value())
      ensures message.View() == AddAll(old(message.View()), MessageFields(Value()))
    {
      ghost var start := message.View();
      ghost var fs := MessageFields(Value());
      message.AddField(Encode(kind, 4), start, fs, 0);
      message.AddField(Encode(priority, 1), start, fs, 1);
      message.AddField(Encode(source, 4), start, fs, 2);
      message.AddField(Encode(destination, 4), start, fs, 3);
      message.AddField(Encode(service, 8), start, fs, 4);
      message.AddField(Encode(mode, 1), start, fs, 5);
      message.AddField(EncodeSigned(stamp), start, fs, 6);
      message.AddField(Encode(protocol, 4), start, fs, 7);
      message.AddField(payload[..payloadSize], start, fs, 8);
    }

    /** Decode into this object, whatever it held. `fits` says whether the payload array takes
        what follows the header; if it does not, the source writes beyond it, and nothing is
        said about the object. */
    method NetworkToRm(message: MessageNet) returns (fits: bool)
      requires Valid() && message.Valid() && message.buffer != payload
      requires message.pos <= message.length <= message.maxSize
      modifies this, payload, message`pos
      ensures Valid() && payload == old(payload)
      ensures fits <==> |old(Rest(message.View()))| <= HEADER_LENGTH + PAYLOAD_CAPACITY
      ensures fits ==> Value() == Unwire(old(Rest(message.View())), old(Value()))
    {
      FitsExactly(Rest(message.View()), Value());
      var m := ReadHeader(message, Value());
      fits := message.length - message.pos <= PAYLOAD_CAPACITY;
      if !fits {
        return;
      }
      var code, bytes := message.Read(message.length - message.pos, []);
      assert bytes == m.payload;
      Assign(m.(payload := bytes));
    }

    /** Take over decoded fields and payload. */
    method Assign(m: Message)
      requires Valid() && |m.payload| <= PAYLOAD_CAPACITY
      modifies this, payload
      ensures Valid() && payload == old(payload) && Value() == m
    {
      kind, priority, source, destination := m.kind, m.priority, m.source, m.destination;
      service, mode, stamp, protocol := m.service, m.mode, m.stamp, m.protocol;
      payloadSize := |m.payload|;
      forall i | 0 <= i < |m.payload| {
        payload[i] := m.payload[i];
      }
      assert payload[..payloadSize] == m.payload;
    }
  }

  // Reads of one field, leaving the target as it is when the message is too short.

  method Read32(message: MessageNet, target: uint32) returns (val: uint32)
    requires message.Valid() && message.pos <= message.length <= message.maxSize
    modifies message`pos
    ensures message.Valid() && message.pos <= message.length
    ensures (Rest(message.View()), val) == Take32(old(Rest(message.View())), target)
  {
    var code, bytes := message.Read(4, Encode(target, 4));
    Widths();
    DecodeEncode(target, 4);
    DecodeBound(bytes);
    val := Decode(bytes);
  }

  method Read8(message: MessageNet, target: uint8) returns (val: uint8)
    requires message.Valid() && message.pos <= message.length <= message.maxSize
    modifies message`pos
    ensures message.Valid() && message.pos <= message.length
    ensures (Rest(message.View()), val) == Take8(old(Rest(message.View())), target)
  {
    var code, bytes := message.Read(1, Encode(target, 1));
    Widths();
    DecodeEncode(target, 1);
    DecodeBound(bytes);
    val := Decode(bytes);
  }

  method Read64(message: MessageNet, target: uint64) returns (val: uint64)
    requires message.Valid() && message.pos <= message.length <= message.maxSize
    modifies message`pos
    ensures message.Valid() && message.pos <= message.length
    ensures (Rest(message.View()), val) == Take64(old(Rest(message.View())), target)
  {
    var code, bytes := message.Read(8, Encode(target, 8));
    Widths();
    DecodeEncode(target, 8);
    DecodeBound(bytes);
    val := Decode(bytes);
  }

  method ReadSigned(message: MessageNet, target: int64) returns (val: int64)
    requires message.Valid() && message.pos <= message.length <= message.maxSize
    modifies message`pos
    ensures message.Valid() && message.pos <= message.length
    ensures (Rest(message.View()), val) == TakeSigned(old(Rest(message.View())), target)
  {
    var code, bytes := message.Read(8, EncodeSigned(target));
    DecodeEncodeSigned(target);
    val := DecodeSigned(bytes);
  }

  /** The eight scalar reads of the decoder; what is left is the payload. */
  method ReadHeader(message: MessageNet, prev: Message) returns (m: Message)
    requires message.Valid() && message.pos <= message.length <= message.maxSize
    modifies message`pos
    ensures message.Valid() && message.pos <= message.length
    ensures m == Unwire(old(Rest(message.View())), prev)
    ensures m.payload == Rest(message.View())
  {
    var kind := Read32(message, prev.kind);
    var priority := Read8(message, prev.priority);
    var source := Read32(message, prev.source);
    var destination := Read32(message, prev.destination);
    var service := Read64(message, prev.service);
    var mode := Read8(message, prev.mode);
    var stamp := ReadSigned(message, prev.stamp);
    var protocol := Read32(message, prev.protocol);
    m := Message(kind, priority, source, destination, service, mode, stamp, protocol,
                 message.buffer[message.pos..message.length]);
  }

  // ---------------------------------------------------------------- the channel

  /** Encode into a fresh buffer and hand the message bytes to the socket. */
  method SendoutControlMessage(message: RMMessage) returns (datagram: seq<byte>)
    requires message.Valid()
    ensures datagram == Wire(message.Value())
  {
    var rmBuffer := new MessageNet();
    ghost var bytes := rmBuffer.buffer[..];
    message.RmToNetwork(rmBuffer);
    WireLength(message.Value());
    AllAccepted(MessageFields(message.Value()), MAX_LENGTH);
    BufferLaw(bytes, MessageFields(message.Value()));
    datagram := rmBuffer.buffer[..rmBuffer.length];
  }

  /** Receive a datagram into a fresh buffer, which cuts it at the buffer's size, and decode it
      into the caller's message. */
  method ReceiveControlMessage(datagram: seq<byte>, message: RMMessage) returns (fits: bool)
    requires message.Valid()
    modifies message, message.payload
    ensures message.Valid() && message.payload == old(message.payload)
    ensures fits <==> |datagram| <= HEADER_LENGTH + PAYLOAD_CAPACITY
    ensures fits ==> message.Value() == Unwire(datagram, old(message.Value()))
  {
    var rmBuffer := new MessageNet();
    var size := if |datagram| < MAX_LENGTH then |datagram| else MAX_LENGTH;
    forall i | 0 <= i < size {
      rmBuffer.buffer[i] := datagram[i];
    }
    rmBuffer.length := size;
    assert Rest(rmBuffer.View()) == datagram[..size];
    assert size == |datagram| ==> datagram[..size] == datagram;
    fits := message.NetworkToRm(rmBuffer);
  }
}
