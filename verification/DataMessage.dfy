/** The data packet: nine adjacent byte ranges, written and read at fixed offsets. */
module DataMessage {
  import opened Bytes
  import opened ControlMessage
  import opened Fragmentation
  import opened Payload
  import opened Time

  const DATA_CAPACITY := 1451      // max_length - 21

  datatype Packet = Packet(
    priority: uint8,
    source: uint32,
    service: uint64,
    number: uint32,
    fragment: uint32,
    total: uint32,
    timestamp: WireTime,
    stamp: int64,
    payload: seq<byte>)

  /** The eight ranges of the header, in the order they are copied. */
  function HeaderFields(p: Packet): (fs: seq<seq<byte>>)
    ensures |fs| == 8
  {
    [Encode(p.priority, 1), Encode(p.source, 4), Encode(p.service, 8), Encode(p.number, 4), Encode(p.fragment, 4),
     Encode(p.total, 4), EncodeTime(p.timestamp), EncodeSigned(p.stamp)]
  }

  lemma HeaderWidths(p: Packet)
    ensures var fs := HeaderFields(p);
      && |fs[0]| == 1 && |fs[1]| == 4 && |fs[2]| == 8 && |fs[3]| == 4 && |fs[4]| == 4 && |fs[5]| == 4
      && |fs[6]| == 16 && |fs[7]| == 8
  {}

  /** The first `i` ranges laid side by side. */
  function Laid(fields: seq<seq<byte>>, i: nat): seq<byte>
    requires i <= |fields|
  {
    if i == 0 then [] else Laid(fields, i - 1) + fields[i - 1]
  }

  lemma LaidOffsets(fields: seq<seq<byte>>)
    requires |fields| == 8
    requires |fields[0]| == 1 && |fields[1]| == 4 && |fields[2]| == 8 && |fields[3]| == 4 && |fields[4]| == 4
    requires |fields[5]| == 4 && |fields[6]| == 16 && |fields[7]| == 8
    ensures |Laid(fields, 0)| == 0 && |Laid(fields, 1)| == 1 && |Laid(fields, 2)| == 5 && |Laid(fields, 3)| == 13
    ensures |Laid(fields, 4)| == 17 && |Laid(fields, 5)| == 21 && |Laid(fields, 6)| == 25 && |Laid(fields, 7)| == 41
    ensures |Laid(fields, 8)| == DECLARED_HEADER
  {
    assert |Laid(fields, 0)| == 0;
    assert |Laid(fields, 1)| == 1;
    assert |Laid(fields, 2)| == 5;
    assert |Laid(fields, 3)| == 13;
    assert |Laid(fields, 4)| == 17;
    assert |Laid(fields, 5)| == 21;
    assert |Laid(fields, 6)| == 25;
    assert |Laid(fields, 7)| == 41;
  }

  /** Range `k` stands where the ranges before it end. */
  lemma {:induction false} RangeAt(fields: seq<seq<byte>>, k: nat, n: nat)
    requires k < n <= |fields|
    ensures var at := |Laid(fields, k)|;
      at + |fields[k]| <= |Laid(fields, n)| && Laid(fields, n)[at..at + |fields[k]|] == fields[k]
    decreases n
  {
    var at := |Laid(fields, k)|;
    if k < n - 1 {
      RangeAt(fields, k, n - 1);
      assert Laid(fields, n)[at..at + |fields[k]|] == Laid(fields, n - 1)[at..at + |fields[k]|];
    }
  }

  function HeaderImage(p: Packet): seq<byte> {
    Laid(HeaderFields(p), 8)
  }

  lemma HeaderLength(p: Packet)
    ensures |HeaderImage(p)| == DECLARED_HEADER
  {
    HeaderWidths(p);
    LaidOffsets(HeaderFields(p));
  }

  function Image(p: Packet): seq<byte> {
    HeaderImage(p) + p.payload
  }

  /** A buffer that held `before` once the packet has been written to it: the image and what was
      behind it, or as much of the image as the buffer takes. */
  function Filled(p: Packet, before: seq<byte>): seq<byte> {
    if |Image(p)| <= |before| then Image(p) + before[|Image(p)|..] else Image(p)[..|before|]
  }

  lemma FilledSplits(p: Packet, before: seq<byte>, n: nat)
    requires n <= |p.payload| && DECLARED_HEADER + n <= |before|
    requires n == |p.payload| || DECLARED_HEADER + n == |before|
    ensures Filled(p, before) == HeaderImage(p) + p.payload[..n] + before[DECLARED_HEADER + n..]
  {
    HeaderLength(p);
    if n == |p.payload| {
      assert p.payload[..n] == p.payload;
    }
  }

  function Number(data: seq<byte>, at: nat, width: nat): (n: nat)
    requires at + width <= |data|
    ensures n < Pow256(width)
  {
    DecodeBound(data[at..at + width]);
    Decode(data[at..at + width])
  }

  function Signed(data: seq<byte>, at: nat): int64
    requires at + 8 <= |data|
  {
    DecodeSigned(data[at..at + 8])
  }

  /** The header fields at their fixed offsets. */
  function HeaderFrom(data: seq<byte>): Packet
    requires DECLARED_HEADER <= |data|
  {
    Widths();
    Packet(Number(data, 0, 1), Number(data, 1, 4), Number(data, 5, 8), Number(data, 13, 4),
           Number(data, 17, 4), Number(data, 21, 4), Timespec(Signed(data, 25), Signed(data, 33)),
           Signed(data, 41), [])
  }

  /** The decoder: the header fields, and as payload what `size` leaves after the decoder's own
      `header_length`. */
  function ParsePacket(data: seq<byte>, size: nat, headerLength: nat): Packet
    requires DECLARED_HEADER <= |data|
    requires headerLength <= size && DECLARED_HEADER + (size - headerLength) <= |data|
  {
    HeaderFrom(data).(payload := data[DECLARED_HEADER..DECLARED_HEADER + (size - headerLength)])
  }

  lemma PayloadRead(data: seq<byte>, header: Packet, size: nat, headerLength: nat)
    requires DECLARED_HEADER <= |data| && header == HeaderFrom(data)
    requires headerLength <= size && DECLARED_HEADER + (size - headerLength) <= |data|
    ensures ParsePacket(data, size, headerLength)
         == header.(payload := data[DECLARED_HEADER..DECLARED_HEADER + (size - headerLength)])
  {}

  lemma NumberAt(fields: seq<seq<byte>>, k: nat, v: nat, width: nat, rest: seq<byte>)
    requires k < |fields| && fields[k] == Encode(v, width) && v < Pow256(width)
    ensures var at := |Laid(fields, k)|;
      at + width <= |Laid(fields, |fields|)| && Number(Laid(fields, |fields|) + rest, at, width) == v
  {
    var at := |Laid(fields, k)|;
    RangeAt(fields, k, |fields|);
    assert (Laid(fields, |fields|) + rest)[at..at + width] == fields[k];
    DecodeEncode(v, width);
  }

  lemma Halves(data: seq<byte>, at: nat)
    requires at + 16 <= |data|
    ensures data[at..at + 8] == data[at..at + 16][..8] && data[at + 8..at + 16] == data[at..at + 16][8..]
  {}

  lemma TimeAt(fields: seq<seq<byte>>, k: nat, t: WireTime, rest: seq<byte>)
    requires k < |fields| && fields[k] == EncodeTime(t)
    ensures var at := |Laid(fields, k)|;
      && at + 16 <= |Laid(fields, |fields|)|
      && Signed(Laid(fields, |fields|) + rest, at) == t.sec
      && Signed(Laid(fields, |fields|) + rest, at + 8) == t.nsec
  {
    var at := |Laid(fields, k)|;
    var data := Laid(fields, |fields|) + rest;
    RangeAt(fields, k, |fields|);
    assert data[at..at + 16] == fields[k];
    Halves(data, at);
    DecodeEncodeSigned(t.sec);
    DecodeEncodeSigned(t.nsec);
  }

  lemma SignedAt(fields: seq<seq<byte>>, k: nat, v: int64, rest: seq<byte>)
    requires k < |fields| && fields[k] == EncodeSigned(v)
    ensures var at := |Laid(fields, k)|;
      at + 8 <= |Laid(fields, |fields|)| && Signed(Laid(fields, |fields|) + rest, at) == v
  {
    var at := |Laid(fields, k)|;
    RangeAt(fields, k, |fields|);
    assert (Laid(fields, |fields|) + rest)[at..at + 8] == fields[k];
    DecodeEncodeSigned(v);
  }

  lemma NumbersBack(p: Packet, rest: seq<byte>)
    ensures |HeaderImage(p)| == DECLARED_HEADER
    ensures var data := HeaderImage(p) + rest;
      && Number(data, 0, 1) == p.priority && Number(data, 1, 4) == p.source && Number(data, 5, 8) == p.service
      && Number(data, 13, 4) == p.number && Number(data, 17, 4) == p.fragment && Number(data, 21, 4) == p.total
  {
    Widths();
    HeaderWidths(p);
    var fs := HeaderFields(p);
    LaidOffsets(fs);
    NumberAt(fs, 0, p.priority, 1, rest);
    NumberAt(fs, 1, p.source, 4, rest);
    NumberAt(fs, 2, p.service, 8, rest);
    NumberAt(fs, 3, p.number, 4, rest);
    NumberAt(fs, 4, p.fragment, 4, rest);
    NumberAt(fs, 5, p.total, 4, rest);
  }

  lemma TimesBack(p: Packet, rest: seq<byte>)
    ensures |HeaderImage(p)| == DECLARED_HEADER
    ensures var data := HeaderImage(p) + rest;
      Signed(data, 25) == p.timestamp.sec && Signed(data, 33) == p.timestamp.nsec && Signed(data, 41) == p.stamp
  {
    HeaderWidths(p);
    var fs := HeaderFields(p);
    LaidOffsets(fs);
    TimeAt(fs, 6, p.timestamp, rest);
    SignedAt(fs, 7, p.stamp, rest);
  }

  /** All eight header fields come back from a datagram that starts with the header. */
  lemma HeaderBack(p: Packet, rest: seq<byte>, size: nat, headerLength: nat)
    requires headerLength <= size && size - headerLength <= |rest|
    ensures |HeaderImage(p)| == DECLARED_HEADER
    ensures ParsePacket(HeaderImage(p) + rest, size, headerLength) == p.(payload := rest[..size - headerLength])
  {
    NumbersBack(p, rest);
    TimesBack(p, rest);
    PayloadAt(HeaderImage(p), rest, size - headerLength);
  }

  /** Reassemble three adjacent parts. */
  lemma SplitAt(whole: seq<byte>, a: seq<byte>, b: seq<byte>, c: seq<byte>)
    requires |whole| == |a| + |b| + |c|
    requires whole[..|a|] == a
    requires forall i :: 0 <= i < |b| ==> whole[|a| + i] == b[i]
    requires forall i :: 0 <= i < |c| ==> whole[|a| + |b| + i] == c[i]
    ensures whole == a + b + c
  {}

  lemma PayloadAt(header: seq<byte>, rest: seq<byte>, n: nat)
    requires n <= |rest|
    ensures (header + rest)[|header|..|header| + n] == rest[..n]
  {}

  /** A packet comes back whole from its image exactly when the size told to the decoder and
      the decoder's header length differ by the payload length. */
  lemma PacketRoundTrip(p: Packet, size: nat, headerLength: nat)
    requires headerLength <= size && size - headerLength <= |p.payload|
    ensures |Image(p)| == DECLARED_HEADER + |p.payload|
    ensures ParsePacket(Image(p), size, headerLength) == p <==> size == headerLength + |p.payload|
  {
    HeaderBack(p, p.payload, size, headerLength);
    if size == headerLength + |p.payload| {
      assert p.payload[..size - headerLength] == p.payload;
    } else {
      assert |p.payload[..size - headerLength]| != |p.payload|;
    }
  }

  lemma CutBehind(header: seq<byte>, payload: seq<byte>, n: nat)
    requires n <= |payload|
    ensures (header + payload)[..|header| + n] == header + payload[..n]
  {}

  /** A datagram of the header and `rest`, read with the declared header. */
  lemma ReadsAs(p: Packet, rest: seq<byte>)
    ensures |HeaderImage(p)| == DECLARED_HEADER
    ensures ParsePacket(HeaderImage(p) + rest, DECLARED_HEADER + |rest|, DECLARED_HEADER) == p.(payload := rest)
  {
    HeaderBack(p, rest, DECLARED_HEADER + |rest|, DECLARED_HEADER);
    assert rest[..|rest|] == rest;
  }

  /** The length the constructors set is eight bytes short of the layout: a receiver with the
      declared header gets every header field of such a datagram, and the payload without its
      last eight bytes. */
  lemma ConstructedLengthCutsPayload(p: Packet)
    requires |p.payload| >= 8
    ensures |Image(p)| == DECLARED_HEADER + |p.payload|
    ensures var sent := Image(p)[..CONSTRUCTED_HEADER + |p.payload|];
      ParsePacket(sent, |sent|, DECLARED_HEADER) == p.(payload := p.payload[..|p.payload| - 8])
  {
    var n := |p.payload| - 8;
    ReadsAs(p, p.payload[..n]);
    CutBehind(HeaderImage(p), p.payload, n);
  }

  class DataMessage {
    var priority: uint8
    var source: uint32
    var service: uint64
    var number: uint32
    var fragment: uint32
    var total: uint32
    var timestamp: WireTime
    var stamp: int64
    var payload: array<byte>
    var payloadLength: nat
    var headerLength: nat
    var length: nat

    ghost predicate Valid()
      reads this
    {
      payload.Length == DATA_CAPACITY && payloadLength <= DATA_CAPACITY
    }

    function Value(): Packet
      requires Valid()
      reads this, payload
    {
      Packet(priority, source, service, number, fragment, total, timestamp, stamp, payload[..payloadLength])
    }

    /** The empty message of a receiver; its header length is the declared one. */
    constructor ()
      ensures Valid() && fresh(payload) && headerLength == DECLARED_HEADER
    {
      priority, source, service, number := 0xFF, 0, 0xFFFF_FFFF_FFFF_FFFF, 0;
      fragment, total := 0xFFFF_FFFF, 0xFFFF_FFFF;
      timestamp, stamp := Timespec(0, 0), 0;
      payload := new byte[DATA_CAPACITY](_ => 0);
      payloadLength, headerLength, length := 0, DECLARED_HEADER, DECLARED_HEADER;
    }

    /** Write the nine ranges; they are adjacent and disjoint, and nothing behind them changes.
        `fits` says whether the buffer takes them all; if not, the source writes beyond it, and
        only what lies within the buffer is said. */
    method DataToNet(message: array<byte>) returns (fits: bool)
      requires Valid() && message != payload
      modifies message
      ensures fits <==> DECLARED_HEADER + payloadLength <= message.Length
      ensures DECLARED_HEADER <= message.Length ==> message[..] == Filled(Value(), old(message[..]))
    {
      HeaderLength(Value());
      fits := DECLARED_HEADER + payloadLength <= message.Length;
      if message.Length < DECLARED_HEADER {
        return;
      }
      var at := WriteHeader(message, Value());
      var n := if fits then payloadLength else message.Length - at;
      CopyPayload(message, at, n);
      SplitAt(message[..], HeaderImage(Value()), Value().payload[..n], old(message[at + n..]));
      FilledSplits(Value(), old(message[..]), n);
    }

    /** The ninth range, as far as the buffer goes. */
    method CopyPayload(message: array<byte>, at: nat, n: nat)
      requires Valid() && message != payload && n <= payloadLength && at + n <= message.Length
      modifies message
      ensures message[..at] == old(message[..at])
      ensures forall i :: 0 <= i < n ==> message[at + i] == payload[i]
      ensures forall i :: at + n <= i < message.Length ==> message[i] == old(message[i])
    {
      forall i | 0 <= i < n {
        message[at + i] := payload[i];
      }
    }

    /** Decode `size` bytes into this object. `fits` says whether the payload that `size` leaves
        behind the header lies within both arrays; otherwise the source's subtraction wraps or
        its copy leaves them, and nothing is said about the object. */
    method NetToData(message: array<byte>, size: nat) returns (fits: bool)
      requires Valid() && message != payload && DECLARED_HEADER <= message.Length
      modifies this, payload
      ensures Valid() && payload == old(payload) && headerLength == old(headerLength) && length == size
      ensures fits <==> headerLength <= size <= headerLength + DATA_CAPACITY
                        && DECLARED_HEADER + size - headerLength <= message.Length
      ensures fits ==> Value() == ParsePacket(message[..], size, headerLength)
    {
      length := size;
      fits := false;
      var header, at := ReadRanges(message);
      Assign(header);
      if length < headerLength {
        return;
      }
      var n := length - headerLength;
      if n <= DATA_CAPACITY && at + n <= message.Length {
        TakePayload(message, at, n);
        PayloadRead(message[..], header, size, headerLength);
        fits := true;
      }
    }

    /** Take over the fields of the header. */
    method Assign(p: Packet)
      requires Valid()
      modifies this
      ensures Valid() && payload == old(payload) && headerLength == old(headerLength) && length == old(length)
      ensures Value() == p.(payload := [])
    {
      payloadLength := 0;
      priority, source, service, number := p.priority, p.source, p.service, p.number;
      fragment, total, timestamp, stamp := p.fragment, p.total, p.timestamp, p.stamp;
    }

    /** The ninth range: `n` bytes from offset `at`. */
    method TakePayload(message: array<byte>, at: nat, n: nat)
      requires Valid() && message != payload && n <= DATA_CAPACITY && at + n <= message.Length
      modifies this`payloadLength, payload
      ensures Valid() && Value() == old(Value()).(payload := message[at..at + n])
    {
      payloadLength := n;
      forall i | 0 <= i < n {
        payload[i] := message[at + i];
      }
      assert payload[..n] == message[at..at + n];
    }
  }

  /** The eight header reads, each at the offset the one before it ends at. */
  method ReadRanges(message: array<byte>) returns (p: Packet, at: nat)
    requires DECLARED_HEADER <= message.Length
    ensures at == DECLARED_HEADER
    ensures p == HeaderFrom(message[..])
  {
    var priority, source, service, number, fragment, total;
    priority, at := NumberFrom(message, 0, 1);
    source, at := NumberFrom(message, at, 4);
    service, at := NumberFrom(message, at, 8);
    number, at := NumberFrom(message, at, 4);
    fragment, at := NumberFrom(message, at, 4);
    total, at := NumberFrom(message, at, 4);
    var sec, nsec, stamp;
    sec, at := SignedFrom(message, at);
    nsec, at := SignedFrom(message, at);
    stamp, at := SignedFrom(message, at);
    Widths();
    p := Packet(priority, source, service, number, fragment, total, Timespec(sec, nsec), stamp, []);
  }

  method NumberFrom(message: array<byte>, at: nat, width: nat) returns (value: nat, next: nat)
    requires at + width <= message.Length
    ensures next == at + width && value == Number(message[..], at, width)
  {
    next := at + width;
    value := Decode(message[at..next]);
    assert message[..][at..next] == message[at..next];
  }

  method SignedFrom(message: array<byte>, at: nat) returns (value: int64, next: nat)
    requires at + 8 <= message.Length
    ensures next == at + 8 && value == Signed(message[..], at)
  {
    next := at + 8;
    value := DecodeSigned(message[at..next]);
    assert message[..][at..next] == message[at..next];
  }

  /** The eight header copies. */
  method WriteHeader(message: array<byte>, p: Packet) returns (at: nat)
    requires DECLARED_HEADER <= message.Length
    modifies message
    ensures at == DECLARED_HEADER
    ensures message[..at] == HeaderImage(p)
    ensures forall i :: at <= i < message.Length ==> message[i] == old(message[i])
  {
    var ranges := HeaderFields(p);
    HeaderWidths(p);
    LaidOffsets(ranges);
    at := Copy(message, 0, ranges, 0);
    at := Copy(message, at, ranges, 1);
    at := Copy(message, at, ranges, 2);
    at := Copy(message, at, ranges, 3);
    at := Copy(message, at, ranges, 4);
    at := Copy(message, at, ranges, 5);
    at := Copy(message, at, ranges, 6);
    at := Copy(message, at, ranges, 7);
  }

  /** Copy range `k` to offset `at`, behind the ranges before it; nothing behind it changes. */
  method Copy(message: array<byte>, at: nat, ranges: seq<seq<byte>>, k: nat) returns (next: nat)
    requires k < |ranges| && at + |ranges[k]| <= message.Length
    requires message[..at] == Laid(ranges, k)
    modifies message
    ensures next == at + |ranges[k]|
    ensures message[..next] == Laid(ranges, k + 1)
    ensures forall i :: next <= i < message.Length ==> message[i] == old(message[i])
  {
    next := at + |ranges[k]|;
    forall i | 0 <= i < |ranges[k]| {
      message[at + i] := ranges[k][i];
    }
    assert message[..at] == old(message[..at]);
    assert message[..next] == message[..at] + ranges[k];
  }
}
