/** What arrives of an object: the packets of a run, sent as datagrams of the length fixed with
    the object, and read by a receiver that goes by the declared header. */
module Delivery {
  import opened Bytes
  import opened ControlInterface
  import opened DataMessage
  import opened Fragmentation
  import opened Generator
  import opened PacketStream
  import opened Time

  /** The payload as it stands in a send buffer of the packet, followed by what was there before. */
  function Behind(p: Packet, before: seq<byte>): seq<byte> {
    p.payload + (if |Image(p)| <= |before| then before[|Image(p)|..] else [])
  }

  lemma DatagramSplits(header: seq<byte>, payload: seq<byte>, behind: seq<byte>, n: nat)
    requires n <= |payload| + |behind|
    ensures ((header + payload) + behind)[..|header| + n] == header + (payload + behind)[..n]
  {}

  lemma CutTwice(s: seq<byte>, m: nat, n: nat)
    requires n <= m <= |s|
    ensures s[..m][..n] == s[..n]
  {}

  lemma DatagramIs(p: Packet, before: seq<byte>, n: nat)
    requires DECLARED_HEADER + n <= |before|
    ensures |HeaderImage(p)| == DECLARED_HEADER && n <= |Behind(p, before)| && |Filled(p, before)| == |before|
    ensures Filled(p, before)[..DECLARED_HEADER + n] == HeaderImage(p) + Behind(p, before)[..n]
  {
    HeaderLength(p);
    if |Image(p)| <= |before| {
      DatagramSplits(HeaderImage(p), p.payload, before[|Image(p)|..], n);
    } else {
      DatagramSplits(HeaderImage(p), p.payload, [], n);
      CutTwice(Image(p), |before|, DECLARED_HEADER + n);
      assert Image(p) + [] == Image(p);
    }
  }

  /** Of a datagram of the given length, taken from the send buffer the packet was written to, the
      receiver gets every header field, and as payload what the length leaves behind the declared
      header, whatever payload length was in force and whether or not the buffer took it all. */
  lemma WhatArrives(p: Packet, before: seq<byte>, length: nat)
    requires DECLARED_HEADER <= length <= |before|
    ensures |Filled(p, before)| == |before| && Delivered(length) <= |Behind(p, before)|
    ensures ParsePacket(Filled(p, before)[..length], length, DECLARED_HEADER)
         == p.(payload := Behind(p, before)[..Delivered(length)])
  {
    DatagramIs(p, before, Delivered(length));
    ReadsAs(p, Behind(p, before)[..Delivered(length)]);
  }

  /** The payload bytes of a list of packets that arrive. */
  function DeliveredBytes(hs: seq<Header>): nat {
    if hs == [] then 0 else DeliveredBytes(hs[..|hs| - 1]) + Delivered(hs[|hs| - 1].length)
  }

  lemma DeliveredAppend(hs: seq<Header>, h: Header)
    ensures DeliveredBytes(hs + [h]) == DeliveredBytes(hs) + Delivered(h.length)
  {
    assert (hs + [h])[..|hs|] == hs;
  }

  lemma OneMoreTimes(n: nat, each: nat)
    requires n > 0
    ensures (n - 1) * each + each == n * each
  {}

  lemma {:induction false} FragmentsDeliver(o: Object, n: nat)
    ensures DeliveredBytes(Fragments(o, n)) == n * Delivered(DatagramLength(o.bytes))
  {
    if n > 0 {
      FragmentsDeliver(o, n - 1);
      DeliveredAppend(Fragments(o, n - 1), HeaderOf(o, n - 1));
      OneMoreTimes(n, Delivered(DatagramLength(o.bytes)));
    }
  }

  /** In every run of either loop: all packets of object `k` are in the stream, the bytes they
      deliver are known from the object size alone, and an object sent with all its packets
      arrives with at least its bytes exactly if its size is one of those that do. */
  lemma ObjectArrives(cfg: Config, control: Control, local: Timespec, acts: seq<Action>, k: nat)
    requires k < |Steps(cfg, Start(control, local), acts).log.begun|
    ensures var log := Steps(cfg, Start(control, local), acts).log;
      && |log.counts| == |log.begun|
      && var o, n := log.begun[k], log.counts[k];
      && o.mode in cfg.services
      && var sizeKb := cfg.services[o.mode].objectSize;
      && (forall f :: 0 <= f < n ==> HeaderOf(o, f) in log.sent)
      && DeliveredBytes(Fragments(o, n)) == n * Monus(Min(ObjectBytes(sizeKb), MAX_PAYLOAD), 8)
      && (n == o.total ==> (DeliveredBytes(Fragments(o, n)) >= 1024 * sizeKb <==> ArrivesWhole(sizeKb)))
  {
    EveryRunStreams(cfg, control, local, acts);
    var log := Steps(cfg, Start(control, local), acts).log;
    var o, n := log.begun[k], log.counts[k];
    assert ObjectOk(cfg, o);
    FragmentsDeliver(o, n);
    DeliveredExactly(cfg.services[o.mode].objectSize);
    forall f | 0 <= f < n ensures HeaderOf(o, f) in log.sent {
      StreamComplete(log.begun, log.counts, k, f);
    }
  }

  // ---------------------------------------------------------------- the send buffer

  /** The send buffer after a list of objects: it only ever grows, to the longest datagram. */
  function RoomOf(begun: seq<Object>): nat {
    if begun == [] then 0
    else Max(RoomOf(begun[..|begun| - 1]), DatagramLength(begun[|begun| - 1].bytes))
  }

  predicate RoomOk(begun: seq<Object>, i: nat)
    requires i < |begun|
  {
    begun[i].room == RoomOf(begun[..i + 1])
  }

  predicate RoomInv(s: State) {
    s.tx.room == RoomOf(s.log.begun) && forall i :: 0 <= i < |s.log.begun| ==> RoomOk(s.log.begun, i)
  }

  lemma RoomAppend(begun: seq<Object>, o: Object)
    requires forall i :: 0 <= i < |begun| ==> RoomOk(begun, i)
    requires o.room == Max(RoomOf(begun), DatagramLength(o.bytes))
    ensures RoomOf(begun + [o]) == o.room
    ensures forall i :: 0 <= i < |begun + [o]| ==> RoomOk(begun + [o], i)
  {
    var all := begun + [o];
    assert all[..|begun|] == begun;
    forall i | 0 <= i < |all| ensures RoomOk(all, i) {
      var n := i + 1;
      if i < |begun| {
        assert RoomOk(begun, i) && all[..n] == begun[..n];
      } else {
        assert all[..n] == all;
      }
    }
  }

  lemma RoomStep(cfg: Config, s: State, a: Action)
    requires Safe(cfg, s) && RoomInv(s)
    ensures RoomInv(Step(cfg, s, a))
  {
    if a.Run? && !s.tx.asleep && s.tx.point.Prepare? {
      RoomAppend(s.log.begun, Last(BeginObject(cfg, s).log.begun));
    } else {
      assert Step(cfg, s, a).log.begun == s.log.begun && Step(cfg, s, a).tx.room == s.tx.room;
    }
  }

  lemma {:induction false} RoomRuns(cfg: Config, s: State, acts: seq<Action>)
    requires Safe(cfg, s) && RoomInv(s)
    ensures RoomInv(Steps(cfg, s, acts))
    decreases |acts|
  {
    if acts != [] {
      RoomStep(cfg, s, acts[0]);
      RoomRuns(cfg, Step(cfg, s, acts[0]), acts[1..]);
    }
  }

  /** The room after a list of objects holds every datagram of the list, and no more than the
      longest. */
  lemma {:induction false} RoomIsLongest(begun: seq<Object>, j: nat) returns (k: nat)
    requires j < |begun|
    ensures DatagramLength(begun[j].bytes) <= RoomOf(begun)
    ensures k < |begun| && RoomOf(begun) == DatagramLength(begun[k].bytes)
    decreases |begun|
  {
    var last := |begun| - 1;
    k := last;
    if last > 0 {
      var before := begun[..last];
      var kk := RoomIsLongest(before, if j < last then j else 0);
      if RoomOf(before) >= DatagramLength(begun[last].bytes) {
        k := kk;
      }
    }
  }

  /** In every run of either loop, the send buffer takes a packet of an object's own fragments
      whole exactly if the object has 1024 bytes and some earlier one at least 2048: the buffer
      has the length the constructors count, and otherwise the image is eight bytes longer. */
  lemma ImageFitsExactly(cfg: Config, control: Control, local: Timespec, acts: seq<Action>, k: nat, f: nat)
    requires var begun := Steps(cfg, Start(control, local), acts).log.begun;
      k < |begun| && f < begun[k].total
    ensures var begun := Steps(cfg, Start(control, local), acts).log.begun;
      var h := PacketStream.HeaderOf(begun[k], f);
      && h.length <= h.room
      && (DECLARED_HEADER + h.payload <= h.room || DECLARED_HEADER + h.payload == h.room + 8)
      && (DECLARED_HEADER + h.payload <= h.room
          <==> begun[k].bytes == 1024 && exists j :: 0 <= j < k && begun[j].bytes >= 2048)
  {
    EveryRunStreams(cfg, control, local, acts);
    RoomRuns(cfg, Start(control, local), acts);
    var begun := Steps(cfg, Start(control, local), acts).log.begun;
    assert ObjectOk(cfg, begun[k]) && RoomOk(begun, k);
    FirstSizeInForce(cfg.services[begun[k].mode].objectSize, f);
    forall i | 0 <= i <= k ensures begun[i].bytes % 1024 == 0 {
      assert ObjectOk(cfg, begun[i]);
      WholeKilobytes(cfg.services[begun[i].mode].objectSize);
    }
    RoomExactly(begun[..k + 1]);
  }

  lemma WholeKilobytes(sizeKb: uint32)
    ensures ObjectBytes(sizeKb) % 1024 == 0
  {
    assert TWO_32 == 1024 * 4194304;
    assert (sizeKb * 1024) % TWO_32 == sizeKb * 1024 - TWO_32 * (sizeKb * 1024 / TWO_32);
  }

  /** Up to the packet count, the first size is in force at every fragment. */
  lemma FirstSizeInForce(sizeKb: uint32, f: nat)
    requires f < PacketCount(sizeKb)
    ensures ObjectBytes(sizeKb) > 0
    ensures SizeInForce(ObjectBytes(sizeKb), f) == Min(ObjectBytes(sizeKb), MAX_PAYLOAD)
  {
    var bytes, n := ObjectBytes(sizeKb), PacketCount(sizeKb);
    CountBelow(sizeKb);
    assert MAX_PAYLOAD * f <= MAX_PAYLOAD * (n - 1);
  }

  lemma CountBelow(sizeKb: uint32)
    ensures MAX_PAYLOAD * PacketCount(sizeKb) <= ObjectBytes(sizeKb) + MAX_PAYLOAD - 1
  {
    var product := sizeKb * 1024;
    var q := product / TWO_32;
    assert product == q * TWO_32 + ObjectBytes(sizeKb);
    var sum := product + MAX_PAYLOAD - 1;
    assert sum % TWO_32 <= ObjectBytes(sizeKb) + MAX_PAYLOAD - 1;
  }

  lemma RoomExactly(begun: seq<Object>)
    requires begun != [] && forall i :: 0 <= i < |begun| ==> begun[i].bytes % 1024 == 0
    requires begun[|begun| - 1].bytes > 0
    ensures var o := begun[|begun| - 1];
      && DatagramLength(o.bytes) <= RoomOf(begun)
      && (DECLARED_HEADER + Min(o.bytes, MAX_PAYLOAD) <= RoomOf(begun)
          || DECLARED_HEADER + Min(o.bytes, MAX_PAYLOAD) == RoomOf(begun) + 8)
      && (DECLARED_HEADER + Min(o.bytes, MAX_PAYLOAD) <= RoomOf(begun)
          <==> o.bytes == 1024 && exists j :: 0 <= j < |begun| - 1 && begun[j].bytes >= 2048)
  {
    var last := |begun| - 1;
    var longest := RoomIsLongest(begun, last);
    if j :| 0 <= j < last && begun[j].bytes >= 2048 {
      var _ := RoomIsLongest(begun, j);
    }
  }
}
