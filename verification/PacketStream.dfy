/** What the sender puts on the network, over every run: objects numbered 1, 2, 3, ...,
    each cut into contiguous fragments, and the settings every fragment is sent with. */
module PacketStream {
  import opened ControlInterface
  import opened Fragmentation
  import opened Generator
  import opened Time

  // ---------------------------------------------------------------- the reference stream

  function HeaderOf(o: Object, fragment: nat): Header {
    Header(o.number, fragment, o.total, o.mode, SizeInForce(o.bytes, fragment), DatagramLength(o.bytes), o.room)
  }

  function Fragments(o: Object, n: nat): seq<Header> {
    if n == 0 then [] else Fragments(o, n - 1) + [HeaderOf(o, n - 1)]
  }

  /** The packets of a list of objects of which `counts[i]` packets each were sent. */
  function Stream(begun: seq<Object>, counts: seq<nat>): seq<Header>
    requires |begun| == |counts|
  {
    if begun == [] then []
    else
      var last := |begun| - 1;
      Stream(begun[..last], counts[..last]) + Fragments(begun[last], counts[last])
  }

  lemma StreamBegin(begun: seq<Object>, counts: seq<nat>, o: Object)
    requires |begun| == |counts|
    ensures Stream(begun + [o], counts + [0]) == Stream(begun, counts)
  {
    assert (begun + [o])[..|begun|] == begun && (counts + [0])[..|begun|] == counts;
    assert Fragments(o, 0) == [];
  }

  lemma StreamSend(begun: seq<Object>, counts: seq<nat>)
    requires |begun| == |counts| > 0
    ensures Stream(begun, SetLast(counts, Last(counts) + 1))
            == Stream(begun, counts) + [HeaderOf(Last(begun), Last(counts))]
  {
    var last := |begun| - 1;
    var next := SetLast(counts, Last(counts) + 1);
    assert next[..last] == counts[..last];
  }

  // ---------------------------------------------------------------- the bound on packets

  /** The largest packet count over a set of configured modes. */
  ghost function MaxOver(cfg: Config, modes: set<uint32>): nat
    requires modes <= cfg.services.Keys
  {
    if modes == {} then 0
    else
      var m :| m in modes;
      var n := PacketCount(cfg.services[m].objectSize);
      var rest := MaxOver(cfg, modes - {m});
      if rest < n then n else rest
  }

  lemma {:induction false} MaxOverBounds(cfg: Config, modes: set<uint32>)
    requires modes <= cfg.services.Keys
    ensures forall m :: m in modes ==> PacketCount(cfg.services[m].objectSize) <= MaxOver(cfg, modes)
    ensures modes != {} ==> exists m :: m in modes && PacketCount(cfg.services[m].objectSize) == MaxOver(cfg, modes)
    decreases modes
  {
    if modes != {} {
      var m :| m in modes && MaxOver(cfg, modes)
        == (var n := PacketCount(cfg.services[m].objectSize);
            var rest := MaxOver(cfg, modes - {m});
            if rest < n then n else rest);
      MaxOverBounds(cfg, modes - {m});
    }
  }

  ghost function MaxPackets(cfg: Config): nat {
    MaxOver(cfg, cfg.services.Keys)
  }

  lemma PacketsBounded(cfg: Config, m: uint32)
    requires m in cfg.services
    ensures PacketCount(cfg.services[m].objectSize) <= MaxPackets(cfg)
  {
    MaxOverBounds(cfg, cfg.services.Keys);
  }

  // ---------------------------------------------------------------- both loops

  predicate InObject(p: Point) {
    (p.PacketTest? || p.InnerModeCheck? || p.InnerWait? || p.Send? || p.AfterSend? || p.EndObject?)
  }

  predicate ObjectOk(cfg: Config, o: Object) {
    && o.mode in cfg.services
    && o.total == PacketCount(cfg.services[o.mode].objectSize)
    && o.bytes == ObjectBytes(cfg.services[o.mode].objectSize)
  }

  /** The registers of the sender agree with the object it is sending. */
  predicate RegistersOk(s: State)
    requires s.log.begun != [] && s.log.counts != []
  {
    var o := Last(s.log.begun);
    && Last(s.log.counts) == s.tx.packet + (if s.tx.point == AfterSend then 1 else 0)
    && s.tx.payload == SizeInForce(o.bytes, s.tx.packet)
    && s.tx.length == DatagramLength(o.bytes) && s.tx.room == o.room
    && s.tx.remaining == Monus(o.bytes, MAX_PAYLOAD * s.tx.packet)
  }

  predicate NumbersOk(cfg: Config, s: State) {
    && (forall i :: 0 <= i < |s.log.begun| ==> s.log.begun[i].number == i + 1 && ObjectOk(cfg, s.log.begun[i]))
    && (InObject(s.tx.point) ==> s.tx.number == |s.log.begun|)
    && (!InObject(s.tx.point) && s.tx.point != Closed ==> s.tx.number == |s.log.begun| + 1)
    && (cfg.limit > 0 ==> |s.log.begun| <= cfg.limit && (s.tx.point != Closed ==> s.tx.number <= cfg.limit))
  }

  ghost predicate BoundOk(cfg: Config, s: State) {
    && (forall i :: 0 <= i < |s.log.counts| ==> s.log.counts[i] <= MaxPackets(cfg))
    && (s.tx.point.InnerModeCheck? || s.tx.point.InnerWait? || s.tx.point.Send? || s.tx.point.AfterSend?
        ==> s.tx.packet < MaxPackets(cfg))
  }

  /** Holds in every reachable state of either loop. */
  ghost predicate StreamInv(cfg: Config, s: State) {
    && Safe(cfg, s)
    && s.log.sent == Stream(s.log.begun, s.log.counts)
    && |s.log.routes| == |s.log.stamps| == |s.log.sent|
    && (forall i :: 0 <= i < |s.log.routes| ==> s.log.routes[i] in cfg.services)
    && NumbersOk(cfg, s)
    && (InObject(s.tx.point) ==> RegistersOk(s))
    && BoundOk(cfg, s)
  }

  lemma AfterTransmitRegisters(s: State)
    requires s.log.begun != [] && s.log.counts != []
    requires s.tx.point == AfterSend && RegistersOk(s)
    ensures RegistersOk(AfterTransmit(s))
  {
    var bytes := Last(s.log.begun).bytes;
    var packet := s.tx.packet;
    assert MAX_PAYLOAD * (packet + 1) == MAX_PAYLOAD * packet + MAX_PAYLOAD;
  }

  lemma StreamBeginStep(cfg: Config, s: State)
    requires StreamInv(cfg, s) && s.tx.point == Prepare
    ensures StreamInv(cfg, BeginObject(cfg, s))
  {
    var r := BeginObject(cfg, s);
    StreamBegin(s.log.begun, s.log.counts, Last(r.log.begun));
    BeginRegisters(cfg, s);
  }

  lemma BeginRegisters(cfg: Config, s: State)
    requires Safe(cfg, s) && s.tx.point == Prepare
    ensures RegistersOk(BeginObject(cfg, s)) && ObjectOk(cfg, Last(BeginObject(cfg, s).log.begun))
  {}

  lemma StreamTransmitStep(cfg: Config, s: State, now: Timespec)
    requires StreamInv(cfg, s) && s.tx.point == Send
    ensures StreamInv(cfg, Transmit(s, now))
  {
    StreamSend(s.log.begun, s.log.counts);
    assert Last(s.log.begun) == s.log.begun[|s.log.begun| - 1];
    assert Last(Transmit(s, now).log.sent) == HeaderOf(Last(s.log.begun), s.tx.packet);
  }

  lemma StreamAfterStep(cfg: Config, s: State)
    requires StreamInv(cfg, s) && s.tx.point == AfterSend
    ensures StreamInv(cfg, AfterTransmit(s))
  {
    AfterTransmitRegisters(s);
  }

  lemma StreamTestStep(cfg: Config, s: State, now: Timespec)
    requires StreamInv(cfg, s) && s.tx.point == PacketTest
    ensures StreamInv(cfg, SenderStep(cfg, s, now))
  {
    PacketsBounded(cfg, s.tx.inUse);
  }

  /** `r` differs from `s` only in the program point, the period grid and the settings. */
  predicate SameStream(s: State, r: State) {
    && r.log.begun == s.log.begun
    && r.log.counts == s.log.counts
    && r.log.sent == s.log.sent
    && r.log.routes == s.log.routes
    && r.log.stamps == s.log.stamps
    && r.tx.packet == s.tx.packet
    && r.tx.payload == s.tx.payload
    && r.tx.remaining == s.tx.remaining
    && r.tx.length == s.tx.length
    && r.tx.room == s.tx.room
  }

  lemma QuietSame(cfg: Config, s: State, now: Timespec)
    requires Safe(cfg, s)
    requires !(s.tx.point.Prepare? || s.tx.point.Send? || s.tx.point.AfterSend?)
    ensures SameStream(s, SenderStep(cfg, s, now))
  {}

  lemma QuietNumbers(cfg: Config, s: State, now: Timespec)
    requires Safe(cfg, s) && NumbersOk(cfg, s)
    requires !(s.tx.point.Prepare? || s.tx.point.Send? || s.tx.point.AfterSend?)
    ensures NumbersOk(cfg, SenderStep(cfg, s, now))
  {
    QuietSame(cfg, s, now);
  }

  /** The remaining program points leave packets and objects alone. */
  lemma StreamQuietStep(cfg: Config, s: State, now: Timespec)
    requires StreamInv(cfg, s)
    requires !(s.tx.point.Prepare? || s.tx.point.PacketTest? || s.tx.point.Send? || s.tx.point.AfterSend?)
    ensures StreamInv(cfg, SenderStep(cfg, s, now))
  {
    QuietSame(cfg, s, now);
    QuietNumbers(cfg, s, now);
  }

  lemma StreamStep(cfg: Config, s: State, a: Action)
    requires StreamInv(cfg, s)
    ensures StreamInv(cfg, Step(cfg, s, a))
  {
    if a.Run? && !s.tx.asleep {
      match s.tx.point
      case Prepare => StreamBeginStep(cfg, s);
      case PacketTest => StreamTestStep(cfg, s, a.now);
      case Send => StreamTransmitStep(cfg, s, a.now);
      case AfterSend => StreamAfterStep(cfg, s);
      case _ => StreamQuietStep(cfg, s, a.now);
    }
  }

  lemma {:induction false} StreamRuns(cfg: Config, s: State, acts: seq<Action>)
    requires StreamInv(cfg, s)
    ensures StreamInv(cfg, Steps(cfg, s, acts))
    decreases |acts|
  {
    if acts != [] {
      StreamStep(cfg, s, acts[0]);
      StreamRuns(cfg, Step(cfg, s, acts[0]), acts[1..]);
    }
  }

  // ---------------------------------------------------------------- reading the stream

  lemma {:induction false} FragmentsShape(o: Object, n: nat)
    ensures |Fragments(o, n)| == n
    ensures forall f :: 0 <= f < n ==> Fragments(o, n)[f] == HeaderOf(o, f)
  {
    if n > 0 {
      FragmentsShape(o, n - 1);
    }
  }

  predicate Numbered(begun: seq<Object>) {
    forall i :: 0 <= i < |begun| ==> begun[i].number == i + 1
  }

  /** Packet `j` of a stream is a fragment of the object it names, directly preceded by the
      fragment before it, or is fragment 0 and preceded by an earlier object only. */
  predicate InOrder(begun: seq<Object>, counts: seq<nat>, sent: seq<Header>, j: nat)
    requires |begun| == |counts| && j < |sent|
  {
    var h := sent[j];
    && 1 <= h.number <= |begun|
    && h.fragment < counts[h.number - 1]
    && h == HeaderOf(begun[h.number - 1], h.fragment)
    && (h.fragment > 0 ==> j > 0 && sent[j - 1] == HeaderOf(begun[h.number - 1], h.fragment - 1))
    && (h.fragment == 0 && j > 0 ==> sent[j - 1].number < h.number)
  }

  lemma {:induction false} StreamInOrder(begun: seq<Object>, counts: seq<nat>)
    requires |begun| == |counts| && Numbered(begun)
    ensures forall j :: 0 <= j < |Stream(begun, counts)| ==> InOrder(begun, counts, Stream(begun, counts), j)
    decreases |begun|
  {
    if begun != [] {
      var last := |begun| - 1;
      var head := Stream(begun[..last], counts[..last]);
      var tail := Fragments(begun[last], counts[last]);
      StreamInOrder(begun[..last], counts[..last]);
      FragmentsShape(begun[last], counts[last]);
      forall j | 0 <= j < |head + tail| ensures InOrder(begun, counts, head + tail, j) {
        if j < |head| {
          assert InOrder(begun[..last], counts[..last], head, j);
        } else {
          assert (head + tail)[j] == HeaderOf(begun[last], j - |head|);
          if j > 0 && j == |head| {
            assert InOrder(begun[..last], counts[..last], head, j - 1);
          }
        }
      }
    }
  }

  lemma {:induction false} StreamComplete(begun: seq<Object>, counts: seq<nat>, k: nat, f: nat)
    requires |begun| == |counts| && k < |begun| && f < counts[k]
    ensures HeaderOf(begun[k], f) in Stream(begun, counts)
    decreases |begun|
  {
    var last := |begun| - 1;
    FragmentsShape(begun[last], counts[last]);
    if k < last {
      StreamComplete(begun[..last], counts[..last], k, f);
    } else {
      assert Fragments(begun[last], counts[last])[f] == HeaderOf(begun[k], f);
    }
  }

  lemma StreamStart(cfg: Config, control: Control, local: Timespec)
    ensures StreamInv(cfg, Start(control, local))
  {}

  /** Everything either loop sends, in any interleaving with any controllers: the packets
      are those of objects 1, 2, 3, ..., the fragments of each object contiguous from 0 and
      never more than the largest configured packet count, every payload size the one in
      force for that fragment, and every packet routed by configured settings. */
  lemma EveryRunStreams(cfg: Config, control: Control, local: Timespec, acts: seq<Action>)
    ensures var log := Steps(cfg, Start(control, local), acts).log;
      && Numbered(log.begun)
      && log.sent == Stream(log.begun, log.counts)
      && (forall j :: 0 <= j < |log.sent| ==> InOrder(log.begun, log.counts, log.sent, j))
      && (forall i :: 0 <= i < |log.begun| ==> ObjectOk(cfg, log.begun[i]) && log.counts[i] <= MaxPackets(cfg))
      && |log.routes| == |log.sent|
      && (forall j :: 0 <= j < |log.routes| ==> log.routes[j] in cfg.services)
      && (cfg.limit > 0 ==> |log.begun| <= cfg.limit)
  {
    StreamStart(cfg, control, local);
    StreamRuns(cfg, Start(control, local), acts);
    var log := Steps(cfg, Start(control, local), acts).log;
    StreamInOrder(log.begun, log.counts);
  }
}
