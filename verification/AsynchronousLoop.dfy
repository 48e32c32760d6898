/** The asynchronous sender loop: the mode may change before any packet of an object. */
module AsynchronousLoop {
  import opened ControlInterface
  import opened Fragmentation
  import opened Generator
  import opened PacketStream
  import opened Time

  // ---------------------------------------------------------------- settings in use

  /** The settings followed are those of `current_mode` whenever that mode is configured. */
  predicate Matched(cfg: Config, s: State) {
    s.tx.current in cfg.services && s.tx.current != NO_MODE ==> s.tx.inUse == s.tx.current
  }

  lemma {:induction false} MatchedRuns(cfg: Config, s: State, acts: seq<Action>)
    requires Safe(cfg, s) && Matched(cfg, s)
    ensures Matched(cfg, Steps(cfg, s, acts))
    decreases |acts|
  {
    if acts != [] {
      MatchedRuns(cfg, Step(cfg, s, acts[0]), acts[1..]);
    }
  }

  /** In every run the settings in use are those of the current mode exactly while that mode
      is configured: an unknown mode met inside an object leaves the old settings in use. */
  lemma SettingsInUse(cfg: Config, control: Control, local: Timespec, acts: seq<Action>)
    ensures var s := Steps(cfg, Start(control, local), acts);
      && (s.tx.inUse != NO_MODE ==> s.tx.inUse in cfg.services)
      && (s.tx.inUse != NO_MODE && s.tx.current != NO_MODE
          ==> (s.tx.inUse == s.tx.current <==> s.tx.current in cfg.services))
  {
    MatchedRuns(cfg, Start(control, local), acts);
  }

  /** A sender that will find its mode unknown before the next packet, with permission to go on
      and the period of its object over. */
  predicate MeetsUnknownMode(cfg: Config, s: State, now: Timespec)
    requires Safe(cfg, s)
  {
    && !cfg.synchronous && s.tx.point == InnerModeCheck && !s.tx.asleep
    && s.shared.mode != s.tx.current && s.shared.mode !in cfg.services
    && s.shared.control == ThreadTransmission && !s.shared.stopThread
    && (cfg.limit <= 0 || s.tx.number < cfg.limit)
    && !After(Advance(s.tx.local, Using(cfg, s).deadline), now)
  }

  lemma UnknownModeEndsObject(cfg: Config, s: State, now: Timespec)
    requires Safe(cfg, s) && MeetsUnknownMode(cfg, s, now)
    ensures var r := Turns(cfg, s, now, 4);
      && r.tx.point == OuterWait && !r.tx.asleep && r.shared == s.shared
      && r.tx.current == s.shared.mode && r.tx.inUse == s.tx.inUse
      && r.tx.number == s.tx.number + 1
      && r.log.sent == s.log.sent && r.log.routes == s.log.routes
  {
    var s2 := SenderStep(cfg, SenderStep(cfg, s, now), now);
    assert s2.tx.point == PeriodControl;
    assert Turns(cfg, s, now, 2) == s2;
    assert Turns(cfg, s2, now, 2) == SenderStep(cfg, SenderStep(cfg, s2, now), now);
    TurnsAdd(cfg, s, now, 2, 2);
  }

  lemma NextObjectSends(cfg: Config, s: State, now: Timespec)
    requires Safe(cfg, s) && !cfg.synchronous
    requires s.tx.point == OuterWait && !s.tx.asleep && s.shared.control == ThreadTransmission
    requires s.tx.current == s.shared.mode && s.tx.inUse in cfg.services && s.tx.inUse != NO_MODE
    requires PacketCount(Using(cfg, s).objectSize) > 0
    ensures var r := Turns(cfg, s, now, 7);
      && r.tx.current == s.tx.current
      && |r.log.sent| == |s.log.sent| + 1 && r.log.sent[..|s.log.sent|] == s.log.sent
      && r.log.sent[|s.log.sent|].number == s.tx.number
      && r.log.routes == s.log.routes + [s.tx.inUse]
  {
    var s3 := SenderStep(cfg, SenderStep(cfg, SenderStep(cfg, s, now), now), now);
    assert s3.tx.point == PacketTest && s3.tx.packet == 0;
    assert Turns(cfg, s, now, 3) == s3;
    var s5 := SenderStep(cfg, SenderStep(cfg, s3, now), now);
    assert s5.tx.point == InnerWait;
    assert Turns(cfg, s3, now, 2) == s5;
    assert Turns(cfg, s5, now, 2) == SenderStep(cfg, SenderStep(cfg, s5, now), now);
    TurnsAdd(cfg, s, now, 3, 4);
    TurnsAdd(cfg, s3, now, 2, 2);
  }

  /** An unknown mode met inside an object ends that object only: the sender goes on with
      `current_mode` unknown and sends the next object with the settings of the old one. */
  lemma UnknownModeKeepsSending(cfg: Config, s: State, now: Timespec)
    requires Safe(cfg, s) && MeetsUnknownMode(cfg, s, now) && PacketCount(Using(cfg, s).objectSize) > 0
    ensures var r := Turns(cfg, s, now, 11);
      && r.tx.current == s.shared.mode && r.tx.current !in cfg.services
      && |r.log.sent| == |s.log.sent| + 1 && r.log.sent[..|s.log.sent|] == s.log.sent
      && r.log.sent[|s.log.sent|].number == s.tx.number + 1
      && r.log.routes == s.log.routes + [s.tx.inUse]
  {
    UnknownModeEndsObject(cfg, s, now);
    NextObjectSends(cfg, Turns(cfg, s, now, 4), now);
    TurnsAdd(cfg, s, now, 4, 7);
  }

  /** Such a state is reached from the start: one configured mode, permission, and mode 7
      arriving before the first packet. */
  lemma UnknownModeReached(control: Control, now: Timespec)
    requires Normalised(now)
    ensures var cfg := Config(map[0 := Settings(1, 0, "192.168.1.12", 5000, 2, 0)], false, 5000);
      exists acts :: MeetsUnknownMode(cfg, Steps(cfg, Start(control, now), acts), now)
  {
    var cfg := Config(map[0 := Settings(1, 0, "192.168.1.12", 5000, 2, 0)], false, 5000);
    var s0 := Start(control, now);
    var grant, unknown := Write(0, SetControl(ThreadTransmission)), Write(1, SetMode(ThreadTransmission, 7));
    var s1 := Step(cfg, s0, grant);
    StepsAppend(cfg, s0, [grant] + Alone(now, 4), [unknown]);
    StepsAppend(cfg, s0, [grant], Alone(now, 4));
    StepsOne(cfg, s0, grant);
    AloneIsTurns(cfg, s1, now, 4);
    StepsOne(cfg, Turns(cfg, s1, now, 4), unknown);
    FirstPacketTest(cfg, s1, now);
  }

  lemma FirstPacketTest(cfg: Config, s: State, now: Timespec)
    requires Safe(cfg, s) && !cfg.synchronous && s.tx.point == OuterWait && !s.tx.asleep
    requires s.shared.control == ThreadTransmission && s.shared.mode != s.tx.current && s.shared.mode in cfg.services
    requires !s.shared.updatePeriod && PacketCount(cfg.services[s.shared.mode].objectSize) > 0
    ensures var r := Turns(cfg, s, now, 4);
      && r.tx.point == InnerModeCheck && !r.tx.asleep && r.tx.current == s.shared.mode == r.tx.inUse
      && r.shared == s.shared && r.tx.number == s.tx.number && r.tx.local == s.tx.local && r.pending == s.pending
  {
    var s2 := SenderStep(cfg, SenderStep(cfg, s, now), now);
    assert Turns(cfg, s, now, 2) == s2;
    assert Turns(cfg, s2, now, 2) == SenderStep(cfg, SenderStep(cfg, s2, now), now);
    TurnsAdd(cfg, s, now, 2, 2);
  }

  // ---------------------------------------------------------------- the packet's endpoint

  /** The sender is between a mode check that left it with `m` and the send behind it. */
  predicate Checked(s: State, m: uint32, sent: nat) {
    && |s.log.routes| == sent
    && (s.tx.point.InnerWait? || s.tx.point.Send?)
    && s.tx.inUse == m
  }

  lemma {:induction false} CheckedRuns(cfg: Config, s: State, acts: seq<Action>, m: uint32, sent: nat)
    requires Safe(cfg, s)
    requires Checked(s, m, sent) || (|s.log.routes| > sent && s.log.routes[sent] == m)
    ensures var r := Steps(cfg, s, acts);
      Checked(r, m, sent) || (|r.log.routes| > sent && r.log.routes[sent] == m)
    decreases |acts|
  {
    if acts != [] {
      CheckedRuns(cfg, Step(cfg, s, acts[0]), acts[1..], m, sent);
    }
  }

  /** A configured mode met inside an object takes effect with the next packet: whatever is
      written after the check, that packet goes to the endpoint of the mode the check found. */
  lemma PacketFollowsCheck(cfg: Config, s: State, now: Timespec, acts: seq<Action>)
    requires Safe(cfg, s) && s.tx.point == InnerModeCheck && !s.tx.asleep && s.shared.mode in cfg.services
    requires s.tx.current == s.shared.mode ==> s.tx.inUse == s.shared.mode
    ensures var r := Steps(cfg, SenderStep(cfg, s, now), acts);
      |r.log.routes| > |s.log.routes| ==> r.log.routes[|s.log.routes|] == s.shared.mode
  {
    CheckedRuns(cfg, SenderStep(cfg, s, now), acts, s.shared.mode, |s.log.routes|);
  }

  // ---------------------------------------------------------------- an object ends

  /** A bound on the program points left in the current object. */
  ghost function Measure(cfg: Config, s: State): nat
    requires InObject(s.tx.point)
  {
    var rank := match s.tx.point
      case PacketTest => 5
      case InnerModeCheck => 4
      case InnerWait => 3
      case Send => 2
      case AfterSend => 1
      case _ => 0;
    if s.tx.point.EndObject? then 0 else Monus(MaxPackets(cfg), s.tx.packet) * 5 + rank
  }

  lemma MeasureDrops(cfg: Config, s: State, now: Timespec)
    requires Safe(cfg, s) && InObject(s.tx.point) && !s.tx.point.EndObject? && s.tx.packet <= MaxPackets(cfg)
    requires InnerGranted(s.shared.control) && !s.tx.asleep
    requires SenderStep(cfg, s, now).tx.packet <= MaxPackets(cfg)
    ensures var r := SenderStep(cfg, s, now);
      && InObject(r.tx.point) && !r.tx.asleep && r.shared.control == s.shared.control
      && Measure(cfg, r) < Measure(cfg, s)
  {}

  /** Every write of the run leaves the sender permitted to finish its object. */
  predicate KeepsPermission(acts: seq<Action>) {
    acts == [] ||
    ((acts[0].Write? ==> Sets(acts[0].notice) == ThreadTransmission || Sets(acts[0].notice) == ThreadFinishObject)
     && KeepsPermission(acts[1..]))
  }

  /** The run passes through program point `p`. */
  predicate Visits(cfg: Config, s: State, acts: seq<Action>, p: Point)
    requires Safe(cfg, s)
    decreases |acts|
  {
    s.tx.point == p || (acts != [] && Visits(cfg, Step(cfg, s, acts[0]), acts[1..], p))
  }

  lemma PacketBounded(cfg: Config, s: State)
    requires StreamInv(cfg, s) && InObject(s.tx.point)
    ensures s.tx.packet <= MaxPackets(cfg)
  {}

  lemma ProgressTurn(cfg: Config, s: State, now: Timespec)
    requires StreamInv(cfg, s) && StreamInv(cfg, SenderStep(cfg, s, now))
    requires InObject(s.tx.point) && !s.tx.point.EndObject? && !s.tx.asleep && InnerGranted(s.shared.control)
    ensures var r := SenderStep(cfg, s, now);
      InObject(r.tx.point) && !r.tx.asleep && InnerGranted(r.shared.control)
      && s.tx.packet <= MaxPackets(cfg) && r.tx.packet <= MaxPackets(cfg) && Measure(cfg, r) < Measure(cfg, s)
  {
    PacketBounded(cfg, s);
    assert InObject(SenderStep(cfg, s, now).tx.point);
    PacketBounded(cfg, SenderStep(cfg, s, now));
    MeasureDrops(cfg, s, now);
  }

  lemma ProgressStep(cfg: Config, s: State, a: Action)
    requires StreamInv(cfg, s) && InObject(s.tx.point) && !s.tx.point.EndObject? && !s.tx.asleep
    requires InnerGranted(s.shared.control) && (a.Write? ==> InnerGranted(Sets(a.notice)))
    ensures var r := Step(cfg, s, a);
      && StreamInv(cfg, r) && InObject(r.tx.point) && !r.tx.asleep && InnerGranted(r.shared.control)
      && s.tx.packet <= MaxPackets(cfg) && r.tx.packet <= MaxPackets(cfg)
      && Measure(cfg, r) + (if a.Run? then 1 else 0) <= Measure(cfg, s)
  {
    StreamStep(cfg, s, a);
    if a.Run? {
      ProgressTurn(cfg, s, a.now);
    } else {
      PacketBounded(cfg, s);
      assert Step(cfg, s, a).tx == s.tx;
    }
  }

  /** While the control field is TRANSMISSION or FINISH_OBJECT, every object in progress ends after boundedly many turns of the
      sender, whatever modes are installed in between. */
  lemma {:induction false} ObjectEnds(cfg: Config, s: State, acts: seq<Action>)
    requires StreamInv(cfg, s) && InObject(s.tx.point) && !s.tx.asleep
    requires s.shared.control == ThreadTransmission || s.shared.control == ThreadFinishObject
    requires KeepsPermission(acts)
    requires SenderTurns(acts) >= Measure(cfg, s)
    ensures Visits(cfg, s, acts, EndObject)
    decreases |acts|
  {
    if !s.tx.point.EndObject? {
      ProgressStep(cfg, s, acts[0]);
      ObjectEnds(cfg, Step(cfg, s, acts[0]), acts[1..]);
    }
  }
}
