/** What `stop` does to the sender: the join behind it returns exactly from some program points. */
module Stopping {
  import opened ControlInterface
  import opened Fragmentation
  import opened Generator
  import opened Time

  /** The state `stop` leaves behind: the flag is set and no wait lets the sender through. */
  predicate Halted(s: State) {
    s.shared.stopThread && s.shared.control != ThreadTransmission && s.shared.control != ThreadFinishObject
  }

  /** No packet would be sent with the settings of this mode. */
  predicate NoPackets(cfg: Config, m: uint32) {
    m in cfg.services && PacketCount(cfg.services[m].objectSize) == 0
  }

  /** The next mode check of the sender would find an unknown mode. */
  predicate UnknownAhead(cfg: Config, s: State) {
    s.tx.current != s.shared.mode && s.shared.mode !in cfg.services
  }

  /** The states from which a halted sender still ends: it is past its last wait, or its way
      leads around the next one because there is no packet to send or the mode is unknown. */
  predicate Ends(cfg: Config, s: State)
    requires Safe(cfg, s)
  {
    match s.tx.point
    case Send => true
    case AfterSend => true
    case EndObject => true
    case Closed => true
    case ModeCheck =>
      if s.tx.current == s.shared.mode then NoPackets(cfg, s.tx.inUse)
      else s.shared.mode !in cfg.services || NoPackets(cfg, s.shared.mode)
    case Prepare => NoPackets(cfg, s.tx.inUse) || (!cfg.synchronous && UnknownAhead(cfg, s))
    case PacketTest =>
      s.tx.packet >= PacketCount(Using(cfg, s).objectSize) || (!cfg.synchronous && UnknownAhead(cfg, s))
    case InnerModeCheck => UnknownAhead(cfg, s)
    case _ => false
  }

  /** The turns such a sender needs at most. */
  function TurnsLeft(p: Point): nat {
    match p
    case ModeCheck => 6
    case Prepare => 5
    case PacketTest => 4
    case InnerModeCheck => 3
    case Send => 3
    case AfterSend => 2
    case EndObject => 1
    case _ => 0
  }

  /** The controllers only notify, and write nothing more: the one that stops waits for the
      thread, and a single thread writes. */
  predicate NoWrites(acts: seq<Action>) {
    acts == [] || (!acts[0].Write? && NoWrites(acts[1..]))
  }

  lemma HaltedStep(cfg: Config, s: State, a: Action)
    requires Safe(cfg, s) && Halted(s) && !a.Write?
    ensures var r := Step(cfg, s, a);
      && Halted(r)
      && (Ends(cfg, r) <==> Ends(cfg, s))
      && (Ends(cfg, s) ==> TurnsLeft(r.tx.point) + (if a.Run? then 1 else 0) <= TurnsLeft(s.tx.point)
                            || (s.tx.point.Closed? && r.tx.point.Closed?))
  {}

  /** A halted sender that can still end does so within its turns, and one that cannot never
      does, however long the run. */
  lemma {:induction false} HaltedRuns(cfg: Config, s: State, acts: seq<Action>)
    requires Safe(cfg, s) && Halted(s) && NoWrites(acts)
    ensures var r := Steps(cfg, s, acts);
      && (r.tx.point.Closed? ==> Ends(cfg, s))
      && (Ends(cfg, s) && SenderTurns(acts) >= TurnsLeft(s.tx.point) ==> r.tx.point.Closed?)
    decreases |acts|
  {
    if acts != [] {
      HaltedStep(cfg, s, acts[0]);
      HaltedRuns(cfg, Step(cfg, s, acts[0]), acts[1..]);
    }
  }

  /** `stop` called anywhere in a run: the sender thread ends, so that the join returns, if and
      only if its state at the call is one of `Ends`. Every run that gives it six more turns
      shows which. */
  lemma StopEndsExactly(cfg: Config, control: Control, local: Timespec, before: seq<Action>, c: nat, after: seq<Action>)
    requires c !in Steps(cfg, Start(control, local), before).pending
    requires NoWrites(after)
    ensures var s := Steps(cfg, Start(control, local), before);
      var r := Steps(cfg, Step(cfg, s, Write(c, Halt)), after);
      && (r.tx.point.Closed? ==> Ends(cfg, s))
      && (SenderTurns(after) >= 6 ==> (r.tx.point.Closed? <==> Ends(cfg, s)))
  {
    var s := Steps(cfg, Start(control, local), before);
    var h := Step(cfg, s, Write(c, Halt));
    assert Ends(cfg, h) <==> Ends(cfg, s);
    HaltedRuns(cfg, h, after);
  }

  /** From the outer wait, the packet wait and both points of the period wait it never ends. */
  lemma StopHangs(cfg: Config, s: State, c: nat, after: seq<Action>)
    requires Safe(cfg, s) && c !in s.pending && NoWrites(after)
    requires s.tx.point.OuterWait? || s.tx.point.InnerWait? || s.tx.point.PeriodControl? || s.tx.point.PeriodClock?
    ensures !Steps(cfg, Step(cfg, s, Write(c, Halt)), after).tx.point.Closed?
  {
    HaltedRuns(cfg, Step(cfg, s, Write(c, Halt)), after);
  }
}
