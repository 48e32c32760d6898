/** What the control field guarantees over whole runs: draining, pausing, stopping, and that
    no notification is lost. */
module ControlSafety {
  import opened ControlInterface
  import opened Generator
  import opened PacketStream
  import opened SynchronousLoop
  import opened Time

  // ---------------------------------------------------------------- no lost wake-up

  /** A sender asleep although it may go on has a controller on its way to wake it. */
  predicate WakeInv(s: State) {
    s.tx.asleep && Granted(s) ==> s.pending != {}
  }

  lemma {:induction false} WakeRuns(cfg: Config, s: State, acts: seq<Action>)
    requires Safe(cfg, s) && WakeInv(s)
    ensures WakeInv(Steps(cfg, s, acts))
    decreases |acts|
  {
    if acts != [] {
      var r := Step(cfg, s, acts[0]);
      if acts[0].Write? && acts[0].controller !in s.pending {
        assert acts[0].controller in r.pending;
      }
      WakeRuns(cfg, r, acts[1..]);
    }
  }

  /** In every reachable state in which the sender sleeps although its wait predicate holds,
      some controller is between its locked write and its notification, and that
      notification wakes the sender. */
  lemma NoLostWakeUp(cfg: Config, control: Control, local: Timespec, acts: seq<Action>)
    requires var s := Steps(cfg, Start(control, local), acts);
      && s.tx.asleep
      && (s.shared.control == ThreadTransmission
          || (s.tx.point == InnerWait && s.shared.control == ThreadFinishObject))
    ensures var s := Steps(cfg, Start(control, local), acts);
      exists c :: c in s.pending && !Step(cfg, s, Notify(c)).tx.asleep
  {
    WakeRuns(cfg, Start(control, local), acts);
    var s := Steps(cfg, Start(control, local), acts);
    var c :| c in s.pending;
    assert !Step(cfg, s, Notify(c)).tx.asleep;
  }

  // ---------------------------------------------------------------- drain

  /** The sender has passed the outer wait and not yet left the object it was admitted to. */
  predicate Admitted(p: Point) {
    p.ModeCheck? || p.Prepare? || InObject(p)
  }

  predicate SetsControl(a: Action, c: Control) {
    a.Write? && Sets(a.notice) == c
  }

  /** No write of the run sets the given control value. */
  predicate Never(acts: seq<Action>, c: Control) {
    acts == [] || (!SetsControl(acts[0], c) && Never(acts[1..], c))
  }

  /** The objects the sender may still begin without a new admission. */
  function Beginnings(p: Point): nat {
    if p.ModeCheck? || p.Prepare? then 1 else 0
  }

  /** What one step may do while the control field is not TRANSMISSION. */
  predicate Drains(s: State, r: State) {
    && s.log.sent <= r.log.sent
    && (Admitted(r.tx.point) ==> Admitted(s.tx.point) && r.tx.number == s.tx.number)
    && (!Admitted(s.tx.point) ==> r.log.sent == s.log.sent && r.log.begun == s.log.begun)
    && (r.log.sent != s.log.sent ==> |r.log.sent| == |s.log.sent| + 1 && Last(r.log.sent).number == s.tx.number)
    && |r.log.begun| + Beginnings(r.tx.point) <= |s.log.begun| + Beginnings(s.tx.point)
  }

  lemma DrainQuietStep(cfg: Config, s: State, now: Timespec)
    requires Safe(cfg, s) && s.shared.control != ThreadTransmission
    requires !(s.tx.point.Prepare? || s.tx.point.Send? || s.tx.point.AfterSend?)
    ensures Drains(s, SenderStep(cfg, s, now))
  {
    QuietSame(cfg, s, now);
  }

  lemma DrainStep(cfg: Config, s: State, a: Action)
    requires Safe(cfg, s)
    requires s.shared.control != ThreadTransmission && !SetsControl(a, ThreadTransmission)
    ensures var r := Step(cfg, s, a);
      r.shared.control != ThreadTransmission && Drains(s, r)
  {
    if a.Run? && !(s.tx.point.Prepare? || s.tx.point.Send? || s.tx.point.AfterSend?) {
      DrainQuietStep(cfg, s, a.now);
    }
  }

  /** After the control field left TRANSMISSION, and until it is set again, all packets sent
      belong to the one object the sender was already admitted to, and without such an
      object there are none. No further object begins. */
  lemma {:induction false} Drain(cfg: Config, s: State, acts: seq<Action>)
    requires Safe(cfg, s)
    requires s.shared.control != ThreadTransmission && Never(acts, ThreadTransmission)
    ensures var r := Steps(cfg, s, acts);
      && s.log.sent <= r.log.sent
      && (!Admitted(s.tx.point) ==> r.log.sent == s.log.sent && r.log.begun == s.log.begun)
      && (forall j :: |s.log.sent| <= j < |r.log.sent| ==> r.log.sent[j].number == s.tx.number)
      && |r.log.begun| <= |s.log.begun| + Beginnings(s.tx.point)
    decreases |acts|
  {
    if acts != [] {
      DrainStep(cfg, s, acts[0]);
      Drain(cfg, Step(cfg, s, acts[0]), acts[1..]);
    }
  }

  /** How many packets can still follow without a new admission. */
  ghost function Budget(cfg: Config, s: State): int {
    if InObject(s.tx.point) && s.log.begun != [] && s.log.counts != [] then
      (if cfg.synchronous then Last(s.log.begun).total else MaxPackets(cfg)) - Last(s.log.counts)
    else if s.tx.point.ModeCheck? || s.tx.point.Prepare? then MaxPackets(cfg)
    else 0
  }

  /** The invariant of the loop that runs. */
  ghost predicate LoopInv(cfg: Config, s: State) {
    StreamInv(cfg, s) && (cfg.synchronous ==> SyncInv(cfg, s))
  }

  lemma BudgetNonNegative(cfg: Config, s: State)
    requires LoopInv(cfg, s)
    ensures Budget(cfg, s) >= 0
  {}

  lemma BudgetQuietStep(cfg: Config, s: State, now: Timespec)
    requires LoopInv(cfg, s) && s.shared.control != ThreadTransmission
    requires !(s.tx.point.Prepare? || s.tx.point.Send? || s.tx.point.AfterSend?)
    ensures var r := SenderStep(cfg, s, now);
      r.log.sent == s.log.sent && Budget(cfg, r) <= Budget(cfg, s)
  {
    BudgetNonNegative(cfg, s);
    QuietSame(cfg, s, now);
    var r := SenderStep(cfg, s, now);
    assert InObject(r.tx.point) ==> InObject(s.tx.point);
    assert r.tx.point.ModeCheck? || r.tx.point.Prepare? ==> s.tx.point.ModeCheck? || s.tx.point.Prepare?;
  }

  lemma BudgetSenderStep(cfg: Config, s: State, now: Timespec)
    requires LoopInv(cfg, s) && !s.tx.asleep
    requires s.shared.control != ThreadTransmission
    ensures var r := SenderStep(cfg, s, now);
      |r.log.sent| + Budget(cfg, r) <= |s.log.sent| + Budget(cfg, s)
  {
    match s.tx.point
    case Prepare => PacketsBounded(cfg, s.tx.inUse);
    case Send =>
    case AfterSend =>
    case _ => BudgetQuietStep(cfg, s, now);
  }

  lemma BudgetStep(cfg: Config, s: State, a: Action)
    requires LoopInv(cfg, s)
    requires s.shared.control != ThreadTransmission && !SetsControl(a, ThreadTransmission)
    ensures var r := Step(cfg, s, a);
      LoopInv(cfg, r) && |r.log.sent| + Budget(cfg, r) <= |s.log.sent| + Budget(cfg, s)
  {
    LoopStep(cfg, s, a);
    if a.Run? && !s.tx.asleep {
      BudgetSenderStep(cfg, s, a.now);
    } else {
      assert Step(cfg, s, a).log.sent == s.log.sent && Budget(cfg, Step(cfg, s, a)) == Budget(cfg, s);
    }
  }

  lemma LoopStep(cfg: Config, s: State, a: Action)
    requires LoopInv(cfg, s)
    ensures LoopInv(cfg, Step(cfg, s, a))
  {
    StreamStep(cfg, s, a);
    if cfg.synchronous {
      SyncStep(cfg, s, a);
    }
  }

  /** Draining sends at most the rest of the admitted object: in the synchronous loop what its
      packet count leaves, in the asynchronous loop what the largest packet count leaves. */
  lemma {:induction false} DrainBudget(cfg: Config, s: State, acts: seq<Action>)
    requires LoopInv(cfg, s)
    requires s.shared.control != ThreadTransmission && Never(acts, ThreadTransmission)
    ensures |Steps(cfg, s, acts).log.sent| <= |s.log.sent| + Budget(cfg, s)
    decreases |acts|
  {
    BudgetNonNegative(cfg, s);
    if acts != [] {
      BudgetStep(cfg, s, acts[0]);
      DrainStep(cfg, s, acts[0]);
      DrainBudget(cfg, Step(cfg, s, acts[0]), acts[1..]);
    }
  }

  // ---------------------------------------------------------------- pause and stop

  lemma PauseStep(cfg: Config, s: State, a: Action)
    requires Safe(cfg, s) && s.shared.control != ThreadTransmission && s.shared.control != ThreadFinishObject
    requires !SetsControl(a, ThreadTransmission) && !SetsControl(a, ThreadFinishObject)
    ensures var r := Step(cfg, s, a);
      && r.shared.control != ThreadTransmission && r.shared.control != ThreadFinishObject
      && |r.log.sent| + (if r.tx.point.Send? then 1 else 0) <= |s.log.sent| + (if s.tx.point.Send? then 1 else 0)
  {}

  /** After any value but TRANSMISSION and FINISH_OBJECT, and until one of these is set, at most one packet is sent:
      the one already past its check. */
  lemma {:induction false} Pause(cfg: Config, s: State, acts: seq<Action>)
    requires Safe(cfg, s) && s.shared.control != ThreadTransmission && s.shared.control != ThreadFinishObject
    requires Never(acts, ThreadTransmission) && Never(acts, ThreadFinishObject)
    ensures |Steps(cfg, s, acts).log.sent| <= |s.log.sent| + (if s.tx.point.Send? then 1 else 0)
    decreases |acts|
  {
    if acts != [] {
      PauseStep(cfg, s, acts[0]);
      Pause(cfg, Step(cfg, s, acts[0]), acts[1..]);
    }
  }

  /** `stop` does not end a sender that waits for its next object: neither the stop flag nor
      the notification lets it leave the wait, so it never closes. */
  lemma {:induction false} StopLeavesWaiterWaiting(cfg: Config, s: State, acts: seq<Action>)
    requires Safe(cfg, s) && s.tx.point.OuterWait?
    requires s.shared.control == ThreadStop && Never(acts, ThreadTransmission)
    ensures Steps(cfg, s, acts).tx.point == OuterWait
    decreases |acts|
  {
    StopStays(cfg, s, acts);
  }

  lemma {:induction false} StopStays(cfg: Config, s: State, acts: seq<Action>)
    requires Safe(cfg, s) && s.tx.point.OuterWait?
    requires s.shared.control != ThreadTransmission && Never(acts, ThreadTransmission)
    ensures Steps(cfg, s, acts).tx.point == OuterWait
    decreases |acts|
  {
    if acts != [] {
      StopStays(cfg, Step(cfg, s, acts[0]), acts[1..]);
    }
  }
}
