/** What FINISH_OBJECT does: the object the sender is in goes on to its end, and the wait for the
    end of its period is cut short. */
module FinishObject {
  import opened AsynchronousLoop
  import opened ControlInterface
  import opened ControlSafety
  import opened Generator
  import opened PacketStream
  import opened SynchronousLoop
  import opened Time

  /** Every write of the run leaves FINISH_OBJECT in the control field. */
  predicate KeepsFinish(acts: seq<Action>) {
    acts == [] || ((acts[0].Write? ==> Sets(acts[0].notice) == ThreadFinishObject) && KeepsFinish(acts[1..]))
  }

  // ---------------------------------------------------------------- the object goes on

  lemma FinishStep(cfg: Config, s: State, a: Action)
    requires LoopInv(cfg, s) && InObject(s.tx.point) && !s.tx.point.EndObject? && !s.tx.asleep
    requires s.shared.control == ThreadFinishObject && (a.Write? ==> Sets(a.notice) == ThreadFinishObject)
    ensures var r := Step(cfg, s, a);
      && LoopInv(cfg, r) && InObject(r.tx.point) && !r.tx.asleep && r.shared.control == ThreadFinishObject
      && r.shared.stopThread == s.shared.stopThread && |r.log.begun| == |s.log.begun|
      && s.tx.packet <= MaxPackets(cfg) && r.tx.packet <= MaxPackets(cfg)
      && Measure(cfg, r) + (if a.Run? then 1 else 0) <= Measure(cfg, s)
  {
    LoopStep(cfg, s, a);
    ProgressStep(cfg, s, a);
    SameObject(cfg, s, a);
  }

  lemma SameObject(cfg: Config, s: State, a: Action)
    requires Safe(cfg, s) && InObject(s.tx.point) && !s.tx.point.EndObject?
    requires s.shared.control == ThreadFinishObject && (a.Write? ==> Sets(a.notice) == ThreadFinishObject)
    ensures var r := Step(cfg, s, a);
      && r.shared.control == ThreadFinishObject && r.shared.stopThread == s.shared.stopThread
      && |r.log.begun| == |s.log.begun|
  {}

  lemma {:induction false} EndReached(cfg: Config, s: State, acts: seq<Action>) returns (k: nat)
    requires LoopInv(cfg, s) && InObject(s.tx.point) && !s.tx.asleep
    requires s.shared.control == ThreadFinishObject && KeepsFinish(acts) && SenderTurns(acts) >= Measure(cfg, s)
    ensures k <= |acts| && SenderTurns(acts[..k]) <= Measure(cfg, s)
    ensures var r := Steps(cfg, s, acts[..k]);
      && LoopInv(cfg, r) && r.tx.point == EndObject && r.shared.stopThread == s.shared.stopThread
      && |r.log.begun| == |s.log.begun|
    decreases |acts|
  {
    if s.tx.point.EndObject? {
      k := 0;
    } else {
      FinishStep(cfg, s, acts[0]);
      var j := EndReached(cfg, Step(cfg, s, acts[0]), acts[1..]);
      k := j + 1;
      assert acts[..k][0] == acts[0] && acts[..k][1..] == acts[1..][..j];
    }
  }

  lemma RunsKeepLoop(cfg: Config, control: Control, local: Timespec, acts: seq<Action>)
    ensures LoopInv(cfg, Steps(cfg, Start(control, local), acts))
  {
    StreamStart(cfg, control, local);
    StreamRuns(cfg, Start(control, local), acts);
    if cfg.synchronous {
      SyncStart(cfg, control, local);
      SyncRuns(cfg, Start(control, local), acts);
    }
  }

  /** From every state a run reaches inside an object, awake, with FINISH_OBJECT in the control
      field and nothing else written: within `Measure` turns the sender comes to the end of that
      object. In the synchronous loop, unless the thread is stopped, all its packets are sent by
      then. */
  lemma FinishObjectFinishes(cfg: Config, control: Control, local: Timespec, before: seq<Action>, acts: seq<Action>)
    returns (k: nat)
    requires var s := Steps(cfg, Start(control, local), before);
      && InObject(s.tx.point) && !s.tx.asleep
      && s.shared.control == ThreadFinishObject && KeepsFinish(acts) && SenderTurns(acts) >= Measure(cfg, s)
    ensures var s := Steps(cfg, Start(control, local), before);
      && k <= |acts| && SenderTurns(acts[..k]) <= Measure(cfg, s)
      && var r := Steps(cfg, s, acts[..k]);
      && r.tx.point == EndObject && |r.log.begun| == |s.log.begun| == |r.log.counts| > 0
      && (cfg.synchronous && !s.shared.stopThread ==> Last(r.log.counts) == Last(r.log.begun).total)
  {
    var s := Steps(cfg, Start(control, local), before);
    RunsKeepLoop(cfg, control, local, before);
    k := EndReached(cfg, s, acts);
  }

  // ---------------------------------------------------------------- the period wait

  predicate InPeriod(p: Point) {
    p.PeriodControl? || p.PeriodClock?
  }

  lemma {:induction false} WaitStays(cfg: Config, s: State, acts: seq<Action>)
    requires Safe(cfg, s) && s.tx.point.OuterWait? && s.shared.control == ThreadFinishObject && KeepsFinish(acts)
    ensures var r := Steps(cfg, s, acts);
      r.tx.point == OuterWait && r.tx.local == s.tx.local
    decreases |acts|
  {
    if acts != [] {
      WaitStays(cfg, Step(cfg, s, acts[0]), acts[1..]);
    }
  }

  /** FINISH_OBJECT ends the period wait within two turns of the sender, whatever the clock says,
      and the grid moves to the target it waited for. */
  lemma {:induction false} PeriodCutShort(cfg: Config, s: State, acts: seq<Action>)
    requires Safe(cfg, s) && InPeriod(s.tx.point) && s.shared.control == ThreadFinishObject && KeepsFinish(acts)
    requires SenderTurns(acts) >= if s.tx.point.PeriodControl? then 1 else 2
    ensures var r := Steps(cfg, s, acts);
      r.tx.point == OuterWait && r.tx.local == s.tx.target
    decreases |acts|
  {
    var r := Step(cfg, s, acts[0]);
    if InPeriod(r.tx.point) {
      PeriodCutShort(cfg, r, acts[1..]);
    } else {
      WaitStays(cfg, r, acts[1..]);
    }
  }

  /** With any other control value a turn ends the wait exactly if it tests the clock and the
      reading is not before the target. */
  lemma PeriodTurnExactly(cfg: Config, s: State, now: Timespec)
    requires Safe(cfg, s) && InPeriod(s.tx.point) && s.shared.control != ThreadFinishObject
    ensures var r := SenderStep(cfg, s, now);
      && (r.tx.point == OuterWait
          <==> s.tx.point == PeriodClock
               && (now.sec > s.tx.target.sec || (now.sec == s.tx.target.sec && now.nsec >= s.tx.target.nsec)))
      && (r.tx.point == OuterWait ==> r.tx.local == s.tx.target)
      && (r.tx.point != OuterWait ==> InPeriod(r.tx.point) && r.tx == s.tx.(point := r.tx.point))
  {}

  /** Every reading of the run lies before `t`. */
  predicate AllBefore(acts: seq<Action>, t: Timespec) {
    acts == [] || ((acts[0].Run? ==> After(t, acts[0].now)) && AllBefore(acts[1..], t))
  }

  /** No reading of the run lies before `t`. */
  predicate NoneBefore(acts: seq<Action>, t: Timespec) {
    acts == [] || ((acts[0].Run? ==> !After(t, acts[0].now)) && NoneBefore(acts[1..], t))
  }

  /** Without FINISH_OBJECT the wait lasts as long as the readings lie before the target. */
  lemma {:induction false} PeriodLasts(cfg: Config, s: State, acts: seq<Action>)
    requires Safe(cfg, s) && InPeriod(s.tx.point) && s.shared.control != ThreadFinishObject
    requires Never(acts, ThreadFinishObject) && AllBefore(acts, s.tx.target)
    ensures var r := Steps(cfg, s, acts);
      InPeriod(r.tx.point) && r.tx.target == s.tx.target && r.tx.local == s.tx.local && r.log.sent == s.log.sent
    decreases |acts|
  {
    if acts != [] {
      PeriodLasts(cfg, Step(cfg, s, acts[0]), acts[1..]);
    }
  }

  /** Whatever is written, the wait ends within two turns once no reading lies before the target. */
  lemma {:induction false} PeriodEndsByClock(cfg: Config, s: State, acts: seq<Action>) returns (k: nat)
    requires Safe(cfg, s) && InPeriod(s.tx.point) && NoneBefore(acts, s.tx.target)
    requires SenderTurns(acts) >= if s.tx.point.PeriodClock? then 1 else 2
    ensures k <= |acts| && SenderTurns(acts[..k]) <= if s.tx.point.PeriodClock? then 1 else 2
    ensures var r := Steps(cfg, s, acts[..k]);
      r.tx.point == OuterWait && r.tx.local == s.tx.target
    decreases |acts|
  {
    var r := Step(cfg, s, acts[0]);
    var j := 0;
    if InPeriod(r.tx.point) {
      j := PeriodEndsByClock(cfg, r, acts[1..]);
    }
    k := j + 1;
    assert acts[..k][0] == acts[0] && acts[..k][1..] == acts[1..][..j];
  }
}
