/** The period grid of the sender: `local_timestamp` never drifts from the base it was given. */
module PeriodGrid {
  import opened ControlInterface
  import opened Fragmentation
  import opened Generator
  import opened PacketStream
  import opened SynchronousLoop
  import opened Time

  // ---------------------------------------------------------------- both loops

  /** `t` lies `elapsed` milliseconds after `base` to the nanosecond, and is normalised if
      the base is. */
  predicate OnGrid(t: Timespec, base: Timespec, elapsed: nat) {
    && Nanos(t) == Nanos(base) + elapsed * NANOS_PER_MILLI
    && (Normalised(base) ==> Normalised(t))
  }

  predicate GridInv(cfg: Config, s: State)
    requires Safe(cfg, s)
  {
    && OnGrid(s.tx.local, s.log.base, s.log.elapsed)
    && (s.tx.point.PeriodControl? || s.tx.point.PeriodClock?
        ==> s.tx.target == Advance(s.tx.local, Using(cfg, s).deadline))
    && (forall i :: 0 <= i < |s.log.begun| ==>
          OnGrid(s.log.begun[i].slot, s.log.begun[i].base, s.log.begun[i].elapsed))
    && s.log.rebases + (if s.shared.updatePeriod then 1 else 0) <= s.log.armed
  }

  lemma GridStep(cfg: Config, s: State, a: Action)
    requires Safe(cfg, s) && GridInv(cfg, s)
    ensures GridInv(cfg, Step(cfg, s, a))
  {
    if a.Run? && !s.tx.asleep {
      if s.tx.point.PeriodControl? || s.tx.point.PeriodClock? {
        AdvanceIsExact(s.tx.local, Using(cfg, s).deadline);
        AdvanceNormalises(s.tx.local, Using(cfg, s).deadline);
      }
      if !s.tx.point.Prepare? {
        assert SenderStep(cfg, s, a.now).log.begun == s.log.begun;
      }
    }
  }

  lemma {:induction false} GridRuns(cfg: Config, s: State, acts: seq<Action>)
    requires Safe(cfg, s) && GridInv(cfg, s)
    ensures GridInv(cfg, Steps(cfg, s, acts))
    decreases |acts|
  {
    if acts != [] {
      GridStep(cfg, s, acts[0]);
      GridRuns(cfg, Step(cfg, s, acts[0]), acts[1..]);
    }
  }

  /** In every run of either loop `local_timestamp` is the last base plus the exact sum of the
      deadlines since, and no more bases were taken over than period updates were requested. */
  lemma NoDrift(cfg: Config, control: Control, local: Timespec, acts: seq<Action>)
    ensures var s := Steps(cfg, Start(control, local), acts);
      && Nanos(s.tx.local) == Nanos(s.log.base) + s.log.elapsed * NANOS_PER_MILLI
      && (Normalised(s.log.base) ==> Normalised(s.tx.local))
      && s.log.rebases + (if s.shared.updatePeriod then 1 else 0) <= s.log.armed
  {
    GridRuns(cfg, Start(control, local), acts);
  }

  /** The base moves only at a mode check that installs a different, configured mode while a
      period update is pending, and that consumes the update. Otherwise it stays. */
  lemma BaseMovesOnlyOnModeChange(cfg: Config, s: State, a: Action)
    requires Safe(cfg, s)
    ensures var r := Step(cfg, s, a);
      && (r.log.rebases == s.log.rebases ==> r.log.base == s.log.base)
      && (r.log.rebases != s.log.rebases ==>
        && a.Run? && (s.tx.point.ModeCheck? || s.tx.point.InnerModeCheck?)
        && s.shared.updatePeriod && !r.shared.updatePeriod
        && s.shared.mode != s.tx.current && s.shared.mode in cfg.services
        && r.log.base == r.tx.local == s.shared.periodStart && r.log.elapsed == 0
        && r.log.rebases == s.log.rebases + 1)
  {}

  // ---------------------------------------------------------------- changes without a timestamp

  /** No write of the run touches the mode or the period: only the control field is set, or the
      thread is stopped. */
  predicate LeavesMode(acts: seq<Action>) {
    acts == [] || ((acts[0].Write? ==> acts[0].notice.SetControl? || acts[0].notice.Halt?) && LeavesMode(acts[1..]))
  }

  /** After the write of mode `m`, made when the bases taken over were `rebases` and the last one
      `base`, and with update `pending` for `stale`: either the sender has not looked yet, or it
      has taken over the mode, and with it the stale base if one was pending. */
  predicate Between(s: State, m: Mode, pending: bool, stale: Timespec, rebases: nat, base: Timespec) {
    && s.shared.mode == m
    && (if s.tx.current != m || !pending
        then s.log.rebases == rebases && s.log.base == base && s.shared.updatePeriod == pending
             && s.shared.periodStart == stale
        else s.log.rebases == rebases + 1 && s.log.base == stale && !s.shared.updatePeriod)
  }

  lemma {:induction false} BetweenRuns(cfg: Config, s: State, acts: seq<Action>,
                                       m: Mode, pending: bool, stale: Timespec, rebases: nat, base: Timespec)
    requires Safe(cfg, s) && m in cfg.services && LeavesMode(acts)
    requires Between(s, m, pending, stale, rebases, base)
    ensures Between(Steps(cfg, s, acts), m, pending, stale, rebases, base)
    decreases |acts|
  {
    if acts != [] {
      BetweenRuns(cfg, Step(cfg, s, acts[0]), acts[1..], m, pending, stale, rebases, base);
    }
  }

  /** A mode change that names no timestamp keeps the grid if and only if no update is pending
      when it is written: whenever the sender of either loop, after any turns and at either
      check, has taken over the mode, the base is the old one, or the stale one. */
  lemma PlainModeChangeKeepsGrid(cfg: Config, s: State, c: nat, control: Control, m: Mode, acts: seq<Action>)
    requires Safe(cfg, s) && c !in s.pending && m != s.tx.current && m in cfg.services && LeavesMode(acts)
    ensures var r := Steps(cfg, Step(cfg, s, Write(c, SetMode(control, m))), acts);
      && (r.tx.current != m ==> r.log.rebases == s.log.rebases && r.log.base == s.log.base)
      && (r.tx.current == m ==>
        && r.log.rebases == s.log.rebases + (if s.shared.updatePeriod then 1 else 0)
        && r.log.base == (if s.shared.updatePeriod then s.shared.periodStart else s.log.base)
        && !r.shared.updatePeriod)
  {
    var t := Step(cfg, s, Write(c, SetMode(control, m)));
    BetweenRuns(cfg, t, acts, m, s.shared.updatePeriod, s.shared.periodStart, s.log.rebases, s.log.base);
  }

  /** Two modes with objects of one packet. */
  function TwoModes(synchronous: bool): Config {
    var one := Settings(1, 0, "192.168.1.12", 5000, 1, 10);
    Config(map[0 := one, 1 := one], synchronous, 5000)
  }

  /** Mode 0 is started twice: at `t`, which the sender takes over, and at `u`, which stays
      pending because the mode is in use already. */
  function StartTwice(t: Timespec, u: Timespec, now: Timespec): seq<Action> {
    [Write(0, SetPeriod(ThreadTransmission, t, 0, true)), Notify(0)] + Alone(now, 2)
    + [Write(0, SetPeriod(ThreadTransmission, u, 0, true)), Notify(0)]
  }

  lemma StartedTwice(synchronous: bool, control: Control, local: Timespec, t: Timespec, u: Timespec, now: Timespec)
    ensures var s := Steps(TwoModes(synchronous), Start(control, local), StartTwice(t, u, now));
      && s.shared == Shared(ThreadTransmission, 0, u, true, false) && s.pending == {}
      && s.tx.point == Prepare && !s.tx.asleep && s.tx.number == 1
      && s.tx.current == 0 == s.tx.inUse && s.tx.local == t && s.log.base == t && s.log.rebases == 1
  {
    var cfg := TwoModes(synchronous);
    var first := [Write(0, SetPeriod(ThreadTransmission, t, 0, true)), Notify(0)];
    var second := [Write(0, SetPeriod(ThreadTransmission, u, 0, true)), Notify(0)];
    StepsAppend(cfg, Start(control, local), first + Alone(now, 2), second);
    StepsAppend(cfg, Start(control, local), first, Alone(now, 2));
    StepsTwo(cfg, Start(control, local), first[0], first[1]);
    var s := Steps(cfg, Start(control, local), first);
    AloneIsTurns(cfg, s, now, 2);
    assert Turns(cfg, s, now, 2) == SenderStep(cfg, SenderStep(cfg, s, now), now);
    StepsTwo(cfg, Turns(cfg, s, now, 2), second[0], second[1]);
  }

  /** From there the synchronous sender reaches its next check after the object and its period,
      the asynchronous one before its packet. */
  function TurnsToCheck(synchronous: bool): nat {
    if synchronous then 11 else 3
  }

  lemma NextCheckTakes(cfg: Config, s: State, now: Timespec)
    requires cfg == TwoModes(cfg.synchronous) && Safe(cfg, s) && s.tx.point == Prepare && !s.tx.asleep
    requires s.tx.number == 1 && s.tx.inUse == 0 == s.tx.current && s.shared.mode == 1
    requires s.shared.control == ThreadTransmission && !s.shared.stopThread
    requires !After(Advance(s.tx.local, 10), now)
    ensures Turns(cfg, s, now, TurnsToCheck(cfg.synchronous)).tx.current == 1
  {
    assert PacketCount(1) == 1;
    var s2 := SenderStep(cfg, SenderStep(cfg, s, now), now);
    assert Turns(cfg, s, now, 2) == s2;
    if cfg.synchronous {
      assert s2.tx.point == InnerWait && s2.tx.packet == 0;
      var s5 := SenderStep(cfg, SenderStep(cfg, SenderStep(cfg, s2, now), now), now);
      assert s5.tx.point == PacketTest && s5.tx.packet == 1 && s5.tx.number == 1;
      assert Turns(cfg, s2, now, 3) == s5;
      OverToCheck(cfg, s5, now);
      TurnsAdd(cfg, s, now, 2, 9);
      TurnsAdd(cfg, s2, now, 3, 6);
    } else {
      assert s2.tx.point == InnerModeCheck;
      assert Turns(cfg, s2, now, 1) == SenderStep(cfg, s2, now);
      TurnsAdd(cfg, s, now, 2, 1);
    }
  }

  lemma OverToCheck(cfg: Config, s: State, now: Timespec)
    requires cfg == TwoModes(true) && Safe(cfg, s) && s.tx.point == PacketTest && !s.tx.asleep && s.tx.packet == 1
    requires s.tx.number == 1 && s.tx.inUse == 0 == s.tx.current && s.shared.mode == 1
    requires s.shared.control == ThreadTransmission && !s.shared.stopThread
    requires !After(Advance(s.tx.local, 10), now)
    ensures Turns(cfg, s, now, 6).tx.current == 1
  {
    assert PacketCount(1) == 1;
    var s3 := SenderStep(cfg, SenderStep(cfg, SenderStep(cfg, s, now), now), now);
    assert s3.tx.point == PeriodClock && s3.tx.target == Advance(s.tx.local, 10);
    assert Turns(cfg, s, now, 3) == s3;
    var s6 := SenderStep(cfg, SenderStep(cfg, SenderStep(cfg, s3, now), now), now);
    assert Turns(cfg, s3, now, 3) == s6;
    TurnsAdd(cfg, s, now, 3, 3);
  }

  /** The run `before` ends with mode 0 in use on base `t`; and when mode 1 is then written
      without a timestamp, the sender has after the run `after` taken it over on base `u`. */
  predicate MovesGrid(cfg: Config, start: State, before: seq<Action>, after: seq<Action>, t: Timespec, u: Timespec)
    requires Safe(cfg, start)
  {
    var s := Steps(cfg, start, before);
    var r := Steps(cfg, Step(cfg, s, Write(0, SetMode(ThreadTransmission, 1))), after);
    && s.pending == {} && s.tx.current == 0 == s.shared.mode && s.log.base == t && LeavesMode(after)
    && r.tx.current == 1 && r.log.base == u && r.log.rebases == s.log.rebases + 1
  }

  /** The failing input, for both loops and any two start timestamps: after the second start for
      the mode in use, a change that names no timestamp puts the sender on the second one. */
  lemma StaleUpdateMovesGrid(synchronous: bool, control: Control, local: Timespec, t: Timespec, u: Timespec)
    ensures exists before, after :: MovesGrid(TwoModes(synchronous), Start(control, local), before, after, t, u)
  {
    var now := Advance(t, 10);
    var before, after := StartTwice(t, u, now), Alone(now, TurnsToCheck(synchronous));
    StartedTwice(synchronous, control, local, t, u, now);
    AloneLeavesMode(now, TurnsToCheck(synchronous));
    StaleTaken(TwoModes(synchronous), Steps(TwoModes(synchronous), Start(control, local), before), t, u, now);
    assert MovesGrid(TwoModes(synchronous), Start(control, local), before, after, t, u);
  }

  lemma StaleTaken(cfg: Config, s: State, t: Timespec, u: Timespec, now: Timespec)
    requires cfg == TwoModes(cfg.synchronous) && Safe(cfg, s) && now == Advance(t, 10)
    requires s.shared == Shared(ThreadTransmission, 0, u, true, false) && s.pending == {}
    requires s.tx.point == Prepare && !s.tx.asleep && s.tx.number == 1
    requires s.tx.current == 0 == s.tx.inUse && s.tx.local == t && s.log.base == t
    ensures var after := Alone(now, TurnsToCheck(cfg.synchronous));
      var r := Steps(cfg, Step(cfg, s, Write(0, SetMode(ThreadTransmission, 1))), after);
      r.tx.current == 1 && r.log.base == u && r.log.rebases == s.log.rebases + 1
  {
    var n := TurnsToCheck(cfg.synchronous);
    var w := Step(cfg, s, Write(0, SetMode(ThreadTransmission, 1)));
    AloneLeavesMode(now, n);
    AloneIsTurns(cfg, w, now, n);
    NextCheckTakes(cfg, w, now);
    PlainModeChangeKeepsGrid(cfg, s, 0, ThreadTransmission, 1, Alone(now, n));
  }

  lemma {:induction false} AloneLeavesMode(now: Timespec, n: nat)
    ensures LeavesMode(Alone(now, n))
  {
    if n > 0 {
      assert Alone(now, n)[1..] == Alone(now, n - 1);
      AloneLeavesMode(now, n - 1);
    }
  }

  // ---------------------------------------------------------------- objects of the synchronous loop

  function DeadlineOf(cfg: Config, m: uint32): nat {
    if m in cfg.services then cfg.services[m].deadline else 0
  }

  /** `b` follows `a` on the same grid, one deadline later. */
  predicate Continues(cfg: Config, a: Object, b: Object) {
    b.base == a.base && b.elapsed == a.elapsed + DeadlineOf(cfg, a.mode)
  }

  /** The slot of an object follows from the object before it, unless a different mode came
      with a new base. */
  predicate Follows(cfg: Config, a: Object, b: Object) {
    Continues(cfg, a, b) || (b.mode != a.mode && b.elapsed == 0)
  }

  /** The sender's place on the grid relative to the last object begun. */
  predicate PlaceOk(cfg: Config, o: Object, p: Point, inUse: uint32, local: Timespec, base: Timespec, elapsed: nat) {
    if p.Closed? then true
    else if p.OuterWait? || p.ModeCheck? || p.Prepare? then
      (base == o.base && elapsed == o.elapsed + DeadlineOf(cfg, o.mode) && (inUse == o.mode || p.Prepare?))
      || (p.Prepare? && inUse != o.mode && elapsed == 0)
    else base == o.base && elapsed == o.elapsed && local == o.slot && inUse == o.mode
  }

  predicate LastPlaceOk(cfg: Config, s: State) {
    s.log.begun != [] ==>
      PlaceOk(cfg, Last(s.log.begun), s.tx.point, s.tx.inUse, s.tx.local, s.log.base, s.log.elapsed)
  }

  predicate ChainOk(cfg: Config, begun: seq<Object>) {
    forall i :: 0 < i < |begun| ==> Follows(cfg, begun[i - 1], begun[i])
  }

  predicate ObjectGridOk(cfg: Config, s: State) {
    ChainOk(cfg, s.log.begun) && LastPlaceOk(cfg, s)
  }

  ghost predicate SyncGridInv(cfg: Config, s: State) {
    SyncInv(cfg, s) && GridInv(cfg, s) && ObjectGridOk(cfg, s)
  }

  lemma ObjectGridBegin(cfg: Config, s: State)
    requires Safe(cfg, s) && ObjectGridOk(cfg, s) && s.tx.point.Prepare?
    ensures ObjectGridOk(cfg, BeginObject(cfg, s))
  {}

  lemma ObjectGridMove(cfg: Config, s: State, now: Timespec)
    requires SyncInv(cfg, s) && LastPlaceOk(cfg, s) && !s.tx.point.Prepare?
    ensures LastPlaceOk(cfg, SenderStep(cfg, s, now)) && SenderStep(cfg, s, now).log.begun == s.log.begun
  {
    if !(s.tx.point.Send? || s.tx.point.AfterSend?) {
      ObjectGridQuiet(cfg, s, now);
    }
  }

  lemma ObjectGridQuiet(cfg: Config, s: State, now: Timespec)
    requires Safe(cfg, s) && cfg.synchronous && !s.tx.point.InnerModeCheck? && LastPlaceOk(cfg, s)
    requires !s.tx.point.Closed? ==> s.tx.current == s.tx.inUse
    requires !(s.tx.point.Prepare? || s.tx.point.Send? || s.tx.point.AfterSend?)
    ensures LastPlaceOk(cfg, SenderStep(cfg, s, now)) && SenderStep(cfg, s, now).log.begun == s.log.begun
  {
    QuietSame(cfg, s, now);
  }

  lemma ObjectGridStep(cfg: Config, s: State, a: Action)
    requires SyncInv(cfg, s) && ObjectGridOk(cfg, s)
    ensures ObjectGridOk(cfg, Step(cfg, s, a))
  {
    if a.Run? && !s.tx.asleep {
      if s.tx.point.Prepare? {
        ObjectGridBegin(cfg, s);
      } else {
        ObjectGridMove(cfg, s, a.now);
      }
    }
  }

  lemma SyncGridStep(cfg: Config, s: State, a: Action)
    requires SyncGridInv(cfg, s)
    ensures SyncGridInv(cfg, Step(cfg, s, a))
  {
    SyncStep(cfg, s, a);
    GridStep(cfg, s, a);
    ObjectGridStep(cfg, s, a);
  }

  lemma {:induction false} SyncGridRuns(cfg: Config, s: State, acts: seq<Action>)
    requires SyncGridInv(cfg, s)
    ensures SyncGridInv(cfg, Steps(cfg, s, acts))
    decreases |acts|
  {
    if acts != [] {
      SyncGridStep(cfg, s, acts[0]);
      SyncGridRuns(cfg, Step(cfg, s, acts[0]), acts[1..]);
    }
  }

  /** Objects `i..j` of one mode stand on one grid: consecutive slots are one deadline apart. */
  lemma {:induction false} SlotsOfOneMode(cfg: Config, begun: seq<Object>, i: nat, j: nat)
    requires i <= j < |begun|
    requires ChainOk(cfg, begun)
    requires forall k :: i <= k <= j ==> begun[k].mode == begun[i].mode
    ensures begun[j].base == begun[i].base
    ensures begun[j].elapsed == begun[i].elapsed + (j - i) * DeadlineOf(cfg, begun[i].mode)
    decreases j
  {
    if i < j {
      SlotsOfOneMode(cfg, begun, i, j - 1);
      assert Follows(cfg, begun[j - 1], begun[j]);
      assert (j - i) * DeadlineOf(cfg, begun[i].mode)
          == (j - 1 - i) * DeadlineOf(cfg, begun[i].mode) + DeadlineOf(cfg, begun[i].mode);
    }
  }

  /** In every run of the synchronous loop, two objects of one unbroken stretch of a mode have
      slots exactly their distance times the deadline apart, to the nanosecond. */
  lemma SlotDistance(cfg: Config, control: Control, local: Timespec, acts: seq<Action>, i: nat, j: nat)
    requires cfg.synchronous
    requires i <= j < |Steps(cfg, Start(control, local), acts).log.begun|
    requires var begun := Steps(cfg, Start(control, local), acts).log.begun;
      forall k :: i <= k <= j ==> begun[k].mode == begun[i].mode
    ensures var begun := Steps(cfg, Start(control, local), acts).log.begun;
      && begun[i].mode in cfg.services
      && Nanos(begun[j].slot) == Nanos(begun[i].slot)
           + (j - i) * cfg.services[begun[i].mode].deadline * NANOS_PER_MILLI
  {
    SyncStart(cfg, control, local);
    SyncGridRuns(cfg, Start(control, local), acts);
    var begun := Steps(cfg, Start(control, local), acts).log.begun;
    SlotsOfOneMode(cfg, begun, i, j);
    assert ObjectOk(cfg, begun[i]) && OnGrid(begun[i].slot, begun[i].base, begun[i].elapsed);
    assert OnGrid(begun[j].slot, begun[j].base, begun[j].elapsed);
  }
}
