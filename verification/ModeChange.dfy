/** End to end: the handler of a synchronised-object mode change, interleaved with the
    synchronous sender over one clock that never runs backwards.

    Both threads read the clock whenever they run. The handler's locked write and its
    notification are separate steps, so the sender may run between a firing, its write and
    its notification. */
module ModeChange {
  import opened ControlInterface
  import opened Fragmentation
  import opened Generator
  import opened HandlerSystem
  import opened PacketStream
  import opened PeriodGrid
  import opened Polling
  import opened SynchronousLoop
  import opened Time

  /** What the control message asks for. */
  datatype Order = Order(reconfig: Timespec, restart: Timespec, mode: Mode)

  /** The start call an order leads to. */
  function Begin(o: Order): Notice {
    StartAt(o.restart, o.mode)
  }

  /** What the sync-object handler makes of an order. */
  function JobOf(o: Order): Job {
    Job(o.reconfig, o.restart, FINISH_OBJECT, Begin(o))
  }

  function Happens(cfg: Config, o: Order, y: System, e: Event): (r: System)
    requires Safe(cfg, y.gen)
    ensures Safe(cfg, r.gen)
  {
    Obeys(cfg, JobOf(o), y, e)
  }

  function AllHappen(cfg: Config, o: Order, y: System, es: seq<Event>): (r: System)
    requires Safe(cfg, y.gen)
    ensures Safe(cfg, r.gen)
  {
    AllObey(cfg, JobOf(o), y, es)
  }

  // ---------------------------------------------------------------- invariant

  /** The calls owed are those of the last firing; the start call is owed or made only after a
      clock reading beyond the restart timestamp. */
  predicate TodoOk(o: Order, y: System) {
    && (y.client.todo == [] || y.client.todo == [FINISH_OBJECT] || y.client.todo == [Begin(o)]
        || y.client.todo == [FINISH_OBJECT, Begin(o)])
    && (Begin(o) in y.client.todo ==> After(y.clock, o.restart) && y.client.poll.Returned?)
  }

  /** Before the start call is written: nothing in the sender knows the new mode. */
  predicate NotYet(o: Order, y: System, objects: nat, packets: nat) {
    && y.gen.tx.current != o.mode && y.gen.tx.inUse != o.mode
    && (forall k :: objects <= k < |y.gen.log.begun| ==> y.gen.log.begun[k].mode != o.mode)
    && (forall i :: packets <= i < |y.gen.log.routes| ==> y.gen.log.routes[i] != o.mode)
  }

  /** Once it is written: the handler is done, and the sender has either not looked yet or has
      taken over mode and base together. */
  predicate Installed(o: Order, y: System, objects: nat, packets: nat) {
    && After(y.clock, o.restart)
    && y.client == Client(Returned, [])
    && y.gen.shared.mode == o.mode
    && y.gen.shared.control == ThreadTransmission
    && y.gen.shared.periodStart == o.restart
    && (y.gen.tx.current != o.mode ==> y.gen.shared.updatePeriod && NotYet(o, y, objects, packets))
    && (y.gen.tx.current == o.mode && !y.gen.tx.point.Closed? ==> !After(y.gen.tx.local, y.clock))
  }

  predicate ModeOk(o: Order, y: System, objects: nat, packets: nat) {
    if y.gen.shared.mode == o.mode then Installed(o, y, objects, packets) else NotYet(o, y, objects, packets)
  }

  /** The first object of the new mode stands on the restart timestamp, the next ones follow
      on its grid, and the mode is not left again. */
  predicate ObjectsOk(cfg: Config, o: Order, begun: seq<Object>, objects: nat) {
    forall k :: objects <= k < |begun| ==> ObjectOnOrder(cfg, o, begun, objects, k)
  }

  predicate ObjectOnOrder(cfg: Config, o: Order, begun: seq<Object>, objects: nat, k: nat)
    requires k < |begun|
  {
    && (begun[k].mode == o.mode && (k <= objects || begun[k - 1].mode != o.mode)
        ==> begun[k].base == o.restart && begun[k].elapsed == 0)
    && (k > objects && begun[k - 1].mode == o.mode
        ==> begun[k].mode == o.mode && Continues(cfg, begun[k - 1], begun[k]))
  }

  /** Where the sender stands between objects of the new mode. */
  predicate BetweenOk(o: Order, s: State, objects: nat) {
    var before := |s.log.begun| <= objects || Last(s.log.begun).mode != o.mode;
    && (s.tx.current == o.mode && before && !s.tx.point.Closed?
        ==> s.tx.point.Prepare? && s.log.base == o.restart && s.log.elapsed == 0)
    && (!before ==> s.tx.current == o.mode)
  }

  predicate PacketsOk(o: Order, y: System, objects: nat, packets: nat) {
    var log := y.gen.log;
    |log.routes| == |log.sent| == |log.stamps| &&
    forall i :: packets <= i < |log.routes| && log.routes[i] == o.mode ==>
      && objects < log.sent[i].number <= |log.begun|
      && After(log.stamps[i], o.restart)
      && !After(log.begun[log.sent[i].number - 1].slot, log.stamps[i])
  }

  ghost predicate ChangeInv(cfg: Config, o: Order, y: System, objects: nat, packets: nat) {
    && SyncGridInv(cfg, y.gen)
    && objects <= |y.gen.log.begun|
    && packets <= |y.gen.log.sent|
    && TodoOk(o, y)
    && ModeOk(o, y, objects, packets)
    && ObjectsOk(cfg, o, y.gen.log.begun, objects)
    && BetweenOk(o, y.gen, objects)
    && PacketsOk(o, y, objects, packets)
  }

  // ---------------------------------------------------------------- steps

  /** The calls one pass of the handler owes, and that the start call needs a reading beyond
      the restart timestamp. */
  lemma PassOwes(o: Order, firstDone: bool, now: Timespec)
    ensures var p := Pass(o.reconfig, o.restart, firstDone, now);
      var todo := NoticesOf(p.fired, FINISH_OBJECT, Begin(o));
      && (todo == [] || todo == [FINISH_OBJECT] || todo == [Begin(o)] || todo == [FINISH_OBJECT, Begin(o)])
      && (Begin(o) in todo ==> After(now, o.restart) && p.next.Returned?)
  {
    var p := Pass(o.reconfig, o.restart, firstDone, now);
    CheckMeans(o.restart, now);
    NoticesAppend(if p.fired != [] && p.fired[0].mark == First then [Firing(First, now)] else [],
                  if p.fired != [] && Last(p.fired).mark == Second then [Firing(Second, now)] else [],
                  FINISH_OBJECT, Begin(o));
    assert NoticesOf([Firing(First, now)], FINISH_OBJECT, Begin(o)) == [FINISH_OBJECT];
    assert NoticesOf([Firing(Second, now)], FINISH_OBJECT, Begin(o)) == [Begin(o)];
    assert p.fired == [] || p.fired == [Firing(First, now)] || p.fired == [Firing(Second, now)]
        || p.fired == [Firing(First, now)] + [Firing(Second, now)];
  }

  lemma PollKeeps(cfg: Config, o: Order, y: System, now: Timespec, objects: nat, packets: nat)
    requires ChangeInv(cfg, o, y, objects, packets)
    ensures ChangeInv(cfg, o, Happens(cfg, o, y, HandlerPolls(now)), objects, packets)
  {
    if y.client.poll.Looping? {
      PassOwes(o, y.client.poll.firstDone, now);
    }
  }

  lemma WriteKeeps(cfg: Config, o: Order, y: System, objects: nat, packets: nat)
    requires ChangeInv(cfg, o, y, objects, packets)
    ensures ChangeInv(cfg, o, Happens(cfg, o, y, HandlerWrites), objects, packets)
  {
    if y.client.todo != [] && HANDLER !in y.gen.pending {
      SyncGridStep(cfg, y.gen, Write(HANDLER, y.client.todo[0]));
    }
  }

  lemma WakeIs(cfg: Config, o: Order, y: System, e: Event)
    requires Safe(cfg, y.gen) && (e.WakesUp? || e.HandlerNotifies?)
    ensures var r := Happens(cfg, o, y, e);
      && r == y.(gen := r.gen)
      && r.gen == Step(cfg, y.gen, if e.WakesUp? then Spurious else Notify(HANDLER))
      && r.gen.log == y.gen.log && r.gen.shared == y.gen.shared && r.gen.tx == y.gen.tx.(asleep := r.gen.tx.asleep)
  {}

  lemma WakeKeeps(cfg: Config, o: Order, y: System, e: Event, objects: nat, packets: nat)
    requires ChangeInv(cfg, o, y, objects, packets)
    requires e.WakesUp? || e.HandlerNotifies?
    ensures ChangeInv(cfg, o, Happens(cfg, o, y, e), objects, packets)
  {
    WakeIs(cfg, o, y, e);
    SyncGridStep(cfg, y.gen, if e.WakesUp? then Spurious else Notify(HANDLER));
  }

  /** The program points that neither begin an object nor send a packet. */
  lemma SenderKeepsModeQuiet(cfg: Config, o: Order, y: System, now: Timespec, objects: nat, packets: nat)
    requires Safe(cfg, y.gen) && cfg.synchronous && !y.gen.tx.point.InnerModeCheck?
    requires ModeOk(o, y, objects, packets) && !After(y.clock, now)
    requires !(y.gen.tx.point.Prepare? || y.gen.tx.point.Send? || y.gen.tx.point.AfterSend?)
    ensures ModeOk(o, Happens(cfg, o, y, SenderRuns(now)), objects, packets)
  {
    QuietSame(cfg, y.gen, now);
  }

  lemma SenderKeepsMode(cfg: Config, o: Order, y: System, now: Timespec, objects: nat, packets: nat)
    requires Safe(cfg, y.gen) && cfg.synchronous && !y.gen.tx.point.InnerModeCheck?
    requires objects <= |y.gen.log.begun| && packets <= |y.gen.log.routes|
    requires ModeOk(o, y, objects, packets) && !After(y.clock, now)
    ensures ModeOk(o, Happens(cfg, o, y, SenderRuns(now)), objects, packets)
  {
    if !(y.gen.tx.point.Prepare? || y.gen.tx.point.Send? || y.gen.tx.point.AfterSend?) {
      SenderKeepsModeQuiet(cfg, o, y, now, objects, packets);
    }
  }

  lemma ObjectsAppend(cfg: Config, o: Order, begun: seq<Object>, b: Object, objects: nat)
    requires ObjectsOk(cfg, o, begun, objects) && objects <= |begun|
    requires var n := |begun|;
      && (b.mode == o.mode && (n == objects || begun[n - 1].mode != o.mode) ==> b.base == o.restart && b.elapsed == 0)
      && (n > objects && begun[n - 1].mode == o.mode ==> b.mode == o.mode && Continues(cfg, begun[n - 1], b))
    ensures ObjectsOk(cfg, o, begun + [b], objects)
  {
    forall k | objects <= k < |begun + [b]| ensures ObjectOnOrder(cfg, o, begun + [b], objects, k) {
      if k < |begun| {
        assert ObjectOnOrder(cfg, o, begun, objects, k);
      }
    }
  }

  lemma SenderKeepsObjects(cfg: Config, o: Order, s: State, now: Timespec, objects: nat)
    requires SyncGridInv(cfg, s)
    requires ObjectsOk(cfg, o, s.log.begun, objects) && objects <= |s.log.begun| && BetweenOk(o, s, objects)
    ensures var r := SenderStep(cfg, s, now);
      ObjectsOk(cfg, o, r.log.begun, objects) && objects <= |r.log.begun|
  {
    if !s.tx.point.Prepare? {
      ObjectGridMove(cfg, s, now);
    } else if !s.tx.asleep {
      var b := Last(BeginObject(cfg, s).log.begun);
      var n := |s.log.begun|;
      if n > objects && s.log.begun[n - 1].mode == o.mode {
        assert PlaceOk(cfg, s.log.begun[n - 1], Prepare, s.tx.inUse, s.tx.local, s.log.base, s.log.elapsed);
      }
      ObjectsAppend(cfg, o, s.log.begun, b, objects);
    }
  }

  lemma SenderKeepsBetween(cfg: Config, o: Order, y: System, now: Timespec, objects: nat, packets: nat)
    requires SyncGridInv(cfg, y.gen) && ModeOk(o, y, objects, packets) && BetweenOk(o, y.gen, objects)
    requires objects <= |y.gen.log.begun| && !After(y.clock, now)
    ensures BetweenOk(o, Happens(cfg, o, y, SenderRuns(now)).gen, objects)
  {
    if !(y.gen.tx.point.Prepare? || y.gen.tx.point.Send? || y.gen.tx.point.AfterSend?) {
      SenderKeepsBetweenQuiet(cfg, o, y, now, objects, packets);
    }
  }

  lemma SenderKeepsBetweenQuiet(cfg: Config, o: Order, y: System, now: Timespec, objects: nat, packets: nat)
    requires Safe(cfg, y.gen) && cfg.synchronous && !y.gen.tx.point.InnerModeCheck?
    requires ModeOk(o, y, objects, packets) && BetweenOk(o, y.gen, objects)
    requires y.gen.tx.point != Prepare && y.gen.tx.point != Send && y.gen.tx.point != AfterSend
    ensures BetweenOk(o, SenderStep(cfg, y.gen, now), objects)
  {
    QuietSame(cfg, y.gen, now);
  }

  lemma SenderKeepsPackets(cfg: Config, o: Order, y: System, now: Timespec, objects: nat, packets: nat)
    requires SyncGridInv(cfg, y.gen) && ModeOk(o, y, objects, packets) && PacketsOk(o, y, objects, packets)
    requires BetweenOk(o, y.gen, objects)
    requires packets <= |y.gen.log.sent| && !After(y.clock, now)
    ensures var r := Happens(cfg, o, y, SenderRuns(now));
      PacketsOk(o, r, objects, packets) && packets <= |r.gen.log.sent|
  {
    var s := y.gen;
    if !s.tx.asleep {
      if s.tx.point.Send? {
        SendKeepsPackets(cfg, o, y, now, objects, packets);
      } else {
        NoSendKeepsPackets(cfg, o, y, now, objects, packets);
      }
    }
  }

  lemma NoSendKeepsPackets(cfg: Config, o: Order, y: System, now: Timespec, objects: nat, packets: nat)
    requires Safe(cfg, y.gen) && !After(y.clock, now) && !y.gen.tx.point.Send?
    requires PacketsOk(o, y, objects, packets) && packets <= |y.gen.log.sent|
    ensures var r := Happens(cfg, o, y, SenderRuns(now));
      PacketsOk(o, r, objects, packets) && packets <= |r.gen.log.sent|
  {
    if !(y.gen.tx.point.Prepare? || y.gen.tx.point.AfterSend?) {
      QuietSame(cfg, y.gen, now);
    }
  }

  lemma SendKeepsPackets(cfg: Config, o: Order, y: System, now: Timespec, objects: nat, packets: nat)
    requires SyncGridInv(cfg, y.gen) && ModeOk(o, y, objects, packets) && PacketsOk(o, y, objects, packets)
    requires BetweenOk(o, y.gen, objects)
    requires packets <= |y.gen.log.sent| && !After(y.clock, now) && y.gen.tx.point.Send?
    ensures PacketsOk(o, y.(gen := Transmit(y.gen, now), clock := now), objects, packets)
  {
    var s := y.gen;
    var n := |s.log.begun|;
    assert s.tx.number == n && s.log.begun[n - 1] == Last(s.log.begun);
    if s.tx.inUse == o.mode {
      assert s.tx.local == s.log.begun[n - 1].slot;
      assert After(now, o.restart) && !After(s.tx.local, now);
    }
  }

  lemma SenderKeeps(cfg: Config, o: Order, y: System, now: Timespec, objects: nat, packets: nat)
    requires ChangeInv(cfg, o, y, objects, packets)
    ensures ChangeInv(cfg, o, Happens(cfg, o, y, SenderRuns(now)), objects, packets)
  {
    if !After(y.clock, now) {
      SyncGridStep(cfg, y.gen, Run(now));
      SenderKeepsMode(cfg, o, y, now, objects, packets);
      SenderKeepsObjects(cfg, o, y.gen, now, objects);
      SenderKeepsBetween(cfg, o, y, now, objects, packets);
      SenderKeepsPackets(cfg, o, y, now, objects, packets);
    }
  }

  lemma {:induction false} ChangeRuns(cfg: Config, o: Order, y: System, es: seq<Event>, objects: nat, packets: nat)
    requires ChangeInv(cfg, o, y, objects, packets)
    ensures ChangeInv(cfg, o, AllHappen(cfg, o, y, es), objects, packets)
    decreases |es|
  {
    if es != [] {
      match es[0] {
        case SenderRuns(now) => SenderKeeps(cfg, o, y, now, objects, packets);
        case HandlerPolls(now) => PollKeeps(cfg, o, y, now, objects, packets);
        case HandlerWrites => WriteKeeps(cfg, o, y, objects, packets);
        case _ => WakeKeeps(cfg, o, y, es[0], objects, packets);
      }
      ChangeRuns(cfg, o, Happens(cfg, o, y, es[0]), es[1..], objects, packets);
    }
  }

  // ---------------------------------------------------------------- the end-to-end result

  /** Index of the first object of the mode at or after `from`. */
  function FirstOf(begun: seq<Object>, from: nat, mode: uint32): (i: nat)
    requires from <= |begun|
    ensures from <= i <= |begun|
    ensures i < |begun| ==> begun[i].mode == mode
    ensures forall k :: from <= k < i ==> begun[k].mode != mode
    decreases |begun| - from
  {
    if from == |begun| || begun[from].mode == mode then from else FirstOf(begun, from + 1, mode)
  }

  /** From its first object on the new mode is kept, and object `k` of it lies exactly `k`
      deadlines after the restart timestamp. */
  lemma {:induction false} NewModeSlots(cfg: Config, o: Order, begun: seq<Object>, objects: nat, j: nat)
    requires ObjectsOk(cfg, o, begun, objects) && objects <= j < |begun|
    requires FirstOf(begun, objects, o.mode) <= j
    ensures var f := FirstOf(begun, objects, o.mode);
      && begun[j].mode == o.mode
      && begun[j].base == o.restart
      && begun[j].elapsed == (j - f) * DeadlineOf(cfg, o.mode)
    decreases j
  {
    var f := FirstOf(begun, objects, o.mode);
    assert ObjectOnOrder(cfg, o, begun, objects, j);
    if j > f {
      NewModeSlots(cfg, o, begun, objects, j - 1);
      assert (j - f) * DeadlineOf(cfg, o.mode) == (j - 1 - f) * DeadlineOf(cfg, o.mode) + DeadlineOf(cfg, o.mode);
    }
  }

  /** The handler enters its loop while the sender, in any state it can have reached, neither
      uses nor has been told the ordered mode. */
  ghost predicate Begins(cfg: Config, o: Order, y: System) {
    && cfg.synchronous
    && (exists control, local, acts :: y.gen == Steps(cfg, Start(control, local), acts))
    && y.gen.tx.point != Closed
    && y.gen.shared.mode != o.mode && y.gen.tx.current != o.mode
    && y == Entering(y.gen, y.clock)
  }

  lemma BeginsOk(cfg: Config, o: Order, y: System)
    requires Begins(cfg, o, y)
    ensures ChangeInv(cfg, o, y, |y.gen.log.begun|, |y.gen.log.sent|)
  {
    var control, local, acts :| y.gen == Steps(cfg, Start(control, local), acts);
    SyncStart(cfg, control, local);
    SyncGridRuns(cfg, Start(control, local), acts);
  }

  /** The object a packet of the new mode belongs to, and where its slot lies. */
  lemma ObjectOfPacket(cfg: Config, o: Order, r: System, objects: nat, packets: nat, i: nat)
    requires ChangeInv(cfg, o, r, objects, packets)
    requires packets <= i < |r.gen.log.sent| && r.gen.log.routes[i] == o.mode
    ensures var log := r.gen.log;
      var f := FirstOf(log.begun, objects, o.mode);
      && f < log.sent[i].number <= |log.begun|
      && var b := log.begun[log.sent[i].number - 1];
      && o.mode in cfg.services
      && b.mode == o.mode && b.number == log.sent[i].number
      && b.base == o.restart
      && b.elapsed == (b.number - 1 - f) * cfg.services[o.mode].deadline
      && OnGrid(b.slot, b.base, b.elapsed)
  {
    var log := r.gen.log;
    StreamInOrder(log.begun, log.counts);
    assert InOrder(log.begun, log.counts, log.sent, i);
    var j := log.sent[i].number - 1;
    assert log.begun[j].mode == log.sent[i].mode == o.mode && log.begun[j].number == j + 1;
    NewModeSlots(cfg, o, log.begun, objects, j);
  }

  /** Packet `i` was sent after the restart timestamp and not before the slot of its object,
      and that slot lies as many deadlines behind the restart timestamp as objects of the mode
      went before, to the nanosecond; no object of another mode follows. */
  predicate PacketOnTime(cfg: Config, o: Order, log: Log, objects: nat, i: nat) {
    && objects <= |log.begun|
    && i < |log.sent| == |log.stamps|
    && var f := FirstOf(log.begun, objects, o.mode);
    && f < log.sent[i].number <= |log.begun|
    && var b := log.begun[log.sent[i].number - 1];
    && o.mode in cfg.services
    && b.mode == o.mode
    && Nanos(b.slot) == Nanos(o.restart)
         + (log.sent[i].number - 1 - f) * cfg.services[o.mode].deadline * NANOS_PER_MILLI
    && After(log.stamps[i], o.restart)
    && !After(b.slot, log.stamps[i])
    && (forall j :: f <= j < |log.begun| ==> log.begun[j].mode == o.mode)
  }

  lemma ChangeKeepsTime(cfg: Config, o: Order, r: System, objects: nat, packets: nat, i: nat)
    requires ChangeInv(cfg, o, r, objects, packets)
    requires packets <= i < |r.gen.log.sent| && r.gen.log.routes[i] == o.mode
    ensures PacketOnTime(cfg, o, r.gen.log, objects, i)
  {
    ObjectOfPacket(cfg, o, r, objects, packets, i);
    var begun := r.gen.log.begun;
    forall j | FirstOf(begun, objects, o.mode) <= j < |begun| ensures begun[j].mode == o.mode {
      NewModeSlots(cfg, o, begun, objects, j);
    }
  }

  /** In every interleaving, every packet the sender sends with the settings of the ordered
      mode carries a send time strictly after the restart timestamp and not before the slot of
      its object, and the slot of the mode's object number `k` is exactly the restart timestamp
      plus `k` deadlines, in nanoseconds. From its first object on, the mode is kept. */
  lemma TimedModeChange(cfg: Config, o: Order, y: System, es: seq<Event>, i: nat)
    requires Safe(cfg, y.gen) && Begins(cfg, o, y)
    requires var log := AllHappen(cfg, o, y, es).gen.log;
      |y.gen.log.sent| <= i < |log.routes| && log.routes[i] == o.mode
    ensures PacketOnTime(cfg, o, AllHappen(cfg, o, y, es).gen.log, |y.gen.log.begun|, i)
  {
    BeginsOk(cfg, o, y);
    ChangeRuns(cfg, o, y, es, |y.gen.log.begun|, |y.gen.log.sent|);
    ChangeKeepsTime(cfg, o, AllHappen(cfg, o, y, es), |y.gen.log.begun|, |y.gen.log.sent|, i);
  }

  // ---------------------------------------------------------------- one order after another

  /** Whatever happens to the generator before an order, the order, and the handler's run. */
  datatype Episode = Episode(before: seq<Action>, order: Order, events: seq<Event>)

  /** The handler enters its loop for the order of an episode. */
  function Entered(cfg: Config, s: State, clock: Timespec, ep: Episode): (y: System)
    requires Safe(cfg, s)
    ensures Safe(cfg, y.gen)
  {
    Entering(Steps(cfg, s, ep.before), clock)
  }

  /** The generator and the last clock reading after a list of episodes. */
  function Concluded(cfg: Config, s: State, clock: Timespec, eps: seq<Episode>): (r: (State, Timespec))
    requires Safe(cfg, s)
    ensures Safe(cfg, r.0)
  {
    if eps == [] then (s, clock)
    else
      var last := |eps| - 1;
      var r := Concluded(cfg, s, clock, eps[..last]);
      var y := AllHappen(cfg, eps[last].order, Entered(cfg, r.0, r.1, eps[last]), eps[last].events);
      (y.gen, y.clock)
  }

  /** A list of episodes is a run of the step system. */
  lemma {:induction false} EpisodesAsSteps(cfg: Config, s: State, clock: Timespec, eps: seq<Episode>)
    returns (acts: seq<Action>)
    requires Safe(cfg, s)
    ensures Concluded(cfg, s, clock, eps).0 == Steps(cfg, s, acts)
  {
    if eps == [] {
      acts := [];
    } else {
      var last := |eps| - 1;
      var r := Concluded(cfg, s, clock, eps[..last]);
      var job, y := JobOf(eps[last].order), Entered(cfg, r.0, r.1, eps[last]);
      var some := EpisodesAsSteps(cfg, s, clock, eps[..last]);
      ObeysAsSteps(cfg, job, y, eps[last].events);
      StepsAppend(cfg, s, some, eps[last].before);
      StepsAppend(cfg, s, some + eps[last].before, ActionsOf(cfg, job, y, eps[last].events));
      acts := some + eps[last].before + ActionsOf(cfg, job, y, eps[last].events);
    }
  }

  /** For any number of orders obeyed one after another, with any actions of the generator and
      other controllers between them: in the episode of every order for a mode not in use, every
      packet of that mode is on its order's time. */
  lemma TimedModeChanges(cfg: Config, control: Control, local: Timespec, clock: Timespec,
                         eps: seq<Episode>, j: nat, i: nat)
    requires cfg.synchronous && j < |eps|
    requires var r := Concluded(cfg, Start(control, local), clock, eps[..j]);
      var y := Entered(cfg, r.0, r.1, eps[j]);
      && y.gen.tx.point != Closed
      && y.gen.shared.mode != eps[j].order.mode && y.gen.tx.current != eps[j].order.mode
      && var log := Concluded(cfg, Start(control, local), clock, eps[..j + 1]).0.log;
      && |y.gen.log.sent| <= i < |log.routes| && log.routes[i] == eps[j].order.mode
    ensures var r := Concluded(cfg, Start(control, local), clock, eps[..j]);
      var y := Entered(cfg, r.0, r.1, eps[j]);
      PacketOnTime(cfg, eps[j].order, Concluded(cfg, Start(control, local), clock, eps[..j + 1]).0.log, |y.gen.log.begun|, i)
  {
    var s := Start(control, local);
    var r := Concluded(cfg, s, clock, eps[..j]);
    var y := Entered(cfg, r.0, r.1, eps[j]);
    var acts := EpisodesAsSteps(cfg, s, clock, eps[..j]);
    StepsAppend(cfg, s, acts, eps[j].before);
    assert eps[..j + 1][..j] == eps[..j];
    assert y.gen == Steps(cfg, Start(control, local), acts + eps[j].before);
    TimedModeChange(cfg, eps[j].order, y, eps[j].events, i);
  }

  // ---------------------------------------------------------------- the change does happen

  ghost predicate Reaches(cfg: Config, o: Order, y: System, r: System)
    requires Safe(cfg, y.gen)
  {
    exists es :: AllHappen(cfg, o, y, es) == r
  }

  lemma {:induction false} HappenAppend(cfg: Config, o: Order, y: System, es: seq<Event>, fs: seq<Event>)
    requires Safe(cfg, y.gen)
    ensures AllHappen(cfg, o, y, es + fs) == AllHappen(cfg, o, AllHappen(cfg, o, y, es), fs)
    decreases |es|
  {
    if es == [] {
      assert es + fs == fs;
    } else {
      assert (es + fs)[1..] == es[1..] + fs;
      HappenAppend(cfg, o, Happens(cfg, o, y, es[0]), es[1..], fs);
    }
  }

  lemma ReachesNext(cfg: Config, o: Order, y: System, r: System, e: Event)
    requires Safe(cfg, y.gen) && Reaches(cfg, o, y, r)
    ensures Safe(cfg, r.gen) && Reaches(cfg, o, y, Happens(cfg, o, r, e))
  {
    var es :| AllHappen(cfg, o, y, es) == r;
    HappenAppend(cfg, o, y, es, [e]);
    OneObeys(cfg, JobOf(o), r, e);
  }

  /** Both targets are set, in order, and have a later reading inside their second. */
  predicate CanFire(o: Order) {
    && o.reconfig.sec != 0 && o.restart.sec != 0 && !After(o.reconfig, o.restart)
    && Normalised(FirstTick(o.reconfig)) && Normalised(FirstTick(o.restart))
  }

  /** The handler fires both targets and makes its calls, the sender staying at its wait. */
  lemma HandlerCompletes(cfg: Config, o: Order, y: System) returns (r: System)
    requires Safe(cfg, y.gen) && CanFire(o) && !After(y.clock, o.reconfig)
    requires y.client == Client(Looping(false), []) && HANDLER !in y.gen.pending
    ensures Safe(cfg, r.gen) && Reaches(cfg, o, y, r)
    ensures r.gen.shared == Apply(Apply(y.gen.shared, FINISH_OBJECT), Begin(o))
    ensures r.gen.tx == y.gen.tx.(asleep := false)
    ensures r.gen.log.(armed := 0) == y.gen.log.(armed := 0)
  {
    assert AllHappen(cfg, o, y, []) == y;
    ReachesNext(cfg, o, y, y, HandlerPolls(FirstTick(o.reconfig)));
    var y1 := Happens(cfg, o, y, HandlerPolls(FirstTick(o.reconfig)));
    FirstCalls(o);
    var y3 := CallMade(cfg, o, y, y1);
    if y3.client.todo == [] {
      ReachesNext(cfg, o, y, y3, HandlerPolls(FirstTick(o.restart)));
      y3 := Happens(cfg, o, y3, HandlerPolls(FirstTick(o.restart)));
    }
    assert y3.client.todo == [Begin(o)];
    r := CallMade(cfg, o, y, y3);
  }

  /** What the loop owes after a reading just beyond each target. */
  lemma FirstCalls(o: Order)
    requires CanFire(o)
    ensures var p := Pass(o.reconfig, o.restart, false, FirstTick(o.reconfig));
      var todo := NoticesOf(p.fired, FINISH_OBJECT, Begin(o));
      || todo == [FINISH_OBJECT, Begin(o)]
      || (todo == [FINISH_OBJECT] && p.next == Looping(true) && !After(FirstTick(o.reconfig), o.restart))
    ensures NoticesOf(Pass(o.reconfig, o.restart, true, FirstTick(o.restart)).fired, FINISH_OBJECT, Begin(o)) == [Begin(o)]
  {
    var tick := FirstTick(o.reconfig);
    CheckMeans(o.reconfig, tick);
    CheckMeans(o.restart, tick);
    CheckMeans(o.restart, FirstTick(o.restart));
    NoticesAppend([Firing(First, tick)], [Firing(Second, tick)], FINISH_OBJECT, Begin(o));
    assert NoticesOf([Firing(First, tick)], FINISH_OBJECT, Begin(o)) == [FINISH_OBJECT];
    assert NoticesOf([Firing(Second, tick)], FINISH_OBJECT, Begin(o)) == [Begin(o)];
    assert NoticesOf([Firing(Second, FirstTick(o.restart))], FINISH_OBJECT, Begin(o)) == [Begin(o)];
  }

  /** The next call owed is written and notified. */
  lemma CallMade(cfg: Config, o: Order, y: System, z: System) returns (r: System)
    requires Safe(cfg, y.gen) && Reaches(cfg, o, y, z) && Safe(cfg, z.gen)
    requires z.client.todo != [] && HANDLER !in z.gen.pending
    ensures Safe(cfg, r.gen) && Reaches(cfg, o, y, r)
    ensures r.client == z.client.(todo := z.client.todo[1..]) && r.clock == z.clock
    ensures r.gen.shared == Apply(z.gen.shared, z.client.todo[0])
    ensures r.gen.pending == z.gen.pending && r.gen.tx == z.gen.tx.(asleep := false)
    ensures r.gen.log.(armed := 0) == z.gen.log.(armed := 0)
  {
    ReachesNext(cfg, o, y, z, HandlerWrites);
    var w := Happens(cfg, o, z, HandlerWrites);
    ReachesNext(cfg, o, y, w, HandlerNotifies);
    r := Happens(cfg, o, w, HandlerNotifies);
  }

  lemma TurnNow(cfg: Config, o: Order, z: System)
    requires Safe(cfg, z.gen)
    ensures Happens(cfg, o, z, SenderRuns(z.clock)) == z.(gen := SenderStep(cfg, z.gen, z.clock))
  {}

  /** `n` turns of the sender at the current reading. */
  lemma {:induction false} SenderTurnsReach(cfg: Config, o: Order, y: System, z: System, n: nat) returns (r: System)
    requires Safe(cfg, y.gen) && Reaches(cfg, o, y, z) && Safe(cfg, z.gen)
    ensures Safe(cfg, r.gen) && Reaches(cfg, o, y, r)
    ensures r == z.(gen := Turns(cfg, z.gen, z.clock, n))
    decreases n
  {
    if n == 0 {
      r := z;
    } else {
      TurnNow(cfg, o, z);
      ReachesNext(cfg, o, y, z, SenderRuns(z.clock));
      r := SenderTurnsReach(cfg, o, y, z.(gen := SenderStep(cfg, z.gen, z.clock)), n - 1);
    }
  }

  lemma FirstPacketOfMode(cfg: Config, s: State, m: Mode, now: Timespec)
    requires Safe(cfg, s) && cfg.synchronous && s.tx.point == OuterWait && !s.tx.asleep
    requires s.shared.control == ThreadTransmission && s.shared.mode == m != s.tx.current
    requires m in cfg.services && PacketCount(cfg.services[m].objectSize) > 0
    ensures Turns(cfg, s, now, 6).log.routes == s.log.routes + [m]
  {
    var s2 := SenderStep(cfg, SenderStep(cfg, s, now), now);
    assert s2.tx.point == Prepare && s2.tx.inUse == m && s2.log.routes == s.log.routes;
    assert Turns(cfg, s, now, 2) == s2;
    var s4 := SenderStep(cfg, SenderStep(cfg, s2, now), now);
    assert s4.tx.point == InnerWait && s4.tx.inUse == m && s4.shared == s2.shared;
    assert Turns(cfg, s2, now, 2) == s4;
    assert Turns(cfg, s4, now, 2) == SenderStep(cfg, SenderStep(cfg, s4, now), now);
    TurnsAdd(cfg, s, now, 2, 4);
    TurnsAdd(cfg, s2, now, 2, 2);
  }

  /** A sender at its wait and an order whose targets can fire: there is a run in which a packet
      of the ordered mode is sent. */
  lemma ModeChangeHappens(cfg: Config, o: Order, y: System)
    requires Safe(cfg, y.gen) && Begins(cfg, o, y) && y.gen.tx.point == OuterWait
    requires CanFire(o) && !After(y.clock, o.reconfig) && HANDLER !in y.gen.pending
    requires o.mode in cfg.services && PacketCount(cfg.services[o.mode].objectSize) > 0
    ensures exists es :: AllHappen(cfg, o, y, es).gen.log.routes == y.gen.log.routes + [o.mode]
  {
    var z := HandlerCompletes(cfg, o, y);
    var r := SenderTurnsReach(cfg, o, y, z, 6);
    FirstPacketOfMode(cfg, z.gen, o.mode, z.clock);
    var es :| AllHappen(cfg, o, y, es) == r;
  }
}
