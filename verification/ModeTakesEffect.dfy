/** Once the start call of an order is made, the change is bound to happen: every further run
    that gives the sender enough turns, with the current period over, sends a packet of the mode. */
module ModeTakesEffect {
  import opened ControlInterface
  import opened Fragmentation
  import opened Generator
  import opened HandlerSystem
  import opened ModeChange
  import opened PacketStream
  import opened Polling
  import opened Time

  /** The sender comes to a packet of the mode before it finishes another object. */
  predicate Ahead(cfg: Config, o: Order, s: State)
    requires Safe(cfg, s)
  {
    || s.tx.point.OuterWait?
    || s.tx.point.ModeCheck?
    || (s.tx.inUse == o.mode && s.tx.point.Prepare?)
    || (s.tx.inUse == o.mode && (s.tx.point.PacketTest? || s.tx.point.InnerWait? || s.tx.point.Send?)
        && s.tx.packet < PacketCount(Using(cfg, s).objectSize))
  }

  /** The period of the object the sender is at has ended. */
  predicate PeriodOver(cfg: Config, s: State, now: Timespec)
    requires Safe(cfg, s) && SettingsNeeded(s.tx.point)
  {
    && !After(Advance(s.tx.local, Using(cfg, s).deadline), now)
    && (s.tx.point.PeriodControl? || s.tx.point.PeriodClock?
        ==> s.tx.target == Advance(s.tx.local, Using(cfg, s).deadline))
  }

  /** The sender will not reach the object limit before it comes to the mode. */
  predicate NotLast(cfg: Config, o: Order, s: State)
    requires Safe(cfg, s)
  {
    cfg.limit > 0 ==>
      s.tx.number < cfg.limit
      || (s.tx.number == cfg.limit && (Ahead(cfg, o, s) || s.tx.point.PeriodControl? || s.tx.point.PeriodClock?))
  }

  /** The mode is installed, and nothing is left that could keep the sender from it. */
  predicate Settled(cfg: Config, o: Order, y: System) {
    var s := y.gen;
    && Safe(cfg, s) && cfg.synchronous
    && o.mode in cfg.services && PacketCount(cfg.services[o.mode].objectSize) > 0
    && y.client == Client(Returned, []) && HANDLER !in s.pending
    && s.shared.mode == o.mode && s.shared.control == ThreadTransmission && !s.shared.stopThread
    && !s.tx.asleep && !s.tx.point.Closed? && !s.tx.point.InnerModeCheck? && s.tx.current == s.tx.inUse
    && (s.tx.point.InnerWait? || s.tx.point.Send? ==> s.tx.packet < PacketCount(Using(cfg, s).objectSize))
    && NotLast(cfg, o, s)
    && (!Ahead(cfg, o, s) ==> PeriodOver(cfg, s, y.clock))
  }

  /** The turns until the packet is sent, at most. */
  function Rank(cfg: Config, o: Order, s: State): nat
    requires Safe(cfg, s)
  {
    if Ahead(cfg, o, s) then
      if s.tx.point.OuterWait? then 6
      else if s.tx.point.ModeCheck? then 5
      else if s.tx.point.Prepare? then 4
      else if s.tx.point.PacketTest? then 3
      else if s.tx.point.InnerWait? then 2
      else 1
    else if s.tx.point.PeriodClock? then 7
    else if s.tx.point.PeriodControl? then 8
    else if s.tx.point.EndObject? then 9
    else if SettingsNeeded(s.tx.point) then
      var n := PacketCount(Using(cfg, s).objectSize);
      var left := 4 * Monus(n, s.tx.packet);
      if s.tx.point.Prepare? then 11 + 4 * n
      else if s.tx.point.PacketTest? then 10 + left
      else if s.tx.point.InnerWait? then 9 + left
      else if s.tx.point.Send? then 8 + left
      else 11 + 4 * Monus(n, s.tx.packet + 1)
    else 0
  }

  lemma TurnAhead(cfg: Config, o: Order, y: System, now: Timespec)
    requires Settled(cfg, o, y) && !After(y.clock, now) && Ahead(cfg, o, y.gen)
    ensures var r := Happens(cfg, o, y, SenderRuns(now));
      || r.gen.log.routes == y.gen.log.routes + [o.mode]
      || (Settled(cfg, o, r) && Rank(cfg, o, r.gen) < Rank(cfg, o, y.gen))
  {}

  lemma TurnBehind(cfg: Config, o: Order, y: System, now: Timespec)
    requires Settled(cfg, o, y) && !After(y.clock, now) && !Ahead(cfg, o, y.gen)
    ensures var r := Happens(cfg, o, y, SenderRuns(now));
      Settled(cfg, o, r) && Rank(cfg, o, r.gen) < Rank(cfg, o, y.gen)
  {}

  /** One turn of the sender sends the packet or brings it nearer. */
  lemma TurnBrings(cfg: Config, o: Order, y: System, now: Timespec)
    requires Settled(cfg, o, y) && !After(y.clock, now)
    ensures var r := Happens(cfg, o, y, SenderRuns(now));
      || r.gen.log.routes == y.gen.log.routes + [o.mode]
      || (Settled(cfg, o, r) && Rank(cfg, o, r.gen) < Rank(cfg, o, y.gen))
  {
    if Ahead(cfg, o, y.gen) {
      TurnAhead(cfg, o, y, now);
    } else {
      TurnBehind(cfg, o, y, now);
    }
  }

  lemma OthersKeep(cfg: Config, o: Order, y: System, e: Event)
    requires Settled(cfg, o, y) && !e.SenderRuns?
    ensures var r := Happens(cfg, o, y, e);
      Settled(cfg, o, r) && Rank(cfg, o, r.gen) == Rank(cfg, o, y.gen)
  {}

  lemma {:induction false} RoutesGrow(cfg: Config, o: Order, y: System, es: seq<Event>)
    requires Safe(cfg, y.gen)
    ensures y.gen.log.routes <= AllHappen(cfg, o, y, es).gen.log.routes
    decreases |es|
  {
    if es != [] {
      RoutesGrow(cfg, o, Happens(cfg, o, y, es[0]), es[1..]);
    }
  }

  /** How many turns a run gives the sender, a reading before the last one being no turn. */
  function TurnsIn(cfg: Config, o: Order, y: System, es: seq<Event>): nat
    requires Safe(cfg, y.gen)
    decreases |es|
  {
    if es == [] then 0
    else (if es[0].SenderRuns? && !After(y.clock, es[0].now) then 1 else 0)
         + TurnsIn(cfg, o, Happens(cfg, o, y, es[0]), es[1..])
  }

  /** A packet of the mode has been sent between two states. */
  predicate Sent(o: Order, y: System, r: System) {
    exists j :: |y.gen.log.routes| <= j < |r.gen.log.routes| && r.gen.log.routes[j] == o.mode
  }

  lemma {:induction false} SettledSends(cfg: Config, o: Order, y: System, es: seq<Event>)
    requires Settled(cfg, o, y) && TurnsIn(cfg, o, y, es) >= Rank(cfg, o, y.gen)
    ensures Sent(o, y, AllHappen(cfg, o, y, es))
    decreases |es|
  {
    var r := Happens(cfg, o, y, es[0]);
    RoutesGrow(cfg, o, r, es[1..]);
    RoutesGrow(cfg, o, y, [es[0]]);
    var end := AllHappen(cfg, o, r, es[1..]);
    if es[0].SenderRuns? && !After(y.clock, es[0].now) {
      TurnBrings(cfg, o, y, es[0].now);
    } else if !es[0].SenderRuns? {
      OthersKeep(cfg, o, y, es[0]);
    }
    if r.gen.log.routes == y.gen.log.routes + [o.mode] {
      assert end.gen.log.routes[|y.gen.log.routes|] == o.mode;
    } else {
      SettledSends(cfg, o, r, es[1..]);
      var j :| |r.gen.log.routes| <= j < |end.gen.log.routes| && end.gen.log.routes[j] == o.mode;
      assert |y.gen.log.routes| <= j;
    }
  }

  // ---------------------------------------------------------------- every run that made the call

  /** After the start call's notification the sender is awake for good. */
  predicate Awake(o: Order, y: System) {
    y.gen.shared.mode == o.mode && HANDLER !in y.gen.pending ==> !y.gen.tx.asleep
  }

  lemma AwakeStep(cfg: Config, o: Order, y: System, e: Event, objects: nat, packets: nat)
    requires Safe(cfg, y.gen) && ModeOk(o, y, objects, packets) && Awake(o, y)
    ensures Awake(o, Happens(cfg, o, y, e))
  {}

  lemma {:induction false} AwakeRuns(cfg: Config, o: Order, y: System, es: seq<Event>, objects: nat, packets: nat)
    requires ChangeInv(cfg, o, y, objects, packets) && Awake(o, y)
    ensures Awake(o, AllHappen(cfg, o, y, es))
    decreases |es|
  {
    if es != [] {
      AwakeStep(cfg, o, y, es[0], objects, packets);
      ChangeRuns(cfg, o, y, [es[0]], objects, packets);
      OneObeys(cfg, JobOf(o), y, es[0]);
      AwakeRuns(cfg, o, Happens(cfg, o, y, es[0]), es[1..], objects, packets);
    }
  }

  lemma SettledWhenMade(cfg: Config, o: Order, z: System, objects: nat, packets: nat)
    requires ChangeInv(cfg, o, z, objects, packets) && Awake(o, z)
    requires o.mode in cfg.services && PacketCount(cfg.services[o.mode].objectSize) > 0
    requires z.gen.shared.mode == o.mode && HANDLER !in z.gen.pending
    requires !z.gen.shared.stopThread && !z.gen.tx.point.Closed? && NotLast(cfg, o, z.gen)
    requires !Ahead(cfg, o, z.gen) ==> !After(Advance(z.gen.tx.local, Using(cfg, z.gen).deadline), z.clock)
    ensures Settled(cfg, o, z)
  {
    assert InObject(z.gen.tx.point) ==> ObjectOk(cfg, Last(z.gen.log.begun));
  }

  /** In every run in which the handler has made its start call, from any program point of a
      sender that is neither closed nor stopped nor at its last object: once the clock has
      reached the end of the period the sender is in, every continuation that gives it `Rank`
      turns, a number known from the state, sends a packet of the ordered mode. */
  lemma ModeChangeTakesEffect(cfg: Config, o: Order, y: System, es: seq<Event>, fs: seq<Event>)
    requires Safe(cfg, y.gen) && Begins(cfg, o, y)
    requires o.mode in cfg.services && PacketCount(cfg.services[o.mode].objectSize) > 0
    requires var z := AllHappen(cfg, o, y, es);
      && z.gen.shared.mode == o.mode && HANDLER !in z.gen.pending
      && !z.gen.shared.stopThread && !z.gen.tx.point.Closed? && NotLast(cfg, o, z.gen)
      && (!Ahead(cfg, o, z.gen) ==> !After(Advance(z.gen.tx.local, Using(cfg, z.gen).deadline), z.clock))
      && TurnsIn(cfg, o, z, fs) >= Rank(cfg, o, z.gen)
    ensures var z := AllHappen(cfg, o, y, es);
      Sent(o, z, AllHappen(cfg, o, z, fs))
  {
    var z := AllHappen(cfg, o, y, es);
    BeginsOk(cfg, o, y);
    AwakeRuns(cfg, o, y, es, |y.gen.log.begun|, |y.gen.log.sent|);
    ChangeRuns(cfg, o, y, es, |y.gen.log.begun|, |y.gen.log.sent|);
    SettledWhenMade(cfg, o, z, |y.gen.log.begun|, |y.gen.log.sent|);
    SettledSends(cfg, o, z, fs);
  }
}
