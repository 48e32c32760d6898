/** The sender thread as the nested loops it is written as: the wait for permission, the mode
    check, the packet loop, and the period wait, inside one outer loop.

    The thread runs against a schedule: the actions of controllers and the spurious wake-ups
    between two of its own turns are taken from it, and the thread stops where it ends. The
    loops together do exactly what the step system of module `Generator` does. */
module SenderThread {
  import opened ControlInterface
  import opened Fragmentation
  import opened Generator
  import opened Time

  lemma {:induction false} StepsExtend(cfg: Config, s: State, acts: seq<Action>, i: nat)
    requires Safe(cfg, s) && i < |acts|
    ensures Steps(cfg, s, acts[..i + 1]) == Step(cfg, Steps(cfg, s, acts[..i]), acts[i])
    decreases i
  {
    var some := acts[..i + 1];
    assert some[0] == acts[0];
    if i == 0 {
      assert some[1..] == [] && acts[..0] == [];
    } else {
      StepsExtend(cfg, Step(cfg, s, acts[0]), acts[1..], i - 1);
      assert some[1..] == acts[1..][..i] && acts[..i][1..] == acts[1..][..i - 1];
      assert acts[..i][0] == acts[0];
    }
  }

  class SenderThread {
    const cfg: Config
    const acts: seq<Action>
    ghost const start: State

    var pos: nat
    var shared: Shared
    var pending: set<nat>
    var tx: Sender
    var log: Log

    function View(): State
      reads this
    {
      State(shared, pending, tx, log)
    }

    /** The thread has followed the schedule up to `pos`. */
    ghost predicate OnRun()
      reads this
    {
      Safe(cfg, start) && pos <= |acts| && Safe(cfg, View()) && View() == Steps(cfg, start, acts[..pos])
    }

    constructor (cfg: Config, s: State, acts: seq<Action>)
      requires Safe(cfg, s)
      ensures OnRun() && View() == s && this.cfg == cfg && this.acts == acts && start == s
    {
      this.cfg, this.acts, this.start := cfg, acts, s;
      pos, shared, pending, tx, log := 0, s.shared, s.pending, s.tx, s.log;
      new;
      assert acts[..0] == [];
    }

    /** Everything the others do before the sender's next turn; `turn` says whether the schedule holds
        one. */
    method Others() returns (turn: bool)
      requires OnRun()
      modifies this
      ensures OnRun() && old(pos) <= pos
      ensures turn <==> pos < |acts|
      ensures turn ==> acts[pos].Run?
      ensures tx.(asleep := false) == old(tx).(asleep := false)
      ensures old(tx).asleep || !tx.asleep
    {
      while pos < |acts| && !acts[pos].Run?
        invariant OnRun() && old(pos) <= pos
        invariant tx.(asleep := false) == old(tx).(asleep := false)
        invariant old(tx).asleep || !tx.asleep
        decreases |acts| - pos
      {
        StepsExtend(cfg, start, acts, pos);
        match acts[pos] {
          case Write(c, n) =>
            if c !in pending {
              shared, pending := Apply(shared, n), pending + {c};
              log := log.(armed := log.armed + Arms(n));
            }
          case Notify(c) =>
            if c in pending {
              pending, tx := pending - {c}, tx.(asleep := false);
            }
          case Spurious => tx := tx.(asleep := false);
        }
        pos := pos + 1;
      }
      turn := pos < |acts|;
    }

    /** The sender's turn at `before` is over. */
    method TurnOver(ghost before: State)
      requires Safe(cfg, start) && Safe(cfg, before) && pos < |acts| && acts[pos].Run?
      requires before == Steps(cfg, start, acts[..pos])
      requires View() == SenderStep(cfg, before, acts[pos].now)
      modifies this`pos
      ensures pos == old(pos) + 1 && OnRun()
    {
      StepsExtend(cfg, start, acts, pos);
      pos := pos + 1;
    }

    /** Both waits on the condition variable. The result of this and the following methods says
        whether the schedule was long enough for them to end. */
    method AwaitPermission(inner: bool) returns (live: bool)
      requires OnRun() && tx.point == (if inner then InnerWait else OuterWait)
      modifies this
      ensures OnRun() && old(pos) <= pos
      ensures if live then tx.point == (if inner then Send else ModeCheck) && old(pos) < pos else pos == |acts|
    {
      var granted := false;
      while !granted
        invariant OnRun() && old(pos) <= pos
        invariant tx.point == if granted then (if inner then Send else ModeCheck) else old(tx).point
        invariant granted ==> old(pos) < pos
        decreases |acts| - pos, !granted
      {
        var turn := Others();
        if !turn {
          return false;
        }
        ghost var before := View();
        if !tx.asleep {
          granted := if inner then InnerGranted(shared.control) else OuterGranted(shared.control);
          tx := if granted then tx.(point := if inner then Send else ModeCheck) else tx.(asleep := true);
        }
        TurnOver(before);
      }
      return true;
    }

    /** The mode check before an object and, in the asynchronous loop, before a packet. */
    method CheckMode(inner: bool) returns (live: bool, known: bool)
      requires OnRun() && tx.point == (if inner then InnerModeCheck else ModeCheck)
      modifies this
      ensures OnRun() && old(pos) <= pos && (!live ==> pos == |acts|)
      ensures live && known ==> tx.point == if inner then InnerWait else Prepare
      ensures live && !known ==> tx.point == if inner then EndObject else Closed
    {
      known := true;
      live := Others();
      if !live {
        return;
      }
      ghost var before := View();
      if tx.current != shared.mode {
        tx := tx.(current := shared.mode);
        known := shared.mode in cfg.services;
        if known {
          tx := tx.(inUse := shared.mode);
          if shared.updatePeriod {
            tx := tx.(local := shared.periodStart);
            log := log.(base := shared.periodStart, elapsed := 0, rebases := log.rebases + 1);
            shared := shared.(updatePeriod := false);
          }
        }
      }
      tx := tx.(point := if known then (if inner then InnerWait else Prepare) else if inner then EndObject else Closed);
      TurnOver(before);
    }

    /** Compute sizes and counters of the next object. */
    method PrepareObject() returns (live: bool)
      requires OnRun() && tx.point == Prepare
      modifies this
      ensures OnRun() && old(pos) <= pos
      ensures if live then tx.point == PacketTest else pos == |acts|
    {
      live := Others();
      if !live {
        return;
      }
      ghost var before := View();
      var settings := cfg.services[tx.inUse];
      var bytes := ObjectBytes(settings.objectSize);
      tx := tx.(point := PacketTest, packet := 0, remaining := bytes, payload := Min(bytes, MAX_PAYLOAD));
      tx := tx.(length := CONSTRUCTED_HEADER + tx.payload);
      if tx.length > tx.room {
        tx := tx.(room := tx.length);
      }
      log := log.(begun := log.begun + [Object(tx.number, tx.inUse, PacketCount(settings.objectSize), bytes, tx.room,
                                               tx.local, log.base, log.elapsed)],
                  counts := log.counts + [0]);
      TurnOver(before);
    }

    /** Send one packet. */
    method SendPacket() returns (live: bool)
      requires OnRun() && tx.point == Send
      modifies this
      ensures OnRun() && old(pos) <= pos
      ensures if live then tx.point == AfterSend else pos == |acts|
    {
      live := Others();
      if !live {
        return;
      }
      ghost var before := View();
      var o := Last(log.begun);
      log := log.(sent := log.sent + [Header(tx.number, tx.packet, o.total, o.mode, tx.payload, tx.length,
                                           tx.room)],
                  routes := log.routes + [tx.inUse],
                  stamps := log.stamps + [acts[pos].now],
                  counts := SetLast(log.counts, Last(log.counts) + 1));
      tx := tx.(point := AfterSend);
      TurnOver(before);
    }

    /** Count the packet, install the size of the next, and look whether the thread is stopped. */
    method NextPacket() returns (live: bool, stopped: bool)
      requires OnRun() && tx.point == AfterSend
      modifies this
      ensures OnRun() && old(pos) <= pos && (!live ==> pos == |acts|)
      ensures live ==> tx.point == if stopped then EndObject else PacketTest
    {
      stopped := false;
      live := Others();
      if !live {
        return;
      }
      ghost var before := View();
      tx := tx.(packet := tx.packet + 1);
      tx := tx.(payload := Min(tx.remaining, MAX_PAYLOAD));
      tx := tx.(remaining := if tx.remaining > tx.payload then tx.remaining - tx.payload else 0);
      stopped := shared.stopThread;
      tx := tx.(point := if stopped then EndObject else PacketTest);
      TurnOver(before);
    }

    /** The test of the packet loop. */
    method MorePackets() returns (live: bool, more: bool)
      requires OnRun() && tx.point == PacketTest
      modifies this
      ensures OnRun() && (!live ==> pos == |acts|) && (live ==> old(pos) < pos)
      ensures live ==> tx.point == if !more then EndObject else if cfg.synchronous then InnerWait else InnerModeCheck
    {
      more := true;
      live := Others();
      if !live {
        return;
      }
      ghost var before := View();
      more := tx.packet < PacketCount(cfg.services[tx.inUse].objectSize);
      tx := tx.(point := if !more then EndObject else if cfg.synchronous then InnerWait else InnerModeCheck);
      TurnOver(before);
    }

    /** The packet loop of one object. */
    method PacketLoop() returns (live: bool)
      requires OnRun() && tx.point == PacketTest
      modifies this
      ensures OnRun() && old(pos) <= pos
      ensures if live then tx.point == EndObject else pos == |acts|
    {
      var known, stopped := true, false;
      while true
        invariant OnRun() && old(pos) <= pos && tx.point == PacketTest
        decreases |acts| - pos
      {
        var more;
        live, more := MorePackets();
        if !live || !more { return; }
        if !cfg.synchronous {
          live, known := CheckMode(true);
          if !live || !known { return; }
        }
        live := AwaitPermission(true);
        if !live { return; }
        live := SendPacket();
        if !live { return; }
        live, stopped := NextPacket();
        if !live || stopped { return; }
      }
    }

    /** Count the object and compute the next point of the period grid, or end the thread. */
    method FinishObject() returns (live: bool, last: bool)
      requires OnRun() && tx.point == EndObject
      modifies this
      ensures OnRun() && old(pos) <= pos && (!live ==> pos == |acts|)
      ensures live ==> tx.point == if last then Closed else PeriodControl
    {
      last := false;
      live := Others();
      if !live {
        return;
      }
      ghost var before := View();
      last := cfg.limit > 0 && tx.number >= cfg.limit;
      if !last {
        tx := tx.(number := tx.number + 1);
        last := shared.stopThread;
        if !last {
          tx := tx.(point := PeriodControl, target := Advance(tx.local, cfg.services[tx.inUse].deadline));
        }
      }
      if last {
        tx := tx.(point := Closed);
      }
      TurnOver(before);
    }

    /** One of the two tests of the period loop: the control field, or the clock. The period
        ends with the test, or the other test comes next. */
    method PeriodTest(clock: bool) returns (live: bool, over: bool)
      requires OnRun() && tx.point == (if clock then PeriodClock else PeriodControl)
      modifies this
      ensures OnRun() && (!live ==> pos == |acts|) && (live ==> old(pos) < pos)
      ensures live ==> tx.point == if over then OuterWait else if clock then PeriodControl else PeriodClock
    {
      over := false;
      live := Others();
      if !live {
        return;
      }
      ghost var before := View();
      over := if clock then !After(tx.target, acts[pos].now) else shared.control == ThreadFinishObject;
      if over {
        log := log.(elapsed := log.elapsed + cfg.services[tx.inUse].deadline);
        tx := tx.(point := OuterWait, local := tx.target);
      } else {
        tx := tx.(point := if clock then PeriodControl else PeriodClock);
      }
      TurnOver(before);
    }

    /** Poll control field and clock until the period is over. */
    method PeriodLoop() returns (live: bool)
      requires OnRun() && tx.point == PeriodControl
      modifies this
      ensures OnRun() && old(pos) <= pos
      ensures if live then tx.point == OuterWait else pos == |acts|
    {
      var over := false;
      while true
        invariant OnRun() && old(pos) <= pos && tx.point == PeriodControl
        decreases |acts| - pos
      {
        live, over := PeriodTest(false);
        if !live || over { return; }
        live, over := PeriodTest(true);
        if !live || over { return; }
      }
    }

    /** What a closed sender's schedule still holds is done by the others alone. */
    method Leave()
      requires OnRun() && tx.point == Closed
      modifies this
      ensures OnRun() && pos == |acts|
    {
      var turn := Others();
      while turn
        invariant OnRun() && tx.point == Closed && turn == (pos < |acts|) && (turn ==> acts[pos].Run?)
        decreases |acts| - pos
      {
        TurnOver(View());
        turn := Others();
      }
    }

    /** Wait, mode check and packets of one object. */
    method OneObject() returns (live: bool)
      requires OnRun() && tx.point == OuterWait
      modifies this
      ensures OnRun() && old(pos) <= pos
      ensures if live then tx.point == EndObject && old(pos) < pos else pos == |acts|
    {
      live := AwaitPermission(false);
      if !live { return; }
      var known;
      live, known := CheckMode(false);
      if !live { return; }
      if !known {
        Leave();
        return false;
      }
      live := PrepareObject();
      if !live { return; }
      live := PacketLoop();
    }

    /** What follows the packets of one object. */
    method BetweenObjects() returns (live: bool)
      requires OnRun() && tx.point == EndObject
      modifies this
      ensures OnRun() && old(pos) <= pos
      ensures if live then tx.point == OuterWait else pos == |acts|
    {
      var last;
      live, last := FinishObject();
      if !live { return; }
      if last {
        Leave();
        return false;
      }
      live := PeriodLoop();
    }

    /** The sender thread from its first wait to the end of the schedule. */
    method SendObjects()
      requires OnRun() && pos == 0 && tx.point == OuterWait
      modifies this
      ensures View() == Steps(cfg, start, acts)
    {
      var live := true;
      while live
        invariant OnRun() && if live then tx.point == OuterWait else pos == |acts|
        decreases |acts| - pos, live
      {
        live := OneObject();
        if live {
          live := BetweenObjects();
        }
      }
      assert acts[..pos] == acts;
    }
  }
}
