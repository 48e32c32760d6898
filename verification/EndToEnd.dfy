/** From the datagram of an order to the packets of the mode it orders. */
module EndToEnd {
  import opened ControlInterface
  import opened ControlMessage
  import opened Generator
  import opened HandlerSystem
  import opened ModeChange
  import opened Payload
  import Dispatch

  /** The order a received message gives to the sync-object handler. */
  function OrderIn(received: Message): Order {
    var p := Parse(received.payload, Empty()).1;
    Order(p.reconfig, p.start, received.mode)
  }

  /** The manager's parameters `p` in message `m`, decoded by the endnode into any reused object
      and obeyed by its handler: in every interleaving with the sender the handler's calls are
      those the dispatch loop has on record for the readings it made (all of them, once none is
      owed), and every packet of the ordered mode is on the time the manager wrote. */
  lemma OrderedModeChange(p: Parameters, m: Message, reused: Message, cfg: Config, y: System, es: seq<Event>)
    requires m.kind == Dispatch.SYNC_OBJECT_SW && m.payload == Stream(p)
    requires Safe(cfg, y.gen) && Begins(cfg, OrderIn(Unwire(Wire(m), reused)), y)
    ensures var received := Unwire(Wire(m), reused);
      var o := Order(p.reconfig, p.start, m.mode);
      && OrderIn(received) == o
      && var r := AllHappen(cfg, o, y, es);
      && Calls(r.called + r.client.todo) == Dispatch.React(Dispatch.Endnode, received, r.polled).effects
      && forall i :: |y.gen.log.sent| <= i < |r.gen.log.routes| && r.gen.log.routes[i] == m.mode
           ==> PacketOnTime(cfg, o, r.gen.log, |y.gen.log.begun|, i)
  {
    NestedRoundTrip(p, m, reused, Empty());
    var o := Order(p.reconfig, p.start, m.mode);
    HandlerOnRecord(p, m, reused, cfg, y, es);
    PacketsOnTime(cfg, o, y, es);
  }

  lemma HandlerOnRecord(p: Parameters, m: Message, reused: Message, cfg: Config, y: System, es: seq<Event>)
    requires m.kind == Dispatch.SYNC_OBJECT_SW && m.payload == Stream(p)
    requires Safe(cfg, y.gen) && HandlerFollows(JobOf(Order(p.reconfig, p.start, m.mode)), y)
    ensures var r := AllHappen(cfg, Order(p.reconfig, p.start, m.mode), y, es);
      Calls(r.called + r.client.todo) == Dispatch.React(Dispatch.Endnode, Unwire(Wire(m), reused), r.polled).effects
  {
    var o := Order(p.reconfig, p.start, m.mode);
    HandlerFollowsRuns(cfg, JobOf(o), y, es);
    Dispatch.OrderArrives(p, m, reused, AllHappen(cfg, o, y, es).polled);
  }

  lemma PacketsOnTime(cfg: Config, o: Order, y: System, es: seq<Event>)
    requires Safe(cfg, y.gen) && Begins(cfg, o, y)
    ensures var log := AllHappen(cfg, o, y, es).gen.log;
      forall i :: |y.gen.log.sent| <= i < |log.routes| && log.routes[i] == o.mode
        ==> PacketOnTime(cfg, o, log, |y.gen.log.begun|, i)
  {
    var log := AllHappen(cfg, o, y, es).gen.log;
    forall i | |y.gen.log.sent| <= i < |log.routes| && log.routes[i] == o.mode
      ensures PacketOnTime(cfg, o, log, |y.gen.log.begun|, i)
    {
      TimedModeChange(cfg, o, y, es, i);
    }
  }

  /** The hardware handler of the interleaved system, whose pause `HardwarePause` bounds, makes
      the calls the dispatch loop has on record for its readings. */
  lemma HardwareOnRecord(p: Parameters, mode: Mode, cfg: Config, y: System, es: seq<Event>)
    requires Safe(cfg, y.gen) && y == Entering(y.gen, y.clock)
    ensures var r := AllObey(cfg, HardwareJob(p.stop, p.start), y, es);
      Calls(r.called + r.client.todo)
        == Dispatch.ReactEndnode(Dispatch.SYNC_RECONFIGURE_HW, p, mode, r.polled).effects
  {
    HandlerFollowsRuns(cfg, HardwareJob(p.stop, p.start), y, es);
  }
}
