/** The resource-management clients of endnode and switch: the receiver thread, the handler of
    every message kind, and the acknowledging dispatch loop.

    Each received message comes with the clock readings its handler makes. A handler whose
    readings do not suffice has not returned, and the client stays in it. */
module Dispatch {
  import opened Bytes
  import opened ControlInterface
  import opened ControlMessage
  import opened Fragmentation
  import opened Payload
  import opened Polling
  import opened SafeQueue
  import opened Time

  // Message kinds the clients answer to.
  const CLIENT_START: uint32 := 2
  const CLIENT_STOP: uint32 := 3
  const CLIENT_RECONFIGURE_HW: uint32 := 5
  const CLIENT_RECONFIGURE_SW: uint32 := 6
  const CLIENT_EXIT: uint32 := 7
  const SYNC_START: uint32 := 8
  const SYNC_STOP: uint32 := 9
  const SYNC_RECONFIGURE_HW: uint32 := 12
  const SYNC_RECONFIGURE_SW: uint32 := 13
  const SYNC_OBJECT_HW: uint32 := 14
  const SYNC_OBJECT_SW: uint32 := 15
  const SYNC_EXIT: uint32 := 16

  datatype Client = Endnode | Switch

  /** All effects of one handler, calls of the generator or runs of a mode script, whether it
      ends the client, and whether it returned. */
  datatype Reaction = Reaction(effects: seq<TraceEvent>, leaves: bool, returned: bool)

  // ---------------------------------------------------------------- reactions

  const NOTHING := Reaction([], false, true)

  /** A handler that waits for one target and then acts once. */
  function After1(target: Timespec, clock: seq<Timespec>, effects: seq<TraceEvent>, leaves: bool): Reaction {
    match OutcomeOf(target, clock)
    case Polling => Reaction([], false, false)
    case GaveUp => NOTHING
    case Fired(_) => Reaction(effects, leaves, true)
  }

  function After2(first: Timespec, second: Timespec, onFirst: Notice, onSecond: Notice, clock: seq<Timespec>): Reaction {
    var r := Passes(first, second, Looping(false), clock);
    Reaction(Calls(NoticesOf(r.fired, onFirst, onSecond)), false, r.next.Returned?)
  }

  function ReactEndnode(kind: uint32, p: Parameters, mode: Mode, clock: seq<Timespec>): Reaction {
    if kind == CLIENT_START then
      if clock == [] then Reaction([], false, false) else Reaction([Called(StartAt(clock[0], mode))], false, true)
    else if kind == CLIENT_STOP then Reaction([Called(SetControl(ThreadStop))], false, true)
    else if kind == CLIENT_RECONFIGURE_SW then Reaction([Called(SetMode(ThreadTransmission, mode))], false, true)
    else if kind == CLIENT_EXIT then Reaction([Called(SetControl(ThreadStop))], true, true)
    else if kind == SYNC_START then After1(p.start, clock, [Called(StartAt(p.start, mode))], false)
    else if kind == SYNC_STOP then After1(p.stop, clock, [Called(SetControl(ThreadStop))], false)
    else if kind == SYNC_EXIT then After1(p.stop, clock, [Called(SetControl(ThreadStop))], true)
    else if kind == SYNC_RECONFIGURE_SW then After1(p.reconfig, clock, [Called(SetMode(ThreadTransmission, mode))], false)
    else if kind == SYNC_RECONFIGURE_HW then
      After2(p.stop, p.start, SetControl(ThreadPaused), SetControl(ThreadTransmission), clock)
    else if kind == SYNC_OBJECT_SW then
      After2(p.reconfig, p.start, FINISH_OBJECT, StartAt(p.start, mode), clock)
    else NOTHING
  }

  /** The scripts a switch has: mode 0, mode 0 to 1 (written `01`), mode 1 to 0 (written `10`). */
  function ScriptFor(mode: Mode): seq<TraceEvent> {
    if mode == 0 || mode == 1 || mode == 10 then [Script(mode)] else []
  }

  function ReactSwitch(kind: uint32, p: Parameters, mode: Mode, clock: seq<Timespec>): Reaction {
    if kind == CLIENT_START || kind == CLIENT_RECONFIGURE_HW then Reaction(ScriptFor(mode), false, true)
    else if kind == CLIENT_EXIT then Reaction([], true, true)
    else if kind == SYNC_START then After1(p.start, clock, ScriptFor(mode), false)
    else if kind == SYNC_RECONFIGURE_HW || kind == SYNC_OBJECT_HW then After1(p.reconfig, clock, ScriptFor(mode), false)
    else if kind == SYNC_EXIT then After1(p.stop, clock, [], true)
    else NOTHING
  }

  /** The reaction of a client to a message, whose parameters it reads from the payload. */
  function React(client: Client, m: Message, clock: seq<Timespec>): Reaction {
    var p := Parse(m.payload, Empty()).1;
    if client == Endnode then ReactEndnode(m.kind, p, m.mode, clock) else ReactSwitch(m.kind, p, m.mode, clock)
  }

  predicate Known(client: Client, kind: uint32) {
    if client == Endnode then
      kind == CLIENT_START || kind == CLIENT_STOP || kind == CLIENT_RECONFIGURE_SW || kind == CLIENT_EXIT
      || (SYNC_START <= kind <= SYNC_EXIT && kind != 10 && kind != 11)
    else
      kind == CLIENT_START || kind == CLIENT_RECONFIGURE_HW || kind == CLIENT_EXIT
      || kind == SYNC_START || kind == SYNC_RECONFIGURE_HW || kind == SYNC_OBJECT_HW || kind == SYNC_EXIT
  }

  /** Every known kind but the plain start is acknowledged on reception. */
  predicate Acknowledged(client: Client, kind: uint32) {
    Known(client, kind) && kind != CLIENT_START
  }

  /** Mode changes are acknowledged again when done. */
  predicate Confirmed(client: Client, kind: uint32) {
    if client == Endnode then kind == CLIENT_RECONFIGURE_SW || SYNC_RECONFIGURE_HW <= kind <= SYNC_OBJECT_SW
    else kind == CLIENT_RECONFIGURE_HW || kind == SYNC_RECONFIGURE_HW || kind == SYNC_OBJECT_HW
  }

  // ---------------------------------------------------------------- the protocol

  /** Where a client stands after a number of messages. */
  datatype Session = Session(events: seq<TraceEvent>, active: bool, stuck: bool)

  predicate Live(s: Session) {
    s.active && !s.stuck
  }

  function ClockFor(clocks: seq<seq<Timespec>>, i: nat): seq<Timespec> {
    if i < |clocks| then clocks[i] else []
  }

  predicate AreReactions(client: Client, ms: seq<Message>, clocks: seq<seq<Timespec>>, rs: seq<Reaction>) {
    |rs| == |ms|
    && forall i {:trigger ClockFor(clocks, i)} :: 0 <= i < |ms| ==> rs[i] == React(client, ms[i], ClockFor(clocks, i))
  }

  /** The reaction to each message of a list. */
  function Reactions(client: Client, ms: seq<Message>, clocks: seq<seq<Timespec>>): (rs: seq<Reaction>)
    ensures AreReactions(client, ms, clocks, rs)
  {
    seq(|ms|, i requires 0 <= i < |ms| => React(client, ms[i], ClockFor(clocks, i)))
  }

  /** Handlers only call the generator and run scripts; the loop around them does the rest. */
  predicate IsEffect(e: TraceEvent) {
    e.Called? || e.Script?
  }

  predicate AllEffects(es: seq<TraceEvent>) {
    forall k :: 0 <= k < |es| ==> IsEffect(es[k])
  }

  predicate Effective(rs: seq<Reaction>) {
    forall i :: 0 <= i < |rs| ==> AllEffects(rs[i].effects)
  }

  lemma {:induction false} CallsAreEffects(ns: seq<Notice>)
    ensures |Calls(ns)| == |ns| && AllEffects(Calls(ns))
    decreases |ns|
  {
    if ns != [] {
      CallsAreEffects(ns[1..]);
    }
  }

  lemma EndnodeEffects(kind: uint32, p: Parameters, mode: Mode, clock: seq<Timespec>)
    ensures AllEffects(ReactEndnode(kind, p, mode, clock).effects)
  {
    CallsAreEffects(NoticesOf(Passes(p.stop, p.start, Looping(false), clock).fired,
                              SetControl(ThreadPaused), SetControl(ThreadTransmission)));
    CallsAreEffects(NoticesOf(Passes(p.reconfig, p.start, Looping(false), clock).fired,
                              FINISH_OBJECT, StartAt(p.start, mode)));
  }

  lemma SwitchEffects(kind: uint32, p: Parameters, mode: Mode, clock: seq<Timespec>)
    ensures AllEffects(ReactSwitch(kind, p, mode, clock).effects)
  {}

  lemma ReactionsEffective(client: Client, ms: seq<Message>, clocks: seq<seq<Timespec>>, rs: seq<Reaction>)
    requires AreReactions(client, ms, clocks, rs)
    ensures Effective(rs)
  {
    forall i | 0 <= i < |rs| ensures AllEffects(rs[i].effects) {
      var p := Parse(ms[i].payload, Empty()).1;
      EndnodeEffects(ms[i].kind, p, ms[i].mode, ClockFor(clocks, i));
      SwitchEffects(ms[i].kind, p, ms[i].mode, ClockFor(clocks, i));
    }
  }

  /** What happens for message `i` of kind `kind` with reaction `r`, once it is taken. */
  function Reply(client: Client, kind: uint32, r: Reaction, i: nat): seq<TraceEvent> {
    if !Known(client, kind) then []
    else
      (if Acknowledged(client, kind) then [Receive(i)] else [])
      + r.effects
      + (if Confirmed(client, kind) && r.returned then [Done(i)] else [])
  }

  function Answer(client: Client, kind: uint32, r: Reaction, i: nat): seq<TraceEvent> {
    [Taken(i)] + Reply(client, kind, r, i)
  }

  function Next(client: Client, s: Session, kind: uint32, r: Reaction, i: nat): Session {
    Session(s.events + Answer(client, kind, r, i),
            !(Known(client, kind) && r.leaves),
            Known(client, kind) && !r.returned)
  }

  /** The first `n` messages, served in order of arrival until the client leaves or is stuck. */
  function Serve(client: Client, ms: seq<Message>, rs: seq<Reaction>, n: nat): Session
    requires n <= |ms| == |rs|
  {
    if n == 0 then Session([], true, false)
    else
      var s := Serve(client, ms, rs, n - 1);
      if Live(s) then Next(client, s, ms[n - 1].kind, rs[n - 1], n - 1) else s
  }

  // ---------------------------------------------------------------- laws of the trace

  /** A RECONFIGURE_DONE at `t` directly follows the effects of its message, nothing else among
      them, and those directly follow the RECEIVE of the same message. */
  predicate DonePaired(rs: seq<Reaction>, events: seq<TraceEvent>, t: nat)
    requires t < |events|
  {
    events[t].Done? ==>
      events[t].index < |rs| &&
      var effects := rs[events[t].index].effects;
      && |effects| < t
      && events[t - |effects|..t] == effects
      && events[t - |effects| - 1] == Receive(events[t].index)
  }

  predicate AllPaired(rs: seq<Reaction>, events: seq<TraceEvent>) {
    forall t :: 0 <= t < |events| ==> DonePaired(rs, events, t)
  }

  predicate NoDone(es: seq<TraceEvent>) {
    forall k :: 0 <= k < |es| ==> !es[k].Done?
  }

  lemma PairedKept(rs: seq<Reaction>, events: seq<TraceEvent>, more: seq<TraceEvent>, t: nat)
    requires t < |events| && DonePaired(rs, events, t)
    ensures DonePaired(rs, events + more, t)
  {
    if events[t].Done? {
      var k := |rs[events[t].index].effects|;
      assert (events + more)[t - k..t] == events[t - k..t];
    }
  }

  lemma PairedNoDone(rs: seq<Reaction>, events: seq<TraceEvent>, more: seq<TraceEvent>)
    requires AllPaired(rs, events) && NoDone(more)
    ensures AllPaired(rs, events + more)
  {
    forall t | 0 <= t < |events + more| ensures DonePaired(rs, events + more, t) {
      if t < |events| {
        PairedKept(rs, events, more, t);
      }
    }
  }

  lemma PairedDone(rs: seq<Reaction>, events: seq<TraceEvent>, i: nat)
    requires AllPaired(rs, events) && i < |rs|
    ensures var all := events + ([Receive(i)] + rs[i].effects);
      AllPaired(rs, all) && NoDone(rs[i].effects) ==> AllPaired(rs, all + [Done(i)])
  {
    var effects := rs[i].effects;
    var all := events + ([Receive(i)] + effects);
    if AllPaired(rs, all) {
      var done := all + [Done(i)];
      forall t | 0 <= t < |done| ensures DonePaired(rs, done, t) {
        if t < |all| {
          PairedKept(rs, all, [Done(i)], t);
        } else {
          assert done[t - |effects|..t] == effects;
        }
      }
    }
  }

  lemma EffectsNoDone(es: seq<TraceEvent>)
    requires AllEffects(es)
    ensures NoDone(es)
  {
    forall k | 0 <= k < |es| ensures !es[k].Done? {
      assert IsEffect(es[k]);
    }
  }

  lemma PairedAppend(rs: seq<Reaction>, events: seq<TraceEvent>, client: Client, kind: uint32, i: nat)
    requires AllPaired(rs, events) && i < |rs| && AllEffects(rs[i].effects)
    ensures AllPaired(rs, events + Answer(client, kind, rs[i], i))
  {
    var r := rs[i];
    EffectsNoDone(r.effects);
    PairedNoDone(rs, events, [Taken(i)]);
    var taken := events + [Taken(i)];
    if Known(client, kind) {
      var received := if Acknowledged(client, kind) then [Receive(i)] else [];
      PairedNoDone(rs, taken, received + r.effects);
      PairedDone(rs, taken, i);
      assert taken + (received + r.effects) == events + ([Taken(i)] + (received + r.effects));
      assert (taken + (received + r.effects)) + [Done(i)] == events + ([Taken(i)] + (received + r.effects + [Done(i)]));
      assert received + r.effects + [] == received + r.effects;
    } else {
      assert [Taken(i)] + [] == [Taken(i)];
    }
  }

  lemma {:induction false} DonesPaired(client: Client, ms: seq<Message>, rs: seq<Reaction>, n: nat)
    requires n <= |ms| == |rs| && Effective(rs)
    ensures AllPaired(rs, Serve(client, ms, rs, n).events)
  {
    if n > 0 {
      DonesPaired(client, ms, rs, n - 1);
      EffectsOf(rs, n - 1);
      PairedNext(client, ms, rs, n - 1);
    }
  }

  lemma EffectsOf(rs: seq<Reaction>, i: nat)
    requires i < |rs| && Effective(rs)
    ensures AllEffects(rs[i].effects)
  {}

  lemma PairedNext(client: Client, ms: seq<Message>, rs: seq<Reaction>, i: nat)
    requires i < |ms| == |rs| && AllEffects(rs[i].effects)
    requires AllPaired(rs, Serve(client, ms, rs, i).events)
    ensures AllPaired(rs, Serve(client, ms, rs, i + 1).events)
  {
    var events := Serve(client, ms, rs, i).events;
    if Live(Serve(client, ms, rs, i)) {
      PairedAppend(rs, events, client, ms[i].kind, i);
      assert Serve(client, ms, rs, i + 1).events == events + Answer(client, ms[i].kind, rs[i], i);
    }
  }

  /** How many messages a trace has taken off the queue. */
  function TakenIn(events: seq<TraceEvent>): nat {
    if events == [] then 0
    else TakenIn(events[..|events| - 1]) + (if events[|events| - 1].Taken? then 1 else 0)
  }

  /** The event at `t` is the taking of the next message, or belongs to the one taken last. */
  predicate InArrivalOrder(events: seq<TraceEvent>, t: nat)
    requires t < |events|
  {
    var n := TakenIn(events[..t]);
    match events[t]
    case Taken(i) => i == n
    case Receive(i) => i + 1 == n
    case Done(i) => i + 1 == n
    case Release => false
    case _ => n > 0
  }

  predicate AllInOrder(events: seq<TraceEvent>) {
    forall t :: 0 <= t < |events| ==> InArrivalOrder(events, t)
  }

  lemma {:induction false} OrderAppend(events: seq<TraceEvent>, more: seq<TraceEvent>)
    requires AllInOrder(events) && TakenIn(events) > 0
    requires forall k :: 0 <= k < |more| ==> IsEffect(more[k]) || more[k] == Receive(TakenIn(events) - 1)
                                             || more[k] == Done(TakenIn(events) - 1)
    ensures AllInOrder(events + more) && TakenIn(events + more) == TakenIn(events)
    decreases |more|
  {
    if more == [] {
      assert events + more == events;
    } else {
      OneMoreInOrder(events, more[0]);
      OrderAppend(events + [more[0]], more[1..]);
      assert events + more == (events + [more[0]]) + more[1..];
    }
  }

  lemma OneMoreInOrder(events: seq<TraceEvent>, e: TraceEvent)
    requires AllInOrder(events)
    requires var n := TakenIn(events);
      e == Taken(n) || (n > 0 && (IsEffect(e) || e == Receive(n - 1) || e == Done(n - 1)))
    ensures AllInOrder(events + [e])
    ensures TakenIn(events + [e]) == TakenIn(events) + (if e.Taken? then 1 else 0)
  {
    var all := events + [e];
    assert all[..|events|] == events;
    forall t | 0 <= t < |all| ensures InArrivalOrder(all, t) {
      assert all[..t] == events[..t];
      if t < |events| {
        assert InArrivalOrder(events, t);
      }
    }
  }

  /** Messages are taken in order of arrival, each once, and every other event belongs to the
      message taken last. */
  lemma {:induction false} ArrivalOrder(client: Client, ms: seq<Message>, rs: seq<Reaction>, n: nat)
    requires n <= |ms| == |rs| && Effective(rs)
    ensures var s := Serve(client, ms, rs, n);
      && AllInOrder(s.events)
      && TakenIn(s.events) <= n
      && (Live(s) ==> TakenIn(s.events) == n)
  {
    if n > 0 {
      ArrivalOrder(client, ms, rs, n - 1);
      var s := Serve(client, ms, rs, n - 1);
      if Live(s) {
        AnswerInOrder(s.events, client, ms[n - 1].kind, rs[n - 1]);
      }
    }
  }

  lemma AnswerInOrder(events: seq<TraceEvent>, client: Client, kind: uint32, r: Reaction)
    requires AllInOrder(events) && AllEffects(r.effects)
    ensures var all := events + Answer(client, kind, r, TakenIn(events));
      AllInOrder(all) && TakenIn(all) == TakenIn(events) + 1
  {
    var n := TakenIn(events);
    var reply := Reply(client, kind, r, n);
    OneMoreInOrder(events, Taken(n));
    OrderAppend(events + [Taken(n)], reply);
    assert events + Answer(client, kind, r, n) == (events + [Taken(n)]) + reply;
  }

  /** The laws of the trace hold of every client, for any messages and any clocks: confirmations
      follow the effects of their message and those its acknowledgement, and messages are taken
      in order of arrival, each once. */
  lemma ClientLaws(client: Client, ms: seq<Message>, clocks: seq<seq<Timespec>>, n: nat)
    requires n <= |ms|
    ensures var rs := Reactions(client, ms, clocks);
      var events := Serve(client, ms, rs, n).events;
      AllPaired(rs, events) && AllInOrder(events)
  {
    var rs := Reactions(client, ms, clocks);
    ReactionsEffective(client, ms, clocks, rs);
    DonesPaired(client, ms, rs, n);
    ArrivalOrder(client, ms, rs, n);
  }

  /** Every message among the first `n` that the client was still live for stands in the trace
      as one block: taken, acknowledged, its reaction's effects, confirmed. */
  lemma {:induction false} EachHandled(client: Client, ms: seq<Message>, rs: seq<Reaction>, i: nat, n: nat)
    requires i < n <= |ms| == |rs| && Live(Serve(client, ms, rs, i))
    ensures var before := Serve(client, ms, rs, i).events;
      before + Answer(client, ms[i].kind, rs[i], i) <= Serve(client, ms, rs, n).events
    decreases n
  {
    if i < n - 1 {
      EachHandled(client, ms, rs, i, n - 1);
    }
  }

  /** Once an exit has taken effect nothing more is handled. */
  lemma {:induction false} NothingAfterExit(client: Client, ms: seq<Message>, rs: seq<Reaction>, n: nat, later: nat)
    requires n <= later <= |ms| == |rs| && !Live(Serve(client, ms, rs, n))
    ensures Serve(client, ms, rs, later) == Serve(client, ms, rs, n)
    decreases later
  {
    if later > n {
      NothingAfterExit(client, ms, rs, n, later - 1);
    }
  }

  // ---------------------------------------------------------------- the receiver thread

  /** The payload array of a message takes what this datagram brings. */
  predicate Receivable(datagram: seq<byte>) {
    |datagram| <= HEADER_LENGTH + PAYLOAD_CAPACITY
  }

  /** `states` are the contents of the one reused message before and after each datagram. */
  predicate Chained(datagrams: seq<seq<byte>>, states: seq<Message>) {
    |states| == |datagrams| + 1
    && forall i :: 0 <= i < |datagrams| ==> DecodesTo(datagrams[i], states, i)
  }

  predicate DecodesTo(datagram: seq<byte>, states: seq<Message>, i: nat)
    requires i + 1 < |states|
  {
    states[i + 1] == Unwire(datagram, states[i])
  }

  /** One turn of the receiver thread. */
  method ReceiveOne(datagram: seq<byte>, message: RMMessage, queue: SafeQueue<Message>) returns (fits: bool)
    requires message.Valid()
    modifies message, message.payload, queue
    ensures message.Valid() && message.payload == old(message.payload)
    ensures fits <==> Receivable(datagram)
    ensures fits ==> DecodesTo(datagram, [old(message.Value()), message.Value()], 0)
    ensures queue.items == old(queue.items) + if fits then [message.Value()] else []
  {
    fits := ReceiveControlMessage(datagram, message);
    if fits {
      queue.Enqueue(message.Value());
    }
  }

  lemma ChainedOne(datagrams: seq<seq<byte>>, states: seq<Message>, datagram: seq<byte>, m: Message)
    requires Chained(datagrams, states)
    requires DecodesTo(datagram, [states[|states| - 1], m], 0)
    ensures Chained(datagrams + [datagram], states + [m])
  {
    var ds, ss := datagrams + [datagram], states + [m];
    forall i | 0 <= i < |ds| ensures DecodesTo(ds[i], ss, i) {
      if i < |datagrams| {
        assert DecodesTo(datagrams[i], states, i);
      }
    }
  }

  /** The first `n` datagrams have been decoded one after the other and their values enqueued. */
  predicate Received(datagrams: seq<seq<byte>>, n: nat, states: seq<Message>, before: seq<Message>, now: seq<Message>) {
    && n <= |datagrams| && (forall k :: 0 <= k < n ==> Receivable(datagrams[k]))
    && Chained(datagrams[..n], states)
    && now == before + states[1..]
  }

  lemma ReceivedNext(datagrams: seq<seq<byte>>, n: nat, states: seq<Message>, before: seq<Message>, now: seq<Message>,
                     m: Message)
    requires Received(datagrams, n, states, before, now) && n < |datagrams| && Receivable(datagrams[n])
    requires DecodesTo(datagrams[n], [states[n], m], 0)
    ensures Received(datagrams, n + 1, states + [m], before, now + [m])
  {
    ChainedOne(datagrams[..n], states, datagrams[n], m);
    assert datagrams[..n + 1] == datagrams[..n] + [datagrams[n]];
    assert (states + [m])[1..] == states[1..] + [m];
  }

  /** The receiver thread over the datagrams of a run: it decodes them into one and the same
      message object and enqueues its value each time, up to the first datagram that overruns
      the payload array. */
  method RmHandler(datagrams: seq<seq<byte>>, message: RMMessage, queue: SafeQueue<Message>)
    returns (handled: nat, ghost states: seq<Message>)
    requires message.Valid()
    modifies message, message.payload, queue
    ensures handled <= |datagrams| && (forall k :: 0 <= k < handled ==> Receivable(datagrams[k]))
    ensures handled < |datagrams| ==> !Receivable(datagrams[handled])
    ensures Chained(datagrams[..handled], states) && states[0] == old(message.Value())
    ensures queue.items == old(queue.items) + states[1..]
  {
    handled := 0;
    states := [message.Value()];
    while handled < |datagrams|
      invariant message.Valid() && message.payload == old(message.payload)
      invariant Received(datagrams, handled, states, old(queue.items), queue.items)
      invariant states[0] == old(message.Value()) && states[handled] == message.Value()
    {
      var fits := ReceiveOne(datagrams[handled], message, queue);
      if !fits {
        return;
      }
      ReceivedNext(datagrams, handled, states, old(queue.items), old(queue.items) + states[1..], message.Value());
      states := states + [message.Value()];
      handled := handled + 1;
    }
  }

  /** Datagrams that carry the given messages. */
  predicate Carry(datagrams: seq<seq<byte>>, ms: seq<Message>) {
    |datagrams| == |ms| && forall i :: 0 <= i < |ms| ==> datagrams[i] == Wire(ms[i])
  }

  /** The queue receives exactly the messages that were sent, in order, whatever the reused
      message held before. */
  lemma Delivered(datagrams: seq<seq<byte>>, ms: seq<Message>, states: seq<Message>)
    requires Carry(datagrams, ms) && Chained(datagrams, states)
    ensures states[1..] == ms
  {
    forall i | 0 <= i < |ms| ensures states[1..][i] == ms[i] {
      assert DecodesTo(datagrams[i], states, i);
      RoundTrip(ms[i], states[i]);
    }
  }

  // ---------------------------------------------------------------- what the handlers do

  /** A handler that waits for one target acts exactly if the target's window is met, and
      returns exactly if the target is not set or passed. */
  lemma OneTargetReacts(target: Timespec, clock: seq<Timespec>, effects: seq<TraceEvent>, leaves: bool)
    ensures After1(target, clock, effects, leaves)
         == if InWindow(target, clock) then Reaction(effects, leaves, true)
            else Reaction([], false, EndOf(target, clock) < |clock|)
  {}

  lemma TwoTargetsReact(first: Timespec, second: Timespec, a: Notice, b: Notice, clock: seq<Timespec>)
    ensures After2(first, second, a, b, clock).effects
         == InWindows(first, second, Called(a), Called(b), clock)
  {
    var fired := Passes(first, second, Looping(false), clock).fired;
    FiringWindows(first, second, clock);
    NoticesOfMarks(fired, a, b);
    assert Calls([a]) == [Called(a)] && Calls([b]) == [Called(b)] by {
      assert [a][1..] == [] && [b][1..] == [];
    }
    assert Calls([a, b]) == [Called(a), Called(b)] by {
      assert [a, b][1..] == [b];
    }
  }

  /** The hardware handler's calls are PAUSED and TRANSMISSION at stop and start, the
      sync-object handler's FINISH_OBJECT and TRANSMISSION at reconfiguration and start: each in
      its window and in this order, decided by targets and clock alone. */
  lemma HandlerCalls(p: Parameters, mode: Mode, clock: seq<Timespec>)
    ensures ReactEndnode(SYNC_RECONFIGURE_HW, p, mode, clock).effects
         == InWindows(p.stop, p.start, Called(SetControl(ThreadPaused)), Called(SetControl(ThreadTransmission)), clock)
    ensures ReactEndnode(SYNC_OBJECT_SW, p, mode, clock).effects
         == InWindows(p.reconfig, p.start, Called(FINISH_OBJECT), Called(StartAt(p.start, mode)), clock)
  {
    TwoTargetsReact(p.stop, p.start, SetControl(ThreadPaused), SetControl(ThreadTransmission), clock);
    TwoTargetsReact(p.reconfig, p.start, FINISH_OBJECT, StartAt(p.start, mode), clock);
  }

  /** The timestamp a message of this kind makes an endnode wait for, if it is a single one. */
  function EndnodeTarget(kind: uint32, p: Parameters): Option<Timespec> {
    if kind == 8 then Some(p.start)
    else if kind == 13 then Some(p.reconfig)
    else if kind == 9 || kind == 16 then Some(p.stop)
    else None
  }

  /** What an endnode does at once or at that timestamp. The plain start reads the clock. */
  function EndnodeCall(kind: uint32, p: Parameters, mode: Mode, clock: seq<Timespec>): seq<TraceEvent> {
    if kind == 2 && clock != [] then [Called(SetPeriod(ThreadTransmission, clock[0], mode, true))]
    else if kind == 8 then [Called(SetPeriod(ThreadTransmission, p.start, mode, true))]
    else if kind == 6 || kind == 13 then [Called(SetMode(ThreadTransmission, mode))]
    else if kind == 3 || kind == 7 || kind == 9 || kind == 16 then [Called(SetControl(ThreadStop))]
    else []
  }

  /** An endnode on every kind of message but the two with two targets (`HandlerCalls`), by the
      kinds' numbers: a start (2, 8), a stop (3, 9), a software change (6, 13) or an exit (7, 16)
      makes its one call, at once or exactly in the window of its own target; only an exit leaves,
      the timed one in its window; a timed kind returns exactly if its target is unset or passed;
      any other kind does nothing. */
  lemma EndnodeReacts(kind: uint32, p: Parameters, mode: Mode, clock: seq<Timespec>)
    ensures var r := ReactEndnode(kind, p, mode, clock);
      var target := EndnodeTarget(kind, p);
      var inTime := target.Some? ==> InWindow(target.value, clock);
      && (kind != 12 && kind != 15 ==> r.effects == if inTime then EndnodeCall(kind, p, mode, clock) else [])
      && (r.leaves <==> kind == 7 || (kind == 16 && InWindow(p.stop, clock)))
      && (kind != 12 && kind != 15 ==>
            (r.returned <==> if target.Some? then EndOf(target.value, clock) < |clock| else kind != 2 || clock != []))
  {
    var target := EndnodeTarget(kind, p);
    if target.Some? {
      OneTargetReacts(target.value, clock, EndnodeCall(kind, p, mode, clock), kind == 16);
    }
  }

  /** A two-target handler of an endnode returns exactly when the wait for the second target is
      over, or when that for the first ends no later and misses its window. */
  lemma HandlerReturns(p: Parameters, mode: Mode, clock: seq<Timespec>)
    ensures ReactEndnode(12, p, mode, clock).returned <==> BothOver(p.stop, p.start, clock)
    ensures ReactEndnode(15, p, mode, clock).returned <==> BothOver(p.reconfig, p.start, clock)
  {
    TwoTargetsReturn(p.stop, p.start, clock);
    TwoTargetsReturn(p.reconfig, p.start, clock);
  }

  /** The timestamp a message of this kind makes a switch wait for. */
  function SwitchTarget(kind: uint32, p: Parameters): Option<Timespec> {
    if kind == SYNC_START then Some(p.start)
    else if kind == SYNC_RECONFIGURE_HW || kind == SYNC_OBJECT_HW then Some(p.reconfig)
    else if kind == SYNC_EXIT then Some(p.stop)
    else None
  }

  /** A switch runs the script of the mode, if that is 0, 1 or 10, for a start or
      reconfiguration: at once, or exactly if the first reading beyond the kind's own target
      still lies in the target's second. Only an exit leaves, a timed one in its window. */
  lemma SwitchReacts(kind: uint32, p: Parameters, mode: Mode, clock: seq<Timespec>)
    ensures var r := ReactSwitch(kind, p, mode, clock);
      var target := SwitchTarget(kind, p);
      var inTime := target.Some? ==> InWindow(target.value, clock);
      var starts := kind == CLIENT_START || kind == CLIENT_RECONFIGURE_HW || kind == SYNC_START
                    || kind == SYNC_RECONFIGURE_HW || kind == SYNC_OBJECT_HW;
      && (r.effects == [Script(mode)] <==> starts && inTime && mode in {0, 1, 10})
      && (r.effects == [Script(mode)] || r.effects == [])
      && (r.leaves <==> (kind == CLIENT_EXIT || kind == SYNC_EXIT) && inTime)
      && (r.returned <==> (target.Some? ==> EndOf(target.value, clock) < |clock|))
  {
    var target := SwitchTarget(kind, p);
    if target.Some? {
      OneTargetReacts(target.value, clock, if kind == SYNC_EXIT then [] else ScriptFor(mode), kind == SYNC_EXIT);
    }
  }

  // ---------------------------------------------------------------- the handlers

  /** A handler that waits for one target and then makes one call. */
  method HandleOne(g: TrafficGenerator, target: Timespec, n: Notice, leaves: bool, clock: seq<Timespec>)
    returns (r: Reaction)
    modifies g, g.trace
    ensures r == After1(target, clock, [Called(n)], leaves)
    ensures g.trace.events == old(g.trace.events) + r.effects
    ensures Effected(old(g.Fields()), g.Fields(), r.effects)
  {
    var outcome, used := PollOne(target, clock);
    match outcome
    case Polling => r := Reaction([], false, false);
    case GaveUp => r := NOTHING;
    case Fired(_) =>
      EffectedOne(g.Fields(), Called(n));
      g.Call(n);
      r := Reaction([Called(n)], leaves, true);
  }

  /** A handler that waits for two targets and makes a call at each. */
  method HandleTwo(g: TrafficGenerator, first: Timespec, second: Timespec, onFirst: Notice, onSecond: Notice,
                   clock: seq<Timespec>) returns (r: Reaction)
    modifies g, g.trace
    ensures r == After2(first, second, onFirst, onSecond, clock)
    ensures g.trace.events == old(g.trace.events) + r.effects
    ensures Effected(old(g.Fields()), g.Fields(), r.effects)
  {
    var before := |g.trace.events|;
    var returned := PollTwo(g, first, second, onFirst, onSecond, clock);
    r := Reaction(g.trace.events[before..], false, returned);
    NoticesInCalls(NoticesOf(Passes(first, second, Looping(false), clock).fired, onFirst, onSecond));
  }

  method HandleAtOnce(g: TrafficGenerator, n: Notice, leaves: bool) returns (r: Reaction)
    modifies g, g.trace
    ensures r == Reaction([Called(n)], leaves, true)
    ensures g.trace.events == old(g.trace.events) + r.effects
    ensures Effected(old(g.Fields()), g.Fields(), r.effects)
  {
    EffectedOne(g.Fields(), Called(n));
    g.Call(n);
    r := Reaction([Called(n)], leaves, true);
  }

  /** The endnode's switch over message kinds. */
  method HandleEndnode(g: TrafficGenerator, kind: uint32, p: Parameters, mode: Mode, clock: seq<Timespec>)
    returns (r: Reaction)
    modifies g, g.trace
    ensures r == ReactEndnode(kind, p, mode, clock)
    ensures g.trace.events == old(g.trace.events) + r.effects
    ensures Effected(old(g.Fields()), g.Fields(), r.effects)
  {
    if kind == CLIENT_START {
      if clock == [] {
        r := Reaction([], false, false);
      } else {
        r := HandleAtOnce(g, StartAt(clock[0], mode), false);
      }
    } else if kind == CLIENT_STOP {
      r := HandleAtOnce(g, SetControl(ThreadStop), false);
    } else if kind == CLIENT_RECONFIGURE_SW {
      r := HandleAtOnce(g, SetMode(ThreadTransmission, mode), false);
    } else if kind == CLIENT_EXIT {
      r := HandleAtOnce(g, SetControl(ThreadStop), true);
    } else if kind == SYNC_START {
      r := HandleOne(g, p.start, StartAt(p.start, mode), false, clock);
    } else if kind == SYNC_STOP {
      r := HandleOne(g, p.stop, SetControl(ThreadStop), false, clock);
    } else if kind == SYNC_EXIT {
      r := HandleOne(g, p.stop, SetControl(ThreadStop), true, clock);
    } else if kind == SYNC_RECONFIGURE_SW {
      r := HandleOne(g, p.reconfig, SetMode(ThreadTransmission, mode), false, clock);
    } else if kind == SYNC_RECONFIGURE_HW {
      r := HandleTwo(g, p.stop, p.start, SetControl(ThreadPaused), SetControl(ThreadTransmission), clock);
    } else if kind == SYNC_OBJECT_SW {
      r := HandleTwo(g, p.reconfig, p.start, FINISH_OBJECT, StartAt(p.start, mode), clock);
    } else {
      r := NOTHING;
    }
  }

  /** Run the script of a mode, if there is one. */
  method RunScript(trace: Trace, mode: Mode)
    modifies trace
    ensures trace.events == old(trace.events) + ScriptFor(mode)
  {
    if mode == 0 || mode == 1 || mode == 10 {
      trace.Note(Script(mode));
    }
  }

  /** A switch handler that waits for one target and then runs a script or leaves. */
  method HandleScript(trace: Trace, target: Timespec, mode: Mode, leaves: bool, clock: seq<Timespec>)
    returns (r: Reaction)
    modifies trace
    ensures r == After1(target, clock, if leaves then [] else ScriptFor(mode), leaves)
    ensures trace.events == old(trace.events) + r.effects
  {
    var outcome, used := PollOne(target, clock);
    match outcome
    case Polling => r := Reaction([], false, false);
    case GaveUp => r := NOTHING;
    case Fired(_) =>
      var before := |trace.events|;
      if !leaves {
        RunScript(trace, mode);
      }
      r := Reaction(trace.events[before..], leaves, true);
  }

  /** The switch client's switch over message kinds. */
  method HandleSwitch(trace: Trace, kind: uint32, p: Parameters, mode: Mode, clock: seq<Timespec>)
    returns (r: Reaction)
    modifies trace
    ensures r == ReactSwitch(kind, p, mode, clock)
    ensures trace.events == old(trace.events) + r.effects
  {
    if kind == CLIENT_START || kind == CLIENT_RECONFIGURE_HW {
      var before := |trace.events|;
      RunScript(trace, mode);
      r := Reaction(trace.events[before..], false, true);
    } else if kind == CLIENT_EXIT {
      r := Reaction([], true, true);
    } else if kind == SYNC_START {
      r := HandleScript(trace, p.start, mode, false, clock);
    } else if kind == SYNC_RECONFIGURE_HW || kind == SYNC_OBJECT_HW {
      r := HandleScript(trace, p.reconfig, mode, false, clock);
    } else if kind == SYNC_EXIT {
      r := HandleScript(trace, p.stop, mode, true, clock);
    } else {
      r := NOTHING;
    }
  }

  // ---------------------------------------------------------------- the dispatch loop

  /** The handler of a message. Only the endnode has a generator; the switch uses no more of
      `g` than the trace. */
  method Handle(client: Client, g: TrafficGenerator, m: Message, clock: seq<Timespec>) returns (r: Reaction)
    requires |m.payload| <= PAYLOAD_CAPACITY
    modifies g, g.trace
    ensures r == React(client, m, clock)
    ensures g.trace.events == old(g.trace.events) + r.effects
    ensures client == Switch ==> g.Fields() == old(g.Fields())
    ensures Effected(old(g.Fields()), g.Fields(), r.effects)
  {
    var p := ReadOrder(m);
    if client == Endnode {
      r := HandleEndnode(g, m.kind, p, m.mode, clock);
    } else {
      r := HandleSwitch(g.trace, m.kind, p, m.mode, clock);
      SwitchCallsNothing(m.kind, p, m.mode, clock);
    }
  }

  lemma SwitchCallsNothing(kind: uint32, p: Parameters, mode: Mode, clock: seq<Timespec>)
    ensures NoticesIn(ReactSwitch(kind, p, mode, clock).effects) == []
  {
    NoticesInOne(Script(mode));
  }

  method NoteIf(trace: Trace, noted: bool, e: TraceEvent)
    modifies trace
    ensures trace.events == old(trace.events) + (if noted then [e] else [])
  {
    if noted {
      trace.Note(e);
    }
  }

  /** Serve one message: acknowledge, handle, confirm. */
  method ServeOne(client: Client, g: TrafficGenerator, m: Message, clock: seq<Timespec>, i: nat)
    returns (leaves: bool, stuck: bool)
    requires |m.payload| <= PAYLOAD_CAPACITY
    modifies g, g.trace
    ensures var r := React(client, m, clock);
      && g.trace.events == old(g.trace.events) + Reply(client, m.kind, r, i)
      && leaves == (Known(client, m.kind) && r.leaves)
      && stuck == (Known(client, m.kind) && !r.returned)
    ensures client == Switch ==> g.Fields() == old(g.Fields())
    ensures Effected(old(g.Fields()), g.Fields(), Reply(client, m.kind, React(client, m, clock), i))
  {
    leaves, stuck := false, false;
    if Known(client, m.kind) {
      ghost var before := g.trace.events;
      NoteIf(g.trace, Acknowledged(client, m.kind), Receive(i));
      var r := Handle(client, g, m, clock);
      leaves, stuck := r.leaves, !r.returned;
      NoteIf(g.trace, Confirmed(client, m.kind) && r.returned, Done(i));
      Follows(before, if Acknowledged(client, m.kind) then [Receive(i)] else [], r.effects,
              if Confirmed(client, m.kind) && r.returned then [Done(i)] else []);
    }
    ReplyEffects(client, m.kind, React(client, m, clock), i);
  }

  lemma OnlyMiddleCalls(a: seq<TraceEvent>, es: seq<TraceEvent>, b: seq<TraceEvent>)
    requires NoticesIn(a) == [] && NoticesIn(b) == []
    ensures NoticesIn(a + es + b) == NoticesIn(es)
  {
    NoticesInAppend(a, es);
    NoticesInAppend(a + es, b);
    assert [] + NoticesIn(es) + [] == NoticesIn(es);
  }

  lemma SingleCalls(given: bool, e: TraceEvent)
    requires !e.Called?
    ensures NoticesIn(if given then [e] else []) == []
  {
    NoticesInOne(e);
  }

  /** The calls of a reply are those of its effects. */
  lemma ReplyEffects(client: Client, kind: uint32, r: Reaction, i: nat)
    ensures NoticesIn(Reply(client, kind, r, i)) == if Known(client, kind) then NoticesIn(r.effects) else []
  {
    SingleCalls(Acknowledged(client, kind), Receive(i));
    SingleCalls(Confirmed(client, kind) && r.returned, Done(i));
    OnlyMiddleCalls(if Acknowledged(client, kind) then [Receive(i)] else [], r.effects,
                    if Confirmed(client, kind) && r.returned then [Done(i)] else []);
  }

  lemma Follows(a: seq<TraceEvent>, b: seq<TraceEvent>, c: seq<TraceEvent>, d: seq<TraceEvent>)
    ensures ((a + b) + c) + d == a + (b + c + d)
  {}

  predicate Deliverable(ms: seq<Message>) {
    forall i :: 0 <= i < |ms| ==> |ms[i].payload| <= PAYLOAD_CAPACITY
  }

  lemma ServedNext(client: Client, ms: seq<Message>, rs: seq<Reaction>, n: nat, before: seq<TraceEvent>)
    requires n < |ms| == |rs| && Live(Serve(client, ms, rs, n))
    ensures var s := Serve(client, ms, rs, n + 1);
      && ((before + Serve(client, ms, rs, n).events) + [Taken(n)]) + Reply(client, ms[n].kind, rs[n], n)
           == before + s.events
      && s.active == !(Known(client, ms[n].kind) && rs[n].leaves)
      && s.stuck == (Known(client, ms[n].kind) && !rs[n].returned)
  {
    Follows(before, Serve(client, ms, rs, n).events, [Taken(n)], Reply(client, ms[n].kind, rs[n], n));
  }

  lemma NextEffected(client: Client, ms: seq<Message>, rs: seq<Reaction>, n: nat, f0: Shared, f1: Shared, f2: Shared)
    requires n < |ms| == |rs| && Live(Serve(client, ms, rs, n))
    requires Effected(f0, f1, Serve(client, ms, rs, n).events)
    requires Effected(f1, f2, Reply(client, ms[n].kind, rs[n], n))
    ensures Effected(f0, f2, Serve(client, ms, rs, n + 1).events)
  {
    EffectedOne(f1, Taken(n));
    EffectedThen(f1, f1, f2, [Taken(n)], Reply(client, ms[n].kind, rs[n], n));
    EffectedThen(f0, f1, f2, Serve(client, ms, rs, n).events, Answer(client, ms[n].kind, rs[n], n));
  }

  /** Trace and shared fields of a client that has served `taken` messages, from `before` and
      `fields` on. */
  predicate Standing(client: Client, ms: seq<Message>, rs: seq<Reaction>, taken: nat, active: bool, stuck: bool,
                     before: seq<TraceEvent>, events: seq<TraceEvent>, fields: Shared, now: Shared) {
    && taken <= |ms| == |rs|
    && var s := Serve(client, ms, rs, taken);
    && s.active == active && s.stuck == stuck
    && events == before + s.events
    && Effected(fields, now, s.events)
  }

  /** Serve message number `taken`. */
  method ServeNext(client: Client, g: TrafficGenerator, m: Message, clock: seq<Timespec>, taken: nat,
                   ghost ms: seq<Message>, ghost rs: seq<Reaction>, ghost before: seq<TraceEvent>,
                   ghost fields: Shared)
    returns (active: bool, stuck: bool)
    requires taken < |ms| == |rs| && m == ms[taken] && |m.payload| <= PAYLOAD_CAPACITY
    requires rs[taken] == React(client, m, clock)
    requires Standing(client, ms, rs, taken, true, false, before, g.trace.events, fields, g.Fields())
    modifies g, g.trace
    ensures Standing(client, ms, rs, taken + 1, active, stuck, before, g.trace.events, fields, g.Fields())
  {
    ServedNext(client, ms, rs, taken, before);
    ghost var middle := g.Fields();
    g.trace.Note(Taken(taken));
    var leaves;
    leaves, stuck := ServeOne(client, g, m, clock, taken);
    active := !leaves;
    NextEffected(client, ms, rs, taken, fields, middle, g.Fields());
  }

  /** How many of the availability checks have come out false: each makes the loop take a message. */
  function FalseIn(checks: seq<bool>): nat {
    if checks == [] then 0
    else FalseIn(checks[..|checks| - 1]) + (if checks[|checks| - 1] then 0 else 1)
  }

  lemma {:induction false} FalseInPrefix(checks: seq<bool>, c: nat)
    requires c <= |checks|
    ensures FalseIn(checks[..c]) <= FalseIn(checks)
    decreases |checks|
  {
    if c < |checks| {
      assert checks[..|checks| - 1][..c] == checks[..c];
      FalseInPrefix(checks[..|checks| - 1], c);
    } else {
      assert checks[..c] == checks;
    }
  }

  /** After `c` checks one message has been taken for each false one, the client live until the last. */
  predicate TakenSoFar(client: Client, ms: seq<Message>, rs: seq<Reaction>, checks: seq<bool>, c: nat, taken: nat) {
    && taken <= |ms| == |rs| && c <= |checks|
    && (forall k :: 0 <= k < taken ==> Live(Serve(client, ms, rs, k)))
    && taken == FalseIn(checks[..c])
  }

  lemma OneCheck(client: Client, ms: seq<Message>, rs: seq<Reaction>, checks: seq<bool>, c: nat, taken: nat)
    requires TakenSoFar(client, ms, rs, checks, c, taken) && c < |checks|
    ensures checks[c] ==> TakenSoFar(client, ms, rs, checks, c + 1, taken)
    ensures !checks[c] && taken < |ms| && Live(Serve(client, ms, rs, taken)) ==>
            TakenSoFar(client, ms, rs, checks, c + 1, taken + 1)
    ensures !checks[c] ==> taken < FalseIn(checks)
  {
    assert checks[..c + 1][..c] == checks[..c];
    FalseInPrefix(checks, c + 1);
  }

  lemma NoneLeft(client: Client, ms: seq<Message>, rs: seq<Reaction>, checks: seq<bool>, c: nat, taken: nat)
    requires TakenSoFar(client, ms, rs, checks, c, taken)
    requires c == |checks| || !Live(Serve(client, ms, rs, taken)) || (taken == |ms| && taken < FalseIn(checks))
    ensures TakenExactly(client, ms, rs, checks, taken)
  {
    FalseInPrefix(checks, c);
    if c == |checks| {
      assert checks[..c] == checks;
    }
  }

  /** The messages a client has taken once it stops: as long as it is live, one for each false
      check while there are any; otherwise all up to the first that ended it. */
  predicate TakenExactly(client: Client, ms: seq<Message>, rs: seq<Reaction>, checks: seq<bool>, taken: nat) {
    && taken <= |ms| == |rs|
    && (forall k :: 0 <= k < taken ==> Live(Serve(client, ms, rs, k)))
    && (Live(Serve(client, ms, rs, taken)) ==> taken == if FalseIn(checks) < |ms| then FalseIn(checks) else |ms|)
    && taken <= FalseIn(checks)
  }

  /** The dispatch loop of a client. `checks` are the results of the availability check, which
      the source never assigns: any sequence of values. The loop stops where the run ends:
      when the client leaves, when a handler does not return, when it blocks on the empty
      queue, or when no further check is made. */
  method ServeQueue(client: Client, g: TrafficGenerator, queue: SafeQueue<Message>, checks: seq<bool>,
                    clocks: seq<seq<Timespec>>, ghost rs: seq<Reaction>)
    returns (taken: nat, active: bool)
    requires Deliverable(queue.items) && AreReactions(client, queue.items, clocks, rs)
    modifies g, g.trace, queue
    ensures taken <= |old(queue.items)| && queue.items == old(queue.items)[taken..]
    ensures TakenExactly(client, old(queue.items), rs, checks, taken)
    ensures var s := Serve(client, old(queue.items), rs, taken);
      g.trace.events == old(g.trace.events) + s.events && active == s.active
    ensures Effected(old(g.Fields()), g.Fields(), Serve(client, old(queue.items), rs, taken).events)
  {
    ghost var ms := queue.items;
    ghost var before, fields := g.trace.events, g.Fields();
    var stuck, c := false, 0;
    taken, active := 0, true;
    while active && !stuck && c < |checks|
      invariant TakenSoFar(client, ms, rs, checks, c, taken) && queue.items == ms[taken..]
      invariant Standing(client, ms, rs, taken, active, stuck, before, g.trace.events, fields, g.Fields())
      decreases |checks| - c
    {
      OneCheck(client, ms, rs, checks, c, taken);
      if checks[c] == false {
        var next, waits := queue.Dequeue([]);
        if next.None? {
          NoneLeft(client, ms, rs, checks, c, taken);
          return;
        }
        assert [next.value] + queue.items == ms[taken..] && queue.items == ms[taken..][1..];
        active, stuck := ServeNext(client, g, next.value, ClockFor(clocks, taken), taken, ms, rs, before, fields);
        taken := taken + 1;
      }
      c := c + 1;
    }
    NoneLeft(client, ms, rs, checks, c, taken);
  }

  /** A client from its first message to its end; only the endnode announces its release. What
      it does before that is `served`, and keeps the laws of the trace. */
  method ClientMain(client: Client, g: TrafficGenerator, queue: SafeQueue<Message>, checks: seq<bool>,
                    clocks: seq<seq<Timespec>>)
    returns (taken: nat, finished: bool, ghost served: seq<TraceEvent>)
    requires Deliverable(queue.items)
    modifies g, g.trace, queue
    ensures taken <= |old(queue.items)| && queue.items == old(queue.items)[taken..]
    ensures var s := Serve(client, old(queue.items), Reactions(client, old(queue.items), clocks), taken);
      served == s.events && finished == !s.active
    ensures g.trace.events == old(g.trace.events) + served + (if finished && client == Endnode then [Release] else [])
    ensures AllPaired(Reactions(client, old(queue.items), clocks), served) && AllInOrder(served)
    ensures TakenExactly(client, old(queue.items), Reactions(client, old(queue.items), clocks), checks, taken)
    ensures Effected(old(g.Fields()), g.Fields(), served)
  {
    ghost var rs := Reactions(client, queue.items, clocks);
    ghost var ms := queue.items;
    var active;
    taken, active := ServeQueue(client, g, queue, checks, clocks, rs);
    served := Serve(client, ms, rs, taken).events;
    ClientLaws(client, ms, clocks, taken);
    finished := !active;
    if finished && client == Endnode {
      g.trace.Note(Release);
    }
  }

  // ---------------------------------------------------------------- from order to effect

  lemma OrderObeyed(p: Parameters, m: Message, clock: seq<Timespec>)
    requires m.kind == SYNC_OBJECT_SW && Parse(m.payload, Empty()).1 == p
    ensures React(Endnode, m, clock).effects
         == Calls(NoticesOf(Passes(p.reconfig, p.start, Looping(false), clock).fired,
                            FINISH_OBJECT, StartAt(p.start, m.mode)))
  {}

  /** A mode-change order written by the manager, received into any reused message, makes the
      endnode's handler wait for exactly the timestamps and install exactly the mode byte that
      were ordered. */
  lemma OrderArrives(p: Parameters, m: Message, reused: Message, clock: seq<Timespec>)
    requires m.kind == SYNC_OBJECT_SW && m.payload == Stream(p)
    ensures var received := Unwire(Wire(m), reused);
      && Known(Endnode, received.kind)
      && React(Endnode, received, clock).effects
           == Calls(NoticesOf(Passes(p.reconfig, p.start, Looping(false), clock).fired,
                              FINISH_OBJECT, StartAt(p.start, m.mode)))
  {
    NestedRoundTrip(p, m, reused, Empty());
    OrderObeyed(p, m, clock);
  }
}
