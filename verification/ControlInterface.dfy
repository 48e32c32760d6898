/** What the controlling threads share with the sender thread, and the notify methods
    that write it. */
module ControlInterface {
  import opened Time

  /** Mode numbers reach the generator through one byte of the control message. */
  type Mode = m: int | 0 <= m < 256

  datatype Control =
    | ThreadStart
    | ThreadStop
    | ThreadPaused
    | ThreadTransmission
    | ThreadFinishObject
    | ThreadReconfigure

  datatype Shared = Shared(
    control: Control,
    mode: Mode,
    periodStart: Timespec,
    updatePeriod: bool,
    stopThread: bool)

  /** One call of the control interface. */
  datatype Notice =
    | SetControl(control: Control)
    | SetMode(control: Control, mode: Mode)
    | SetPeriod(control: Control, start: Timespec, mode: Mode, updatePeriod: bool)
    | Halt

  function Apply(sh: Shared, n: Notice): Shared {
    match n
    case SetControl(c) => sh.(control := c)
    case SetMode(c, m) => sh.(control := c, mode := m)
    case SetPeriod(c, t, m, u) => sh.(control := c, mode := m, periodStart := t, updatePeriod := u)
    case Halt => sh.(control := ThreadStop, stopThread := true)
  }

  /** The control value a call leaves behind. */
  function Sets(n: Notice): Control {
    if n.Halt? then ThreadStop else n.control
  }

  function ApplyAll(sh: Shared, ns: seq<Notice>): Shared
    decreases |ns|
  {
    if ns == [] then sh else ApplyAll(Apply(sh, ns[0]), ns[1..])
  }

  lemma {:induction false} ApplyAllAppend(sh: Shared, ns: seq<Notice>, ms: seq<Notice>)
    ensures ApplyAll(sh, ns + ms) == ApplyAll(ApplyAll(sh, ns), ms)
    decreases |ns|
  {
    if ns == [] {
      assert ns + ms == ms;
    } else {
      assert (ns + ms)[1..] == ns[1..] + ms;
      ApplyAllAppend(Apply(sh, ns[0]), ns[1..], ms);
    }
  }

  const FINISH_OBJECT := SetControl(ThreadFinishObject)

  /** The call that starts mode `mode` with its period grid on `t`. */
  function StartAt(t: Timespec, mode: Mode): Notice {
    SetPeriod(ThreadTransmission, t, mode, true)
  }

  /** What a client does, to the generator and to the outside: message number `index` taken off
      the queue, its acknowledgements, calls of the generator, runs of a mode script. */
  datatype TraceEvent =
    | Taken(index: nat)
    | Receive(index: nat)
    | Called(notice: Notice)
    | Script(mode: Mode)
    | Done(index: nat)
    | Release

  /** The events of a client in the order in which they happen. */
  class Trace {
    var events: seq<TraceEvent>

    constructor ()
      ensures events == []
    {
      events := [];
    }

    method Note(e: TraceEvent)
      modifies this
      ensures events == old(events) + [e]
    {
      events := events + [e];
    }
  }

  function Calls(ns: seq<Notice>): seq<TraceEvent> {
    if ns == [] then [] else [Called(ns[0])] + Calls(ns[1..])
  }

  /** The calls of the generator among the events of a trace. */
  function NoticesIn(events: seq<TraceEvent>): seq<Notice> {
    if events == [] then []
    else (if events[0].Called? then [events[0].notice] else []) + NoticesIn(events[1..])
  }

  lemma {:induction false} NoticesInAppend(xs: seq<TraceEvent>, ys: seq<TraceEvent>)
    ensures NoticesIn(xs + ys) == NoticesIn(xs) + NoticesIn(ys)
    decreases |xs|
  {
    if xs == [] {
      assert xs + ys == ys;
    } else {
      assert (xs + ys)[0] == xs[0] && (xs + ys)[1..] == xs[1..] + ys;
      NoticesInAppend(xs[1..], ys);
    }
  }

  lemma {:induction false} NoticesInCalls(ns: seq<Notice>)
    ensures NoticesIn(Calls(ns)) == ns
    decreases |ns|
  {
    if ns != [] {
      assert Calls(ns)[1..] == Calls(ns[1..]);
      NoticesInCalls(ns[1..]);
    }
  }

  lemma NoticesInOne(e: TraceEvent)
    ensures NoticesIn([e]) == if e.Called? then [e.notice] else []
  {
    assert [e][1..] == [];
  }

  /** The calls among the events have had their effect on the shared fields, and nothing else has. */
  predicate Effected(before: Shared, after: Shared, events: seq<TraceEvent>) {
    after == ApplyAll(before, NoticesIn(events))
  }

  lemma EffectedThen(f0: Shared, f1: Shared, f2: Shared, xs: seq<TraceEvent>, ys: seq<TraceEvent>)
    requires Effected(f0, f1, xs) && Effected(f1, f2, ys)
    ensures Effected(f0, f2, xs + ys)
  {
    NoticesInAppend(xs, ys);
    ApplyAllAppend(f0, NoticesIn(xs), NoticesIn(ys));
  }

  lemma EffectedOne(before: Shared, e: TraceEvent)
    ensures Effected(before, if e.Called? then Apply(before, e.notice) else before, [e])
  {
    NoticesInOne(e);
    if e.Called? {
      assert [e.notice][1..] == [];
    }
  }

  lemma {:induction false} CallsAppend(ns: seq<Notice>, ms: seq<Notice>)
    ensures Calls(ns + ms) == Calls(ns) + Calls(ms)
    decreases |ns|
  {
    if ns == [] {
      assert ns + ms == ms;
    } else {
      assert (ns + ms)[0] == ns[0] && (ns + ms)[1..] == ns[1..] + ms;
      CallsAppend(ns[1..], ms);
      assert [Called(ns[0])] + (Calls(ns[1..]) + Calls(ms)) == ([Called(ns[0])] + Calls(ns[1..])) + Calls(ms);
    }
  }

  /** The fields of the generator that other threads write under its mutex. Every call is noted
      in the trace of the client that makes it. */
  class TrafficGenerator {
    var control: Control
    var mode: Mode
    var periodStart: Timespec
    var updatePeriod: bool
    var stopThread: bool
    const trace: Trace

    function Fields(): Shared
      reads this
    {
      Shared(control, mode, periodStart, updatePeriod, stopThread)
    }

    /** The control field is left unset by the source's constructor. */
    constructor (control: Control, trace: Trace)
      ensures Fields() == Shared(control, 0, Timespec(0, 0), false, false)
      ensures this.trace == trace
    {
      this.control, this.trace := control, trace;
      mode := 0;
      stopThread := false;
      periodStart := Timespec(0, 0);
      updatePeriod := false;
    }

    method NotifyGenerator(state: Control)
      modifies this, trace
      ensures trace.events == old(trace.events) + [Called(SetControl(state))]
      ensures Fields() == Apply(old(Fields()), SetControl(state))
      ensures control == state && mode == old(mode) && periodStart == old(periodStart)
      ensures updatePeriod == old(updatePeriod) && stopThread == old(stopThread)
    {
      control := state;
      trace.Note(Called(SetControl(state)));
    }

    method NotifyGeneratorModeChange(state: Control, newMode: Mode)
      modifies this, trace
      ensures trace.events == old(trace.events) + [Called(SetMode(state, newMode))]
      ensures Fields() == Apply(old(Fields()), SetMode(state, newMode))
      ensures control == state && mode == newMode && periodStart == old(periodStart)
      ensures updatePeriod == old(updatePeriod) && stopThread == old(stopThread)
    {
      mode := newMode;
      control := state;
      trace.Note(Called(SetMode(state, newMode)));
    }

    method NotifyGeneratorTimestamp(state: Control, timestamp: Timespec, newMode: Mode, update: bool)
      modifies this, trace
      ensures trace.events == old(trace.events) + [Called(SetPeriod(state, timestamp, newMode, update))]
      ensures Fields() == Apply(old(Fields()), SetPeriod(state, timestamp, newMode, update))
      ensures control == state && mode == newMode && periodStart == timestamp
      ensures updatePeriod == update && stopThread == old(stopThread)
    {
      mode := newMode;
      updatePeriod := update;
      periodStart := timestamp;
      control := state;
      trace.Note(Called(SetPeriod(state, timestamp, newMode, update)));
    }

    /** One call, by value. */
    method Call(n: Notice)
      modifies this, trace
      ensures trace.events == old(trace.events) + [Called(n)]
      ensures Fields() == Apply(old(Fields()), n)
    {
      match n
      case SetControl(c) => NotifyGenerator(c);
      case SetMode(c, m) => NotifyGeneratorModeChange(c, m);
      case SetPeriod(c, t, m, u) => NotifyGeneratorTimestamp(c, t, m, u);
      case Halt => Stop();
    }

    method Stop()
      modifies this, trace
      ensures trace.events == old(trace.events) + [Called(Halt)]
      ensures Fields() == Apply(old(Fields()), Halt)
      ensures control == ThreadStop && stopThread && mode == old(mode)
      ensures periodStart == old(periodStart) && updatePeriod == old(updatePeriod)
    {
      control := ThreadStop;
      stopThread := true;
      trace.Note(Called(Halt));
    }
  }
}
