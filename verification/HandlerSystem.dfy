/** A two-target handler interleaved with the sender, over one clock that never runs backwards.

    Both threads read the clock whenever they run. The handler's locked write and its
    notification are separate steps, so the sender may run between a firing, its write and
    its notification. */
module HandlerSystem {
  import opened ControlInterface
  import opened ControlSafety
  import opened Generator
  import opened Polling
  import opened Time

  /** The two targets of a handler and the calls it makes at them. */
  datatype Job = Job(first: Timespec, second: Timespec, onFirst: Notice, onSecond: Notice)

  /** The handler thread: where its loop is, and the calls a firing still owes. */
  datatype Client = Client(poll: Poll, todo: seq<Notice>)

  /** `polled` are the readings the handler has made so far, and `called` its calls: history
      only, no step looks at them. */
  datatype System = System(gen: State, clock: Timespec, client: Client, polled: seq<Timespec>, called: seq<Notice>)

  datatype Event =
    | SenderRuns(now: Timespec)
    | WakesUp
    | HandlerPolls(now: Timespec)
    | HandlerWrites
    | HandlerNotifies

  const HANDLER: nat := 0

  function Obeys(cfg: Config, job: Job, y: System, e: Event): (r: System)
    requires Safe(cfg, y.gen)
    ensures Safe(cfg, r.gen)
  {
    match e
    case SenderRuns(now) =>
      if After(y.clock, now) then y
      else y.(gen := Step(cfg, y.gen, Run(now)), clock := now)
    case WakesUp => y.(gen := Step(cfg, y.gen, Spurious))
    case HandlerPolls(now) =>
      if After(y.clock, now) || y.client.poll.Returned? || y.client.todo != [] || HANDLER in y.gen.pending then y
      else
        var p := Pass(job.first, job.second, y.client.poll.firstDone, now);
        y.(clock := now, polled := y.polled + [now],
            client := Client(p.next, NoticesOf(p.fired, job.onFirst, job.onSecond)))
    case HandlerWrites =>
      if y.client.todo == [] || HANDLER in y.gen.pending then y
      else y.(gen := Step(cfg, y.gen, Write(HANDLER, y.client.todo[0])),
              client := y.client.(todo := y.client.todo[1..]), called := y.called + [y.client.todo[0]])
    case HandlerNotifies => y.(gen := Step(cfg, y.gen, Notify(HANDLER)))
  }

  function AllObey(cfg: Config, job: Job, y: System, es: seq<Event>): (r: System)
    requires Safe(cfg, y.gen)
    ensures Safe(cfg, r.gen)
    decreases |es|
  {
    if es == [] then y else AllObey(cfg, job, Obeys(cfg, job, y, es[0]), es[1..])
  }

  lemma OneObeys(cfg: Config, job: Job, y: System, e: Event)
    requires Safe(cfg, y.gen)
    ensures AllObey(cfg, job, y, [e]) == Obeys(cfg, job, y, e)
  {
    var r := Obeys(cfg, job, y, e);
    assert [e][1..] == [] && AllObey(cfg, job, r, []) == r;
  }

  /** The handler at its start: no reading made, nothing called. */
  function Entering(gen: State, clock: Timespec): System {
    System(gen, clock, Client(Looping(false), []), [], [])
  }

  // ---------------------------------------------------------------- the handler is the loop

  /** The handler of the system is where the two-target loop is after the same readings, and
      has made or owes exactly that loop's calls. */
  predicate HandlerFollows(job: Job, y: System) {
    var r := Passes(job.first, job.second, Looping(false), y.polled);
    && y.client.poll == r.next
    && y.called + y.client.todo == NoticesOf(r.fired, job.onFirst, job.onSecond)
  }

  lemma {:induction false} PassesOneMore(first: Timespec, second: Timespec, p: Poll, clock: seq<Timespec>, now: Timespec)
    requires Passes(first, second, p, clock).next.Looping?
    ensures var r := Passes(first, second, p, clock);
      var last := Pass(first, second, r.next.firstDone, now);
      Passes(first, second, p, clock + [now]) == Round(last.next, r.fired + last.fired)
    decreases |clock|
  {
    if clock == [] {
      assert (clock + [now])[1..] == [];
    } else {
      var one := Pass(first, second, p.firstDone, clock[0]);
      assert (clock + [now])[1..] == clock[1..] + [now];
      PassesOneMore(first, second, one.next, clock[1..], now);
      var rest := Passes(first, second, one.next, clock[1..]);
      var last := Pass(first, second, rest.next.firstDone, now);
      assert one.fired + (rest.fired + last.fired) == (one.fired + rest.fired) + last.fired;
    }
  }

  lemma HandlerFollowsStep(cfg: Config, job: Job, y: System, e: Event)
    requires Safe(cfg, y.gen) && HandlerFollows(job, y)
    ensures HandlerFollows(job, Obeys(cfg, job, y, e))
  {
    var r := Passes(job.first, job.second, Looping(false), y.polled);
    match e {
      case HandlerPolls(now) =>
        if y.client.poll.Looping? && y.client.todo == [] {
          PassesOneMore(job.first, job.second, Looping(false), y.polled, now);
          var last := Pass(job.first, job.second, r.next.firstDone, now);
          NoticesAppend(r.fired, last.fired, job.onFirst, job.onSecond);
          assert y.called + [] == y.called;
        }
      case HandlerWrites =>
        if y.client.todo != [] {
          assert (y.called + [y.client.todo[0]]) + y.client.todo[1..] == y.called + y.client.todo;
        }
      case _ =>
    }
  }

  lemma {:induction false} HandlerFollowsRuns(cfg: Config, job: Job, y: System, es: seq<Event>)
    requires Safe(cfg, y.gen) && HandlerFollows(job, y)
    ensures HandlerFollows(job, AllObey(cfg, job, y, es))
    decreases |es|
  {
    if es != [] {
      HandlerFollowsStep(cfg, job, y, es[0]);
      HandlerFollowsRuns(cfg, job, Obeys(cfg, job, y, es[0]), es[1..]);
    }
  }

  // ---------------------------------------------------------------- the sender's part of a run

  /** The actions of the step system that an event comes to. */
  function ActionsOfOne(y: System, e: Event): seq<Action> {
    match e
    case SenderRuns(now) => if After(y.clock, now) then [] else [Run(now)]
    case WakesUp => [Spurious]
    case HandlerPolls(_) => []
    case HandlerWrites =>
      if y.client.todo == [] || HANDLER in y.gen.pending then [] else [Write(HANDLER, y.client.todo[0])]
    case HandlerNotifies => [Notify(HANDLER)]
  }

  function ActionsOf(cfg: Config, job: Job, y: System, es: seq<Event>): seq<Action>
    requires Safe(cfg, y.gen)
    decreases |es|
  {
    if es == [] then [] else ActionsOfOne(y, es[0]) + ActionsOf(cfg, job, Obeys(cfg, job, y, es[0]), es[1..])
  }

  /** Every run of the handler with the sender is a run of the step system. */
  lemma {:induction false} ObeysAsSteps(cfg: Config, job: Job, y: System, es: seq<Event>)
    requires Safe(cfg, y.gen)
    ensures AllObey(cfg, job, y, es).gen == Steps(cfg, y.gen, ActionsOf(cfg, job, y, es))
    decreases |es|
  {
    if es != [] {
      var one, r := ActionsOfOne(y, es[0]), Obeys(cfg, job, y, es[0]);
      OneAsSteps(cfg, job, y, es[0]);
      ObeysAsSteps(cfg, job, r, es[1..]);
      StepsAppend(cfg, y.gen, one, ActionsOf(cfg, job, r, es[1..]));
    }
  }

  lemma OneAsSteps(cfg: Config, job: Job, y: System, e: Event)
    requires Safe(cfg, y.gen)
    ensures Obeys(cfg, job, y, e).gen == Steps(cfg, y.gen, ActionsOfOne(y, e))
  {
    if ActionsOfOne(y, e) != [] {
      StepsOne(cfg, y.gen, ActionsOfOne(y, e)[0]);
    }
  }

  // ---------------------------------------------------------------- between two calls

  lemma {:induction false} CallsGrow(cfg: Config, job: Job, y: System, es: seq<Event>)
    requires Safe(cfg, y.gen)
    ensures y.called <= AllObey(cfg, job, y, es).called
    decreases |es|
  {
    if es != [] {
      CallsGrow(cfg, job, Obeys(cfg, job, y, es[0]), es[1..]);
    }
  }

  /** As long as the handler makes no further call, it writes nothing. */
  lemma {:induction false} NoCallNoWrite(cfg: Config, job: Job, y: System, es: seq<Event>, c: Control)
    requires Safe(cfg, y.gen) && AllObey(cfg, job, y, es).called == y.called
    ensures Never(ActionsOf(cfg, job, y, es), c)
    decreases |es|
  {
    if es != [] {
      var r := Obeys(cfg, job, y, es[0]);
      CallsGrow(cfg, job, r, es[1..]);
      NoCallNoWrite(cfg, job, r, es[1..], c);
      NeverAppend(ActionsOfOne(y, es[0]), ActionsOf(cfg, job, r, es[1..]), c);
    }
  }

  lemma {:induction false} NeverAppend(xs: seq<Action>, ys: seq<Action>, c: Control)
    requires Never(xs, c) && Never(ys, c)
    ensures Never(xs + ys, c)
    decreases |xs|
  {
    if xs == [] {
      assert xs + ys == ys;
    } else {
      assert (xs + ys)[0] == xs[0] && (xs + ys)[1..] == xs[1..] + ys;
      NeverAppend(xs[1..], ys, c);
    }
  }

  // ---------------------------------------------------------------- the hardware change

  /** What the hardware handler makes of its timestamps. */
  function HardwareJob(stop: Timespec, start: Timespec): Job {
    Job(stop, start, SetControl(ThreadPaused), SetControl(ThreadTransmission))
  }

  /** The hardware handler's calls are PAUSED, TRANSMISSION or a part of it; and in any
      interleaving with the sender, from the write of its PAUSED as long as that is its last
      call, at most the one packet is sent that was already past its check at the write. */
  lemma HardwarePause(cfg: Config, stop: Timespec, start: Timespec, y: System, before: seq<Event>, after: seq<Event>)
    requires Safe(cfg, y.gen) && y == Entering(y.gen, y.clock)
    requires var a := AllObey(cfg, HardwareJob(stop, start), y, before);
      var b := Obeys(cfg, HardwareJob(stop, start), a, HandlerWrites);
      && b.called == a.called + [SetControl(ThreadPaused)]
      && AllObey(cfg, HardwareJob(stop, start), b, after).called == b.called
    ensures var a := AllObey(cfg, HardwareJob(stop, start), y, before);
      var b := Obeys(cfg, HardwareJob(stop, start), a, HandlerWrites);
      var r := AllObey(cfg, HardwareJob(stop, start), b, after);
      && a.called == [] && (r.client.todo == [] || r.client.todo == [SetControl(ThreadTransmission)])
      && r.gen.shared.control == ThreadPaused
      && |r.gen.log.sent| <= |a.gen.log.sent| + (if a.gen.tx.point.Send? then 1 else 0)
  {
    var job := HardwareJob(stop, start);
    var a := AllObey(cfg, job, y, before);
    var b := Obeys(cfg, job, a, HandlerWrites);
    HandlerFollowsRuns(cfg, job, y, before);
    HandlerFollowsStep(cfg, job, a, HandlerWrites);
    HandlerFollowsRuns(cfg, job, b, after);
    HardwareCalls(stop, start, b);
    HardwareCalls(stop, start, AllObey(cfg, job, b, after));
    ObeysAsSteps(cfg, job, b, after);
    NoCallNoWrite(cfg, job, b, after, ThreadTransmission);
    NoCallNoWrite(cfg, job, b, after, ThreadFinishObject);
    Pause(cfg, b.gen, ActionsOf(cfg, job, b, after));
    ControlKept(cfg, job, b, after);
  }

  lemma HardwareCalls(stop: Timespec, start: Timespec, y: System)
    requires HandlerFollows(HardwareJob(stop, start), y)
    requires |y.called| > 0 && y.called[|y.called| - 1] == SetControl(ThreadPaused)
    ensures y.called == [SetControl(ThreadPaused)]
    ensures y.client.todo == [] || y.client.todo == [SetControl(ThreadTransmission)]
  {
    var fired := Passes(stop, start, Looping(false), y.polled).fired;
    FiringOrder(stop, start, Looping(false), y.polled);
    NoticesOfMarks(fired, SetControl(ThreadPaused), SetControl(ThreadTransmission));
    var all := y.called + y.client.todo;
    assert all[|y.called| - 1] == SetControl(ThreadPaused);
    assert y.client.todo == all[|y.called|..] && y.called == all[..|y.called|];
  }

  lemma {:induction false} ControlKept(cfg: Config, job: Job, y: System, es: seq<Event>)
    requires Safe(cfg, y.gen) && AllObey(cfg, job, y, es).called == y.called
    ensures AllObey(cfg, job, y, es).gen.shared.control == y.gen.shared.control
    decreases |es|
  {
    if es != [] {
      CallsGrow(cfg, job, Obeys(cfg, job, y, es[0]), es[1..]);
      ControlKept(cfg, job, Obeys(cfg, job, y, es[0]), es[1..]);
    }
  }
}
