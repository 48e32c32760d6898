/** The polling loops of the timed handlers: read the clock until a target is passed, fire if
    the reading still lies in the target's second, give up otherwise.

    The clock is any sequence of readings; a loop that is still polling when the readings run
    out has not returned. */
module Polling {
  import opened ControlInterface
  import opened Time

  datatype Verdict = Wait | Fire | Invalid

  /** The nested tests the loops make on one reading. */
  function Check(target: Timespec, now: Timespec): Verdict {
    if target.sec != 0 && target.sec >= now.sec then
      if now.sec > target.sec || (now.sec == target.sec && now.nsec > target.nsec) then Fire else Wait
    else Invalid
  }

  /** A reading fires a target exactly when it lies beyond it but still in its second; it
      keeps the loop waiting exactly while it is not beyond a target that is set. */
  lemma CheckMeans(target: Timespec, now: Timespec)
    ensures Check(target, now) == Fire <==> target.sec != 0 && After(now, target) && now.sec == target.sec
    ensures Check(target, now) == Wait <==> target.sec != 0 && !After(now, target)
    ensures Check(target, now) == Fire ==> Nanos(now) > Nanos(target)
  {}

  /** Index of the first reading beyond the target, or the number of readings. */
  function FirstBeyond(target: Timespec, clock: seq<Timespec>): (i: nat)
    ensures i <= |clock|
    ensures forall k :: 0 <= k < i ==> !After(clock[k], target)
    ensures i < |clock| ==> After(clock[i], target)
  {
    if clock == [] || After(clock[0], target) then 0
    else
      var i := FirstBeyond(target, clock[1..]);
      assert forall k :: 1 <= k < i + 1 ==> clock[k] == clock[1..][k - 1];
      i + 1
  }

  // ---------------------------------------------------------------- one target

  datatype Outcome = Polling | Fired(at: Timespec) | GaveUp

  /** What waiting for one target on the given readings comes to: it ends on any clock that
      passes the target, and fires if and only if the first reading beyond the target still
      lies in the target's second. */
  function OutcomeOf(target: Timespec, clock: seq<Timespec>): Outcome {
    if clock == [] then Polling
    else if target.sec == 0 then GaveUp
    else
      var i := FirstBeyond(target, clock);
      if i == |clock| then Polling
      else if clock[i].sec == target.sec then Fired(clock[i])
      else GaveUp
  }

  /** The loop of the handlers that wait for one target. */
  method PollOne(target: Timespec, clock: seq<Timespec>) returns (outcome: Outcome, used: nat)
    ensures outcome == OutcomeOf(target, clock)
    ensures used <= |clock|
    ensures outcome == Polling <==> clock == [] || (target.sec != 0 && FirstBeyond(target, clock) == |clock|)
    ensures outcome != Polling && target.sec != 0 ==> used == FirstBeyond(target, clock) + 1
  {
    used := 0;
    while used < |clock|
      invariant used <= |clock|
      invariant used > 0 ==> target.sec != 0
      invariant forall k :: 0 <= k < used ==> !After(clock[k], target)
    {
      var now := clock[used];
      used := used + 1;
      if target.sec != 0 && target.sec >= now.sec {
        if now.sec > target.sec || (now.sec == target.sec && now.nsec > target.nsec) {
          return Fired(now), used;
        }
      } else {
        return GaveUp, used;
      }
    }
    return Polling, used;
  }

  // ---------------------------------------------------------------- two targets

  datatype Mark = First | Second
  datatype Firing = Firing(mark: Mark, at: Timespec)
  datatype Poll = Looping(firstDone: bool) | Returned
  datatype Round = Round(next: Poll, fired: seq<Firing>)

  /** The second half of a pass through the loop. */
  function SecondHalf(second: Timespec, now: Timespec, firstDone: bool, fired: seq<Firing>): Round {
    match Check(second, now)
    case Wait => Round(Looping(firstDone), fired)
    case Fire => Round(Returned, fired + [Firing(Second, now)])
    case Invalid => Round(Returned, fired)
  }

  /** One pass through the loop that waits for two targets. */
  function Pass(first: Timespec, second: Timespec, firstDone: bool, now: Timespec): Round {
    if firstDone then SecondHalf(second, now, true, [])
    else match Check(first, now)
      case Wait => SecondHalf(second, now, false, [])
      case Fire => SecondHalf(second, now, true, [Firing(First, now)])
      case Invalid => Round(Returned, [])
  }

  /** All passes over the readings, until the loop returns. */
  function Passes(first: Timespec, second: Timespec, p: Poll, clock: seq<Timespec>): Round
    decreases |clock|
  {
    if clock == [] || p.Returned? then Round(p, [])
    else
      var r := Pass(first, second, p.firstDone, clock[0]);
      var rest := Passes(first, second, r.next, clock[1..]);
      Round(rest.next, r.fired + rest.fired)
  }

  function TargetOf(f: Firing, first: Timespec, second: Timespec): Timespec {
    if f.mark == First then first else second
  }

  /** Every firing happens at a reading strictly beyond its target and in its second. */
  lemma {:induction false} FiredBeyondTarget(first: Timespec, second: Timespec, p: Poll, clock: seq<Timespec>)
    ensures forall f :: f in Passes(first, second, p, clock).fired ==>
              var t := TargetOf(f, first, second);
              After(f.at, t) && f.at.sec == t.sec && Nanos(f.at) > Nanos(t)
    decreases |clock|
  {
    if clock != [] && !p.Returned? {
      FiredBeyondTarget(first, second, Pass(first, second, p.firstDone, clock[0]).next, clock[1..]);
    }
  }

  function Marks(fired: seq<Firing>): seq<Mark>
    decreases |fired|
  {
    if fired == [] then [] else [fired[0].mark] + Marks(fired[1..])
  }

  lemma {:induction false} MarksAppend(xs: seq<Firing>, ys: seq<Firing>)
    ensures Marks(xs + ys) == Marks(xs) + Marks(ys)
    decreases |xs|
  {
    if xs == [] {
      assert xs + ys == ys;
    } else {
      assert (xs + ys)[1..] == xs[1..] + ys;
      MarksAppend(xs[1..], ys);
    }
  }

  lemma MarksOfPass(first: Timespec, second: Timespec, p: Poll, clock: seq<Timespec>)
    requires clock != [] && p.Looping?
    ensures var r := Pass(first, second, p.firstDone, clock[0]);
      Marks(Passes(first, second, p, clock).fired)
      == Marks(r.fired) + Marks(Passes(first, second, r.next, clock[1..]).fired)
  {
    var r := Pass(first, second, p.firstDone, clock[0]);
    MarksAppend(r.fired, Passes(first, second, r.next, clock[1..]).fired);
  }

  /** Each target fires at most once, in order; and if the first target is not later than the
      second, the second never fires without the first. */
  lemma {:induction false} FiringOrder(first: Timespec, second: Timespec, p: Poll, clock: seq<Timespec>)
    ensures var m := Marks(Passes(first, second, p, clock).fired);
      && (p == Looping(false) ==> m == [] || m == [First] || m == [Second] || m == [First, Second])
      && (p == Looping(false) && !After(first, second) ==> m <= [First, Second])
      && (p != Looping(false) ==> m == [] || (p == Looping(true) && m == [Second]))
    decreases |clock|
  {
    if clock != [] && p.Looping? {
      MarksOfPass(first, second, p, clock);
      FiringOrder(first, second, Pass(first, second, p.firstDone, clock[0]).next, clock[1..]);
    }
  }

  /** The earliest normalised reading that could fire the target. */
  function FirstTick(target: Timespec): Timespec {
    Timespec(target.sec, if target.nsec < 0 then 0 else target.nsec + 1)
  }

  predicate AllNormalised(clock: seq<Timespec>) {
    forall i :: 0 <= i < |clock| ==> Normalised(clock[i])
  }

  /** The second target can fire alone exactly under this condition on the two targets. */
  predicate SecondMayFireAlone(first: Timespec, second: Timespec) {
    first.sec != 0 && second.sec != 0 && Normalised(FirstTick(second)) && !After(FirstTick(second), first)
  }

  lemma {:induction false} SecondAloneNeeds(first: Timespec, second: Timespec, clock: seq<Timespec>)
    requires AllNormalised(clock)
    requires Marks(Passes(first, second, Looping(false), clock).fired) == [Second]
    ensures SecondMayFireAlone(first, second)
    decreases |clock|
  {
    MarksOfPass(first, second, Looping(false), clock);
    var r := Pass(first, second, false, clock[0]);
    if r.next == Looping(false) {
      SecondAloneNeeds(first, second, clock[1..]);
    } else if r.fired != [] {
      assert Marks(r.fired)[0] == r.fired[0].mark;
      assert r.fired == [Firing(Second, clock[0])];
    }
  }

  lemma SecondAloneExactly(first: Timespec, second: Timespec)
    ensures (exists clock :: AllNormalised(clock) && Marks(Passes(first, second, Looping(false), clock).fired) == [Second])
            <==> SecondMayFireAlone(first, second)
  {
    if SecondMayFireAlone(first, second) {
      var clock := [FirstTick(second)];
      assert Pass(first, second, false, clock[0]) == Round(Returned, [Firing(Second, clock[0])]);
      assert Passes(first, second, Returned, clock[1..]).fired == [];
      assert Passes(first, second, Looping(false), clock).fired == [Firing(Second, clock[0])];
    }
    forall clock | AllNormalised(clock) && Marks(Passes(first, second, Looping(false), clock).fired) == [Second]
      ensures SecondMayFireAlone(first, second)
    {
      SecondAloneNeeds(first, second, clock);
    }
  }

  /** The loop returns at the latest at the first reading beyond its second target, for any
      targets and any clock. */
  lemma {:induction false} PassesReturn(first: Timespec, second: Timespec, p: Poll, clock: seq<Timespec>)
    requires FirstBeyond(second, clock) < |clock|
    ensures Passes(first, second, p, clock[..FirstBeyond(second, clock) + 1]).next == Returned
    decreases |clock|
  {
    var n := FirstBeyond(second, clock) + 1;
    assert clock[..n][0] == clock[0] && clock[..n][1..] == clock[1..][..n - 1];
    if p.Looping? && n > 1 {
      PassesReturn(first, second, Pass(first, second, p.firstDone, clock[0]).next, clock[1..]);
    }
  }

  /** The first reading beyond the target still lies in the target's second. */
  predicate InWindow(target: Timespec, clock: seq<Timespec>) {
    var i := FirstBeyond(target, clock);
    i < |clock| && target.sec != 0 && clock[i].sec == target.sec
  }

  /** Index of the reading that ends the wait for the target, or the number of readings. */
  function EndOf(target: Timespec, clock: seq<Timespec>): nat {
    if target.sec == 0 then 0 else FirstBeyond(target, clock)
  }

  /** What becomes of two targets: `a` for the first and `b` for the second, each if its window
      is met, but nothing more once the wait for the second has ended before the first fired,
      or the first has missed its window. */
  function InWindows<T>(first: Timespec, second: Timespec, a: T, b: T, clock: seq<Timespec>): seq<T> {
    var onSecond := if InWindow(second, clock) then [b] else [];
    if EndOf(second, clock) < EndOf(first, clock) then onSecond
    else if InWindow(first, clock) then [a] + onSecond
    else []
  }

  lemma BeyondLater(target: Timespec, clock: seq<Timespec>)
    requires clock != [] && !After(clock[0], target)
    ensures FirstBeyond(target, clock) == FirstBeyond(target, clock[1..]) + 1
    ensures InWindow(target, clock) == InWindow(target, clock[1..])
  {}

  lemma {:induction false} WindowAfterFirst(first: Timespec, second: Timespec, clock: seq<Timespec>)
    ensures Marks(Passes(first, second, Looping(true), clock).fired)
            == if InWindow(second, clock) then [Second] else []
    decreases |clock|
  {
    if clock != [] {
      MarksOfPass(first, second, Looping(true), clock);
      if Check(second, clock[0]) == Wait {
        WindowAfterFirst(first, second, clock[1..]);
        BeyondLater(second, clock);
      }
    }
  }

  /** What fires, exactly, for any two targets and any clock. */
  lemma {:induction false} FiringWindows(first: Timespec, second: Timespec, clock: seq<Timespec>)
    ensures Marks(Passes(first, second, Looping(false), clock).fired)
            == InWindows(first, second, First, Second, clock)
    decreases |clock|
  {
    if clock != [] {
      MarksOfPass(first, second, Looping(false), clock);
      match Check(first, clock[0]) {
        case Invalid =>
        case Fire => AfterFirstFires(first, second, clock);
        case Wait =>
          BeyondLater(first, clock);
          if Check(second, clock[0]) == Wait {
            BeyondLater(second, clock);
            FiringWindows(first, second, clock[1..]);
          }
      }
    }
  }

  /** When the two-target loop has returned: the wait for the second target is over, or that for
      the first ends no later and misses its window. */
  predicate BothOver(first: Timespec, second: Timespec, clock: seq<Timespec>) {
    || EndOf(second, clock) < |clock|
    || (EndOf(first, clock) < |clock| && !InWindow(first, clock))
  }

  lemma {:induction false} ReturnsAfterFirst(first: Timespec, second: Timespec, clock: seq<Timespec>)
    ensures Passes(first, second, Looping(true), clock).next.Returned? <==> EndOf(second, clock) < |clock|
    decreases |clock|
  {
    if clock != [] && Check(second, clock[0]) == Wait {
      ReturnsAfterFirst(first, second, clock[1..]);
      BeyondLater(second, clock);
    }
  }

  lemma {:induction false} TwoTargetsReturn(first: Timespec, second: Timespec, clock: seq<Timespec>)
    ensures Passes(first, second, Looping(false), clock).next.Returned? <==> BothOver(first, second, clock)
    decreases |clock|
  {
    if clock != [] {
      match Check(first, clock[0]) {
        case Invalid =>
        case Fire =>
          if Check(second, clock[0]) == Wait {
            ReturnsAfterFirst(first, second, clock[1..]);
            BeyondLater(second, clock);
          }
        case Wait =>
          BeyondLater(first, clock);
          if Check(second, clock[0]) == Wait {
            BeyondLater(second, clock);
            TwoTargetsReturn(first, second, clock[1..]);
          }
      }
    }
  }

  lemma AfterFirstFires(first: Timespec, second: Timespec, clock: seq<Timespec>)
    requires clock != [] && Check(first, clock[0]) == Fire
    ensures Marks(Passes(first, second, Looping(false), clock).fired)
            == [First] + (if InWindow(second, clock) then [Second] else [])
  {
    MarksOfPass(first, second, Looping(false), clock);
    if Check(second, clock[0]) == Wait {
      WindowAfterFirst(first, second, clock[1..]);
      BeyondLater(second, clock);
    }
  }

  // ---------------------------------------------------------------- the loop itself

  function NoticesOf(fired: seq<Firing>, onFirst: Notice, onSecond: Notice): seq<Notice>
    decreases |fired|
  {
    if fired == [] then []
    else [if fired[0].mark == First then onFirst else onSecond] + NoticesOf(fired[1..], onFirst, onSecond)
  }

  lemma {:induction false} NoticesAppend(xs: seq<Firing>, ys: seq<Firing>, a: Notice, b: Notice)
    ensures NoticesOf(xs + ys, a, b) == NoticesOf(xs, a, b) + NoticesOf(ys, a, b)
    decreases |xs|
  {
    if xs == [] {
      assert xs + ys == ys;
    } else {
      assert (xs + ys)[1..] == xs[1..] + ys;
      NoticesAppend(xs[1..], ys, a, b);
    }
  }

  /** The calls depend on the order of the firings alone. */
  lemma {:induction false} NoticesOfMarks(xs: seq<Firing>, a: Notice, b: Notice)
    ensures Marks(xs) == [] ==> NoticesOf(xs, a, b) == []
    ensures Marks(xs) == [First] ==> NoticesOf(xs, a, b) == [a]
    ensures Marks(xs) == [Second] ==> NoticesOf(xs, a, b) == [b]
    ensures Marks(xs) == [First, Second] ==> NoticesOf(xs, a, b) == [a, b]
    decreases |xs|
  {
    if xs != [] {
      assert Marks(xs)[0] == xs[0].mark && Marks(xs)[1..] == Marks(xs[1..]);
      NoticesOfMarks(xs[1..], a, b);
    }
  }

  function NoticeOf(m: Mark, onFirst: Notice, onSecond: Notice): Notice {
    if m == First then onFirst else onSecond
  }

  lemma OneMoreCall(sh: Shared, fired: seq<Firing>, f: Firing, a: Notice, b: Notice)
    ensures Calls(NoticesOf(fired + [f], a, b)) == Calls(NoticesOf(fired, a, b)) + [Called(NoticeOf(f.mark, a, b))]
    ensures ApplyAll(sh, NoticesOf(fired + [f], a, b))
            == Apply(ApplyAll(sh, NoticesOf(fired, a, b)), NoticeOf(f.mark, a, b))
  {
    var ns, n := NoticesOf(fired, a, b), NoticeOf(f.mark, a, b);
    NoticesAppend(fired, [f], a, b);
    assert [f][1..] == [] && NoticesOf([f], a, b) == [n];
    assert [n][1..] == [] && Calls([n]) == [Called(n)];
    ApplyAllAppend(sh, ns, [n]);
    CallsAppend(ns, [n]);
  }

  /** The body of the two-target loop at one reading, calling the generator when a target
      fires. */
  method PollPass(g: TrafficGenerator, first: Timespec, second: Timespec, onFirst: Notice, onSecond: Notice,
                  firstDone: bool, now: Timespec) returns (next: Poll, ghost fired: seq<Firing>)
    modifies g, g.trace
    ensures Round(next, fired) == Pass(first, second, firstDone, now)
    ensures g.trace.events == old(g.trace.events) + Calls(NoticesOf(fired, onFirst, onSecond))
    ensures g.Fields() == ApplyAll(old(g.Fields()), NoticesOf(fired, onFirst, onSecond))
  {
    fired := [];
    next := Looping(firstDone);
    if !firstDone {
      if first.sec != 0 && first.sec >= now.sec {
        if now.sec > first.sec || (now.sec == first.sec && now.nsec > first.nsec) {
          g.Call(onFirst);
          OneMoreCall(old(g.Fields()), fired, Firing(First, now), onFirst, onSecond);
          fired := fired + [Firing(First, now)];
          next := Looping(true);
        }
      } else {
        return Returned, fired;
      }
    }
    if second.sec != 0 && second.sec >= now.sec {
      if now.sec > second.sec || (now.sec == second.sec && now.nsec > second.nsec) {
        g.Call(onSecond);
        OneMoreCall(old(g.Fields()), fired, Firing(Second, now), onFirst, onSecond);
        return Returned, fired + [Firing(Second, now)];
      }
    } else {
      return Returned, fired;
    }
  }

  /** What the loop has fired so far and will still fire, at reading number `used`. */
  predicate SoFar(first: Timespec, second: Timespec, clock: seq<Timespec>, used: nat, state: Poll, fired: seq<Firing>)
    requires used <= |clock|
  {
    var rest := Passes(first, second, state, clock[used..]);
    Passes(first, second, Looping(false), clock) == Round(rest.next, fired + rest.fired)
  }

  lemma OneMorePass(first: Timespec, second: Timespec, clock: seq<Timespec>, used: nat, state: Poll, fired: seq<Firing>)
    requires used < |clock| && state.Looping? && SoFar(first, second, clock, used, state, fired)
    ensures var p := Pass(first, second, state.firstDone, clock[used]);
      SoFar(first, second, clock, used + 1, p.next, fired + p.fired)
  {
    var p := Pass(first, second, state.firstDone, clock[used]);
    assert clock[used..][1..] == clock[used + 1..];
    var later := Passes(first, second, p.next, clock[used + 1..]);
    assert fired + (p.fired + later.fired) == (fired + p.fired) + later.fired;
  }

  /** The calls `ns` have been noted since. */
  predicate Noted(before: seq<TraceEvent>, after: seq<TraceEvent>, ns: seq<Notice>) {
    after == before + Calls(ns)
  }

  lemma NotedThen(e0: seq<TraceEvent>, e1: seq<TraceEvent>, e2: seq<TraceEvent>, xs: seq<Notice>, ys: seq<Notice>)
    requires Noted(e0, e1, xs) && Noted(e1, e2, ys)
    ensures Noted(e0, e2, xs + ys)
  {
    CallsAppend(xs, ys);
    Regrouped(e0, Calls(xs), Calls(ys));
  }

  lemma Regrouped(a: seq<TraceEvent>, b: seq<TraceEvent>, c: seq<TraceEvent>)
    ensures (a + b) + c == a + (b + c)
  {}

  lemma SoFarStarts(first: Timespec, second: Timespec, clock: seq<Timespec>)
    ensures SoFar(first, second, clock, 0, Looping(false), [])
  {
    var all := Passes(first, second, Looping(false), clock);
    assert clock[0..] == clock && [] + all.fired == all.fired;
  }

  lemma SoFarEnds(first: Timespec, second: Timespec, clock: seq<Timespec>, used: nat, state: Poll, fired: seq<Firing>)
    requires used <= |clock| && SoFar(first, second, clock, used, state, fired)
    requires used == |clock| || state.Returned?
    ensures Passes(first, second, Looping(false), clock) == Round(state, fired)
  {
    assert Passes(first, second, state, clock[used..]) == Round(state, []);
    assert fired + [] == fired;
  }

  /** The loop of the handlers that wait for two targets. `returned` says whether the readings
      sufficed for the loop to end. */
  method PollTwo(g: TrafficGenerator, first: Timespec, second: Timespec, onFirst: Notice, onSecond: Notice,
                 clock: seq<Timespec>) returns (returned: bool)
    modifies g, g.trace
    ensures var r := Passes(first, second, Looping(false), clock);
      && returned == r.next.Returned?
      && g.trace.events == old(g.trace.events) + Calls(NoticesOf(r.fired, onFirst, onSecond))
      && g.Fields() == ApplyAll(old(g.Fields()), NoticesOf(r.fired, onFirst, onSecond))
  {
    var used := 0;
    var state := Looping(false);
    ghost var fired: seq<Firing> := [];
    SoFarStarts(first, second, clock);
    while used < |clock| && !state.Returned?
      invariant used <= |clock| && SoFar(first, second, clock, used, state, fired)
      invariant Noted(old(g.trace.events), g.trace.events, NoticesOf(fired, onFirst, onSecond))
      invariant g.Fields() == ApplyAll(old(g.Fields()), NoticesOf(fired, onFirst, onSecond))
      decreases |clock| - used
    {
      OneMorePass(first, second, clock, used, state, fired);
      ghost var now;
      ghost var events := g.trace.events;
      state, now := PollPass(g, first, second, onFirst, onSecond, state.firstDone, clock[used]);
      NotedThen(old(g.trace.events), events, g.trace.events,
                NoticesOf(fired, onFirst, onSecond), NoticesOf(now, onFirst, onSecond));
      ApplyAllAppend(old(g.Fields()), NoticesOf(fired, onFirst, onSecond), NoticesOf(now, onFirst, onSecond));
      NoticesAppend(fired, now, onFirst, onSecond);
      used := used + 1;
      fired := fired + now;
    }
    SoFarEnds(first, second, clock, used, state, fired);
    returned := state.Returned?;
  }
}
