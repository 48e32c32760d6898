/** The thread-safe queue as a monitor: any number of producers and consumers, one
    notification per enqueue, spurious wake-ups.

    Every locked section is one step. A consumer's step is one pass of the wait loop in
    `dequeue`: it goes to sleep on an empty queue and takes the front otherwise. */
module SafeQueue {

  datatype Option<T> = None | Some(value: T)

  datatype Phase = Outside | Asleep | Notified | Spurious

  /** `enqueued` and `dequeued` are all values that ever went in and came out, in order. */
  datatype Monitor<T> = Monitor(items: seq<T>, phases: map<nat, Phase>, enqueued: seq<T>, dequeued: seq<T>)

  /** `Enqueue` carries the consumer that `notify_one` happens to choose. */
  datatype Action<T> = Enqueue(value: T, chosen: nat) | Dequeue(consumer: nat) | Wake(consumer: nat)

  function PhaseOf(phases: map<nat, Phase>, c: nat): Phase {
    if c in phases then phases[c] else Outside
  }

  function In(phases: map<nat, Phase>, p: Phase): set<nat> {
    set c | c in phases && phases[c] == p
  }

  function Notify(phases: map<nat, Phase>, chosen: nat): map<nat, Phase> {
    if PhaseOf(phases, chosen) == Asleep then phases[chosen := Notified] else phases
  }

  /** An enqueue wakes a sleeper whenever there is one; a sleeping consumer makes no pass. */
  predicate Possible<T>(m: Monitor<T>, a: Action<T>) {
    match a
    case Enqueue(_, chosen) => In(m.phases, Asleep) == {} || PhaseOf(m.phases, chosen) == Asleep
    case Dequeue(c) => PhaseOf(m.phases, c) != Asleep
    case Wake(c) => PhaseOf(m.phases, c) == Asleep
  }

  function Step<T>(m: Monitor<T>, a: Action<T>): Monitor<T> {
    if !Possible(m, a) then m
    else match a
      case Enqueue(v, chosen) =>
        m.(items := m.items + [v], enqueued := m.enqueued + [v], phases := Notify(m.phases, chosen))
      case Dequeue(c) =>
        if m.items == [] then m.(phases := m.phases[c := Asleep])
        else m.(items := m.items[1..], dequeued := m.dequeued + [m.items[0]], phases := m.phases[c := Outside])
      case Wake(c) => m.(phases := m.phases[c := Spurious])
  }

  function Steps<T>(m: Monitor<T>, acts: seq<Action<T>>): Monitor<T>
    decreases |acts|
  {
    if acts == [] then m else Steps(Step(m, acts[0]), acts[1..])
  }

  function Fresh<T>(): Monitor<T> {
    Monitor([], map[], [], [])
  }

  /** Values leave in the order in which they came; and while a consumer sleeps un-notified,
      as many notified consumers are still to run as there are values. */
  ghost predicate Inv<T>(m: Monitor<T>) {
    && m.dequeued + m.items == m.enqueued
    && (In(m.phases, Asleep) != {} ==> |In(m.phases, Notified)| >= |m.items|)
  }

  lemma EnqueueKeeps<T>(m: Monitor<T>, v: T, chosen: nat)
    requires Inv(m) && Possible(m, Enqueue(v, chosen))
    ensures Inv(Step(m, Enqueue(v, chosen)))
  {
    var r := Step(m, Enqueue(v, chosen));
    if PhaseOf(m.phases, chosen) == Asleep {
      assert chosen in In(m.phases, Asleep);
      assert In(r.phases, Notified) == In(m.phases, Notified) + {chosen};
      assert chosen !in In(m.phases, Notified);
    }
  }

  lemma DequeueKeeps<T>(m: Monitor<T>, c: nat)
    requires Inv(m) && Possible(m, Dequeue(c))
    ensures Inv(Step(m, Dequeue(c)))
  {
    var r := Step(m, Dequeue(c));
    assert In(r.phases, Notified) == In(m.phases, Notified) - {c};
    if m.items != [] {
      assert In(r.phases, Asleep) == In(m.phases, Asleep);
      assert m.dequeued + [m.items[0]] + m.items[1..] == m.dequeued + m.items;
    }
  }

  lemma WakeKeeps<T>(m: Monitor<T>, c: nat)
    requires Inv(m) && Possible(m, Wake(c))
    ensures Inv(Step(m, Wake(c)))
  {
    var r := Step(m, Wake(c));
    assert In(r.phases, Notified) == In(m.phases, Notified);
    assert c in In(m.phases, Asleep);
  }

  lemma {:induction false} RunKeeps<T>(m: Monitor<T>, acts: seq<Action<T>>)
    requires Inv(m)
    ensures Inv(Steps(m, acts))
    decreases |acts|
  {
    if acts != [] {
      if Possible(m, acts[0]) {
        match acts[0]
        case Enqueue(v, chosen) => EnqueueKeeps(m, v, chosen);
        case Dequeue(c) => DequeueKeeps(m, c);
        case Wake(c) => WakeKeeps(m, c);
      }
      RunKeeps(Step(m, acts[0]), acts[1..]);
    }
  }

  /** In every run: first in, first out, nothing lost or duplicated; and a value never waits
      for a sleeping consumer alone: some notified consumer will take the front value with
      its next pass. */
  lemma NoLostWakeUp<T>(acts: seq<Action<T>>, sleeper: nat)
    ensures var m := Steps(Fresh(), acts);
      && m.dequeued + m.items == m.enqueued
      && (PhaseOf(m.phases, sleeper) == Asleep && m.items != [] ==>
            |In(m.phases, Notified)| >= |m.items| &&
            exists c :: PhaseOf(m.phases, c) == Notified
              && Step(m, Dequeue(c)).dequeued == m.dequeued + [m.items[0]])
  {
    RunKeeps(Fresh<T>(), acts);
    var m := Steps(Fresh<T>(), acts);
    if PhaseOf(m.phases, sleeper) == Asleep && m.items != [] {
      assert sleeper in In(m.phases, Asleep);
      var c :| c in In(m.phases, Notified);
      assert PhaseOf(m.phases, c) == Notified && Possible<T>(m, Dequeue(c));
    }
  }

  /** One pass of the wait loop: exactly on an empty queue it goes to sleep and takes nothing;
      otherwise it takes the front and is through, however it was woken. */
  lemma DequeueExactly<T>(m: Monitor<T>, c: nat)
    requires PhaseOf(m.phases, c) != Asleep
    ensures var r := Step(m, Dequeue(c));
      && (m.items == [] ==> r == m.(phases := r.phases) && PhaseOf(r.phases, c) == Asleep)
      && (m.items != [] ==>
            r.items == m.items[1..] && r.dequeued == m.dequeued + [m.items[0]] && PhaseOf(r.phases, c) == Outside)
      && (forall d :: d != c ==> PhaseOf(r.phases, d) == PhaseOf(m.phases, d))
  {}

  /** The queue behind the lock. */
  class SafeQueue<T> {
    var items: seq<T>

    constructor ()
      ensures items == []
    {
      items := [];
    }

    method Enqueue(value: T)
      modifies this
      ensures items == old(items) + [value]
    {
      items := items + [value];
    }

    /** Wait until the queue is not empty, then take the front. `wakes` holds, for each time the
        wait returns, what producers have enqueued meanwhile: nothing when it returns
        spuriously or another consumer was faster. A caller whose waits do not return again
        gets nothing. */
    method Dequeue(wakes: seq<seq<T>>) returns (front: Option<T>, ghost waits: nat)
      modifies this
      ensures waits <= |wakes| && (forall k :: 0 <= k < waits - 1 ==> wakes[k] == [])
      ensures front.None? <==> old(items) == [] && forall k :: 0 <= k < |wakes| ==> wakes[k] == []
      ensures front.None? ==> items == []
      ensures front.Some? ==> (waits == 0 <==> old(items) != [])
      ensures front.Some? ==> [front.value] + items == old(items) + (if waits == 0 then [] else wakes[waits - 1])
    {
      var i := 0;
      while items == []
        invariant i <= |wakes| && (i == 0 ==> items == old(items)) && (i > 0 ==> old(items) == [])
        invariant i > 0 ==> items == wakes[i - 1]
        invariant forall k :: 0 <= k < i - 1 ==> wakes[k] == []
        decreases |wakes| - i
      {
        if i == |wakes| {
          return None, i;
        }
        items := items + wakes[i];
        i := i + 1;
      }
      front, waits := Some(items[0]), i;
      items := items[1..];
    }

    method Empty() returns (empty: bool)
      ensures empty <==> items == []
    {
      empty := items == [];
    }
  }
}
