/** Timestamps as the source stores them (POSIX `struct timespec`) and the
    arithmetic of the sender's period grid. */
module Time {

  const NANOS_PER_SECOND := 1_000_000_000
  const NANOS_PER_MILLI := 1_000_000

  datatype Timespec = Timespec(sec: int, nsec: int)

  predicate Normalised(t: Timespec) {
    0 <= t.nsec < NANOS_PER_SECOND
  }

  /** `t` is strictly later than `u`: the field-wise comparison every polling loop uses. */
  predicate After(t: Timespec, u: Timespec) {
    t.sec > u.sec || (t.sec == u.sec && t.nsec > u.nsec)
  }

  function Nanos(t: Timespec): int {
    t.sec * NANOS_PER_SECOND + t.nsec
  }

  /** The next point of the period grid: `millis` later, carrying whole seconds only
      when the nanosecond field leaves its range. */
  function Advance(t: Timespec, millis: nat): Timespec {
    var nsec := t.nsec + millis * NANOS_PER_MILLI;
    if nsec >= NANOS_PER_SECOND
    then Timespec(t.sec + nsec / NANOS_PER_SECOND, nsec % NANOS_PER_SECOND)
    else Timespec(t.sec, nsec)
  }

  /** Advancing never loses a nanosecond, whatever the fields were. */
  lemma AdvanceIsExact(t: Timespec, millis: nat)
    ensures Nanos(Advance(t, millis)) == Nanos(t) + millis * NANOS_PER_MILLI
  {
    var nsec := t.nsec + millis * NANOS_PER_MILLI;
    if nsec >= NANOS_PER_SECOND {
      assert nsec == (nsec / NANOS_PER_SECOND) * NANOS_PER_SECOND + nsec % NANOS_PER_SECOND;
    }
  }

  /** The result is normalised exactly when the summed nanosecond field is not negative. */
  lemma AdvanceNormalises(t: Timespec, millis: nat)
    ensures Normalised(Advance(t, millis)) <==> t.nsec + millis * NANOS_PER_MILLI >= 0
  {}

  /** On normalised timestamps the field-wise order is the order of total nanoseconds. */
  lemma AfterIsNanoOrder(t: Timespec, u: Timespec)
    requires Normalised(t) && Normalised(u)
    ensures After(t, u) <==> Nanos(t) > Nanos(u)
  {}
}
