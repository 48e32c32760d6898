/** The synchronous sender loop: a mode is chosen between objects and kept for all packets
    of the object. */
module SynchronousLoop {
  import opened ControlInterface
  import opened Generator
  import opened PacketStream
  import opened Time

  /** How far the last object has come. Only `stop_thread` can leave it short. */
  predicate LastOk(s: State)
    requires s.log.begun != [] && s.log.counts != []
  {
    var n := Last(s.log.begun).total;
    var c := Last(s.log.counts);
    && c <= n
    && (s.tx.point.InnerWait? || s.tx.point.Send? ==> s.tx.packet < n)
    && (s.tx.point.EndObject? || s.tx.point.Closed? ==> c == n || s.shared.stopThread)
    && (!InObject(s.tx.point) && !s.tx.point.Closed? ==> c == n)
  }

  /** The part of the invariant that speaks of the recorded objects and packets. */
  predicate SyncLogOk(s: State) {
    && |s.log.begun| == |s.log.counts|
    && |s.log.routes| == |s.log.sent|
    && (forall i :: 0 <= i < |s.log.routes| ==> s.log.routes[i] == s.log.sent[i].mode)
    && (forall i :: 0 <= i < |s.log.begun| - 1 ==> s.log.counts[i] == s.log.begun[i].total)
  }

  ghost predicate SyncInv(cfg: Config, s: State) {
    && cfg.synchronous
    && StreamInv(cfg, s)
    && !s.tx.point.InnerModeCheck?
    && SyncLogOk(s)
    && (!s.tx.point.Closed? ==> s.tx.current == s.tx.inUse)
    && (InObject(s.tx.point) ==> s.tx.inUse == Last(s.log.begun).mode)
    && (s.log.begun != [] ==> LastOk(s))
  }

  lemma SyncLogStep(cfg: Config, s: State, now: Timespec)
    requires SyncInv(cfg, s) && !s.tx.asleep
    ensures SyncLogOk(SenderStep(cfg, s, now))
  {
    if !(s.tx.point.Prepare? || s.tx.point.Send? || s.tx.point.AfterSend?) {
      QuietSame(cfg, s, now);
    }
  }

  lemma SyncSenderStep(cfg: Config, s: State, now: Timespec)
    requires SyncInv(cfg, s) && !s.tx.asleep
    requires s.tx.point.Prepare? || s.tx.point.Send? || s.tx.point.AfterSend?
    ensures SyncInv(cfg, SenderStep(cfg, s, now))
  {
    StreamStep(cfg, s, Run(now));
    SyncLogStep(cfg, s, now);
  }

  lemma SyncQuietStep(cfg: Config, s: State, now: Timespec)
    requires SyncInv(cfg, s) && !s.tx.asleep
    requires !(s.tx.point.Prepare? || s.tx.point.Send? || s.tx.point.AfterSend?)
    ensures SyncInv(cfg, SenderStep(cfg, s, now))
  {
    StreamStep(cfg, s, Run(now));
    SyncLogStep(cfg, s, now);
    QuietSame(cfg, s, now);
    SyncQuietMoves(cfg, s, now);
  }

  /** How the sender moves between points that neither begin an object nor send. */
  lemma SyncQuietMoves(cfg: Config, s: State, now: Timespec)
    requires Safe(cfg, s) && cfg.synchronous && !s.tx.asleep && !s.tx.point.InnerModeCheck?
    requires !(s.tx.point.Prepare? || s.tx.point.Send? || s.tx.point.AfterSend?)
    requires !s.tx.point.Closed? ==> s.tx.current == s.tx.inUse
    ensures var r := SenderStep(cfg, s, now);
      && !r.tx.point.InnerModeCheck? && r.tx.packet == s.tx.packet && r.shared.stopThread == s.shared.stopThread
      && (!r.tx.point.Closed? ==> r.tx.current == r.tx.inUse)
      && (InObject(r.tx.point) ==> InObject(s.tx.point) && r.tx.inUse == s.tx.inUse)
  {}

  lemma SyncStep(cfg: Config, s: State, a: Action)
    requires SyncInv(cfg, s)
    ensures SyncInv(cfg, Step(cfg, s, a))
  {
    if a.Run? && !s.tx.asleep {
      if s.tx.point.Prepare? || s.tx.point.Send? || s.tx.point.AfterSend? {
        SyncSenderStep(cfg, s, a.now);
      } else {
        SyncQuietStep(cfg, s, a.now);
      }
    } else {
      StreamStep(cfg, s, a);
    }
  }

  lemma {:induction false} SyncRuns(cfg: Config, s: State, acts: seq<Action>)
    requires SyncInv(cfg, s)
    ensures SyncInv(cfg, Steps(cfg, s, acts))
    decreases |acts|
  {
    if acts != [] {
      SyncStep(cfg, s, acts[0]);
      SyncRuns(cfg, Step(cfg, s, acts[0]), acts[1..]);
    }
  }

  lemma SyncStart(cfg: Config, control: Control, local: Timespec)
    requires cfg.synchronous
    ensures SyncInv(cfg, Start(control, local))
  {}

  /** In every run, all packets of one object are built from the settings of a single mode
      and sent to that mode's endpoint, and the mode is the one fixed when the object began. */
  lemma ObjectAtomicity(cfg: Config, control: Control, local: Timespec, acts: seq<Action>, i: nat, j: nat)
    requires cfg.synchronous
    requires i < |Steps(cfg, Start(control, local), acts).log.sent|
    requires j < |Steps(cfg, Start(control, local), acts).log.sent|
    requires var log := Steps(cfg, Start(control, local), acts).log; log.sent[i].number == log.sent[j].number
    ensures var log := Steps(cfg, Start(control, local), acts).log;
      && |log.routes| == |log.sent|
      && log.routes[i] == log.routes[j] == log.sent[i].mode == log.sent[j].mode
      && 1 <= log.sent[i].number <= |log.begun|
      && log.sent[i].mode == log.begun[log.sent[i].number - 1].mode
      && log.sent[i].total == log.sent[j].total
  {
    SyncStart(cfg, control, local);
    SyncRuns(cfg, Start(control, local), acts);
    EveryRunStreams(cfg, control, local, acts);
    var log := Steps(cfg, Start(control, local), acts).log;
    assert InOrder(log.begun, log.counts, log.sent, i);
    assert InOrder(log.begun, log.counts, log.sent, j);
  }

  /** In every run, every object but the last is sent completely, and the last one is cut
      short only by `stop_thread` or because the run ends inside it. */
  lemma OnlyLastTruncated(cfg: Config, control: Control, local: Timespec, acts: seq<Action>, k: nat)
    requires cfg.synchronous
    requires k < |Steps(cfg, Start(control, local), acts).log.begun|
    ensures var s := Steps(cfg, Start(control, local), acts);
      && |s.log.counts| == |s.log.begun|
      && s.log.counts[k] <= s.log.begun[k].total
      && (s.log.counts[k] < s.log.begun[k].total
          ==> k == |s.log.begun| - 1 && (s.shared.stopThread || InObject(s.tx.point)))
      && (forall f :: 0 <= f < s.log.counts[k] ==> HeaderOf(s.log.begun[k], f) in s.log.sent)
  {
    SyncStart(cfg, control, local);
    SyncRuns(cfg, Start(control, local), acts);
    var s := Steps(cfg, Start(control, local), acts);
    forall f | 0 <= f < s.log.counts[k] ensures HeaderOf(s.log.begun[k], f) in s.log.sent {
      StreamComplete(s.log.begun, s.log.counts, k, f);
    }
  }
}
