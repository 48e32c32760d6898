/** The sender thread of the traffic generator, interleaved with any number of controllers.

    Each step is one program point of the sender loop, one locked write of a controller,
    one of its notifications, or a spurious wake-up. A run is any sequence of such actions;
    an action that is not possible leaves the state as it is. The synchronous and the
    asynchronous loop differ in one program point and share everything else. */
module Generator {
  import opened ControlInterface
  import opened Fragmentation
  import opened Time

  /** `current_mode` before the first mode check (`-1` as a 32-bit value); it also stands
      for the settings pointer that is still null. */
  const NO_MODE: uint32 := 0xFFFF_FFFF

  datatype Settings = Settings(
    serviceId: nat,
    priority: nat,
    address: string,
    port: nat,
    objectSize: uint32,
    deadline: uint32)

  datatype Config = Config(services: map<uint32, Settings>, synchronous: bool, limit: int)

  datatype Point =
    | OuterWait
    | ModeCheck
    | Prepare
    | PacketTest
    | InnerModeCheck
    | InnerWait
    | Send
    | AfterSend
    | EndObject
    | PeriodControl
    | PeriodClock
    | Closed

  /** The sender's local variables. `inUse` is the key of the settings pointer, `length` the length
      of the data message, and `room` the size of the buffer it is written to. */
  datatype Sender = Sender(
    point: Point,
    asleep: bool,
    current: uint32,
    inUse: uint32,
    local: Timespec,
    target: Timespec,
    number: nat,
    packet: nat,
    remaining: nat,
    payload: nat,
    length: nat,
    room: nat)

  /** What is fixed when an object begins. */
  datatype Object = Object(
    number: nat,
    mode: uint32,
    total: nat,
    bytes: nat,
    room: nat,
    slot: Timespec,
    base: Timespec,
    elapsed: nat)

  /** The header of one packet. `mode` names the settings it was built from, `payload` is the
      payload length in force, `length` how many bytes the socket is given, and `room` the size of
      the buffer they are taken from. */
  datatype Header = Header(number: nat, fragment: nat, total: nat, mode: uint32, payload: nat, length: nat, room: nat)

  /** The history of a run: objects begun and how many packets of each were sent, the
      packets with the settings their target endpoint came from and their send times, and
      the bookkeeping of the period grid. */
  datatype Log = Log(
    begun: seq<Object>,
    counts: seq<nat>,
    sent: seq<Header>,
    routes: seq<uint32>,
    stamps: seq<Timespec>,
    base: Timespec,
    elapsed: nat,
    armed: nat,
    rebases: nat)

  datatype State = State(shared: Shared, pending: set<nat>, tx: Sender, log: Log)

  datatype Action =
    | Run(now: Timespec)              // the sender executes its next program point
    | Write(controller: nat, notice: Notice)
    | Notify(controller: nat)
    | Spurious

  // ---------------------------------------------------------------- safety of the pointer

  predicate SettingsNeeded(p: Point) {
    !(p.OuterWait? || p.ModeCheck? || p.Closed?)
  }

  /** The settings pointer is never followed while null, and always leads into the map. */
  predicate Safe(cfg: Config, s: State) {
    && (s.tx.inUse == NO_MODE ==> s.tx.current == NO_MODE || s.tx.point == Closed)
    && (s.tx.inUse != NO_MODE ==> s.tx.inUse in cfg.services)
    && (SettingsNeeded(s.tx.point) ==> s.tx.inUse != NO_MODE)
    && (s.tx.asleep ==> s.tx.point == OuterWait || s.tx.point == InnerWait)
    && |s.log.begun| == |s.log.counts|
    && (s.tx.point.PacketTest? || s.tx.point.InnerModeCheck? || s.tx.point.InnerWait?
        || s.tx.point.Send? || s.tx.point.AfterSend? || s.tx.point.EndObject?
        ==> s.log.begun != [])
  }

  function Using(cfg: Config, s: State): Settings
    requires s.tx.inUse in cfg.services
  {
    cfg.services[s.tx.inUse]
  }

  // ---------------------------------------------------------------- steps

  predicate OuterGranted(c: Control) {
    c == ThreadTransmission
  }

  predicate InnerGranted(c: Control) {
    c == ThreadTransmission || c == ThreadFinishObject
  }

  /** The predicate of the wait the sender is at. */
  predicate Granted(s: State) {
    if s.tx.point == OuterWait then OuterGranted(s.shared.control)
    else s.tx.point == InnerWait && InnerGranted(s.shared.control)
  }

  function Goto(s: State, p: Point): State {
    s.(tx := s.tx.(point := p))
  }

  /** Take over `mode_global`: follow the pointer if the mode is configured, and consume a
      pending period update. */
  function SwitchMode(cfg: Config, s: State): State {
    var m := s.shared.mode;
    if m !in cfg.services then s.(tx := s.tx.(current := m))
    else if !s.shared.updatePeriod then s.(tx := s.tx.(current := m, inUse := m))
    else s.(shared := s.shared.(updatePeriod := false),
            tx := s.tx.(current := m, inUse := m, local := s.shared.periodStart),
            log := s.log.(base := s.shared.periodStart, elapsed := 0, rebases := s.log.rebases + 1))
  }

  function BeginObject(cfg: Config, s: State): State
    requires s.tx.inUse in cfg.services
  {
    var u := Using(cfg, s);
    var bytes := ObjectBytes(u.objectSize);
    var room := Max(s.tx.room, DatagramLength(bytes));
    var o := Object(s.tx.number, s.tx.inUse, PacketCount(u.objectSize), bytes, room,
                    s.tx.local, s.log.base, s.log.elapsed);
    s.(tx := s.tx.(point := PacketTest, packet := 0, remaining := bytes, payload := Min(bytes, MAX_PAYLOAD),
                   length := DatagramLength(bytes), room := room),
       log := s.log.(begun := s.log.begun + [o], counts := s.log.counts + [0]))
  }

  function Last<T>(xs: seq<T>): T
    requires xs != []
  {
    xs[|xs| - 1]
  }

  function SetLast(xs: seq<nat>, x: nat): seq<nat>
    requires xs != []
  {
    xs[..|xs| - 1] + [x]
  }

  function Transmit(s: State, now: Timespec): State
    requires s.log.begun != [] && s.log.counts != []
  {
    var o := Last(s.log.begun);
    var h := Header(s.tx.number, s.tx.packet, o.total, o.mode, s.tx.payload, s.tx.length, s.tx.room);
    s.(tx := s.tx.(point := AfterSend),
       log := s.log.(sent := s.log.sent + [h], routes := s.log.routes + [s.tx.inUse],
                     stamps := s.log.stamps + [now],
                     counts := SetLast(s.log.counts, Last(s.log.counts) + 1)))
  }

  function AfterTransmit(s: State): State {
    var size := Min(s.tx.remaining, MAX_PAYLOAD);
    s.(tx := s.tx.(point := if s.shared.stopThread then EndObject else PacketTest,
                   packet := s.tx.packet + 1,
                   payload := size,
                   remaining := if s.tx.remaining > size then s.tx.remaining - size else 0))
  }

  function FinishObject(cfg: Config, s: State): State
    requires s.tx.inUse in cfg.services
  {
    if cfg.limit > 0 && s.tx.number >= cfg.limit then Goto(s, Closed)
    else
      var t := s.(tx := s.tx.(number := s.tx.number + 1));
      if s.shared.stopThread then Goto(t, Closed)
      else t.(tx := t.tx.(point := PeriodControl, target := Advance(s.tx.local, Using(cfg, s).deadline)))
  }

  function EndPeriod(cfg: Config, s: State): State
    requires s.tx.inUse in cfg.services
  {
    s.(tx := s.tx.(point := OuterWait, local := s.tx.target),
       log := s.log.(elapsed := s.log.elapsed + Using(cfg, s).deadline))
  }

  function SenderStep(cfg: Config, s: State, now: Timespec): (r: State)
    requires Safe(cfg, s)
    ensures Safe(cfg, r)
  {
    if s.tx.asleep then s
    else match s.tx.point
      case OuterWait =>
        if Granted(s) then Goto(s, ModeCheck) else s.(tx := s.tx.(asleep := true))
      case ModeCheck =>
        if s.tx.current == s.shared.mode then Goto(s, Prepare)
        else if s.shared.mode in cfg.services then Goto(SwitchMode(cfg, s), Prepare)
        else Goto(SwitchMode(cfg, s), Closed)
      case Prepare =>
        BeginObject(cfg, s)
      case PacketTest =>
        if s.tx.packet >= PacketCount(Using(cfg, s).objectSize) then Goto(s, EndObject)
        else Goto(s, if cfg.synchronous then InnerWait else InnerModeCheck)
      case InnerModeCheck =>
        if s.tx.current == s.shared.mode then Goto(s, InnerWait)
        else if s.shared.mode in cfg.services then Goto(SwitchMode(cfg, s), InnerWait)
        else Goto(SwitchMode(cfg, s), EndObject)
      case InnerWait =>
        if Granted(s) then Goto(s, Send) else s.(tx := s.tx.(asleep := true))
      case Send =>
        Transmit(s, now)
      case AfterSend =>
        AfterTransmit(s)
      case EndObject =>
        FinishObject(cfg, s)
      case PeriodControl =>
        if s.shared.control == ThreadFinishObject then EndPeriod(cfg, s) else Goto(s, PeriodClock)
      case PeriodClock =>
        if After(s.tx.target, now) then Goto(s, PeriodControl) else EndPeriod(cfg, s)
      case Closed => s
  }

  function Wake(s: State): State {
    s.(tx := s.tx.(asleep := false))
  }

  function Arms(n: Notice): nat {
    if n.SetPeriod? && n.updatePeriod then 1 else 0
  }

  function Step(cfg: Config, s: State, a: Action): (r: State)
    requires Safe(cfg, s)
    ensures Safe(cfg, r)
  {
    match a
    case Run(now) => SenderStep(cfg, s, now)
    case Write(c, n) =>
      if c in s.pending then s
      else s.(shared := Apply(s.shared, n), pending := s.pending + {c},
              log := s.log.(armed := s.log.armed + Arms(n)))
    case Notify(c) =>
      if c in s.pending then Wake(s).(pending := s.pending - {c}) else s
    case Spurious => Wake(s)
  }

  function Steps(cfg: Config, s: State, acts: seq<Action>): (r: State)
    requires Safe(cfg, s)
    ensures Safe(cfg, r)
    decreases |acts|
  {
    if acts == [] then s else Steps(cfg, Step(cfg, s, acts[0]), acts[1..])
  }

  /** How many turns a run gives the sender. */
  function SenderTurns(acts: seq<Action>): nat {
    if acts == [] then 0 else (if acts[0].Run? then 1 else 0) + SenderTurns(acts[1..])
  }

  /** `n` turns of the sender at the same clock reading. */
  function Turns(cfg: Config, s: State, now: Timespec, n: nat): (r: State)
    requires Safe(cfg, s)
    ensures Safe(cfg, r)
    decreases n
  {
    if n == 0 then s else Turns(cfg, SenderStep(cfg, s, now), now, n - 1)
  }

  lemma {:induction false} TurnsAdd(cfg: Config, s: State, now: Timespec, m: nat, n: nat)
    requires Safe(cfg, s)
    ensures Turns(cfg, s, now, m + n) == Turns(cfg, Turns(cfg, s, now, m), now, n)
    decreases m
  {
    if m > 0 {
      TurnsAdd(cfg, SenderStep(cfg, s, now), now, m - 1, n);
    }
  }

  lemma {:induction false} StepsAppend(cfg: Config, s: State, acts: seq<Action>, more: seq<Action>)
    requires Safe(cfg, s)
    ensures Steps(cfg, s, acts + more) == Steps(cfg, Steps(cfg, s, acts), more)
    decreases |acts|
  {
    if acts == [] {
      assert acts + more == more;
    } else {
      assert (acts + more)[1..] == acts[1..] + more;
      StepsAppend(cfg, Step(cfg, s, acts[0]), acts[1..], more);
    }
  }

  lemma StepsOne(cfg: Config, s: State, a: Action)
    requires Safe(cfg, s)
    ensures Steps(cfg, s, [a]) == Step(cfg, s, a)
  {
    assert [a][1..] == [];
  }

  lemma StepsTwo(cfg: Config, s: State, a: Action, b: Action)
    requires Safe(cfg, s)
    ensures Steps(cfg, s, [a, b]) == Step(cfg, Step(cfg, s, a), b)
  {
    var t := Step(cfg, s, a);
    assert [b][1..] == [] && Steps(cfg, t, [b]) == Step(cfg, t, b);
    assert [a, b][1..] == [b];
  }

  /** A run in which the sender alone takes `n` turns. */
  function Alone(now: Timespec, n: nat): seq<Action> {
    if n == 0 then [] else [Run(now)] + Alone(now, n - 1)
  }

  lemma {:induction false} AloneIsTurns(cfg: Config, s: State, now: Timespec, n: nat)
    requires Safe(cfg, s)
    ensures Steps(cfg, s, Alone(now, n)) == Turns(cfg, s, now, n)
    decreases n
  {
    if n > 0 {
      assert Alone(now, n)[1..] == Alone(now, n - 1);
      AloneIsTurns(cfg, SenderStep(cfg, s, now), now, n - 1);
    }
  }

  /** The state in which the sender thread starts. Neither the control field nor
      `local_timestamp` is initialised by the source, so both are arbitrary. */
  function Start(control: Control, local: Timespec): State {
    State(Shared(control, 0, Timespec(0, 0), false, false), {},
          Sender(OuterWait, false, NO_MODE, NO_MODE, local, Timespec(0, 0), 1, 0, 0, 0, 0, 0),
          Log([], [], [], [], [], local, 0, 0, 0))
  }
}
