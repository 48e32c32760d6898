# TANOS resource management: a verified model

TANOS moves distributed traffic sources and switches from one network mode to another at
agreed timestamps. This project models the parts that have to agree for that to work, and
proves what they promise together:

- **The traffic generator** (`Time`, `Fragmentation`, `ControlInterface`, `Generator`,
  `PacketStream`, `Delivery`, `SynchronousLoop`, `AsynchronousLoop`, `ControlSafety`,
  `FinishObject`, `Stopping`, `PeriodGrid`, `SenderThread`). A sender thread fragments objects
  into packets, waits on a condition variable, changes mode and keeps a period grid, while
  controllers write the shared fields.
  `Generator` is the interleaved step system; every theorem is about all its runs.
  `SenderThread` is the thread as the nested loops it is written as, and is proved to do
  exactly what the step system does.
- **The timed handlers and the dispatch loop** (`Polling`, `Dispatch`, `Protocol`). Polling loops
  over an arbitrary sequence of clock readings, and the acknowledgement protocol around them. Messages
  taken, acknowledgements, generator calls and script runs are noted in one trace when they
  happen, and the protocol's laws are about that trace.
- **The end-to-end result** (`HandlerSystem`, `ModeChange`, `ModeTakesEffect`, `EndToEnd`). A
  two-target handler interleaved with the sender over one clock that never runs backwards: when
  packets of the new mode may be sent, for one order and for any number of them, that they will
  be, how little is sent during a pause, and that datagram and handler are the ones of the codecs
  and the dispatch loop.
- **The codecs** (`Bytes`, `MessageNet`, `ControlMessage`, `Payload`, `DataMessage`).
- **The queue** between receiver and dispatch loop (`SafeQueue`) and **the identifiers**
  (`Uuid`).

## Modelling choices

- A locked section is one step, the `notify_one` behind it another one. The mode check reads
  the shared fields without the lock in the source; here it is one step. Every other
  read of a shared field, and every reading of the clock, is alone in its step.
- Clocks are parameters: each poll is handed its reading. Readings are arbitrary except in
  `HandlerSystem` and the modules on it, where sender and handler share one nondecreasing clock.
  A run that ends while a loop is polling is a loop that has not returned.
- Neither the control field nor `local_timestamp` is initialised by the source, so every
  theorem about runs holds for all their initial values.
- Modes are bytes, as they are in the control message; `current_mode` starts at 2^32 - 1, so
  it never equals one of them and the settings pointer is always set before its first use.
- 32-bit products wrap as in the source. Signed 64-bit durations and timestamps are bounded
  where they are encoded.
- The availability check of the receiver never assigns its result
  (`src/rscmng/rm_abstraction.cpp:170-183`); the dispatch loop is proved for every sequence of
  answers.
- The settings map is an arbitrary finite map. `log` in the generator state is history only:
  no step reads it to decide anything.
- The inner mode check of the asynchronous loop is the only program point the two loops do
  not share.

## Findings

Properties one might expect that do not hold, each with the exact condition under which they
do:

- The packet count is the ceiling of size over 1427 exactly for sizes up to 4194302 KB; from
  4194303 KB on the 32-bit rounding wraps (`Fragmentation.PacketCountExact`).
- The payload size installed after a send is that of the fragment just sent, so the payload
  lengths in force lag by one. They add up to the object exactly if it fits one packet or fills
  all its packets (`Fragmentation.SumInForceExactly`); an object of 2 KB does neither
  (`Fragmentation.InForceExceeds`).
- How many bytes of a packet go out does not follow the payload length: the constructor fixes
  the datagram at 41 bytes plus the first payload size. A receiver that goes by the declared
  49-byte header therefore gets, for every packet, eight payload bytes less than that size. An
  object sent with all its packets brings at least its bytes exactly if it has more than one
  packet (or none) and its last packet leaves at least eight unused bytes for each
  (`Fragmentation.DeliveredExactly`, `Delivery.ObjectArrives`). Nothing above 246 KB does; an
  object of 1024 KB arrives 5611 bytes short (`Fragmentation.LargeObjectsArriveShort`).
- The generator's send buffer has the length the constructors count, while `dataToNet` writes the
  whole image. In every run, a packet of an object's own fragments fits the buffer exactly if the
  object has 1024 bytes and an earlier one had at least 2048 (`Delivery.ImageFitsExactly`);
  otherwise its last eight bytes lie beyond the buffer's size. What goes out lies within it.
- A start message for the mode already in use leaves its period update pending. A later change
  by `notify_generator_mode_change`, which carries no timestamp, moves the grid exactly if an
  update is pending when it is written, in both loops and at both checks
  (`PeriodGrid.PlainModeChangeKeepsGrid`); such a run exists for both
  (`PeriodGrid.StaleUpdateMovesGrid`).
- The asynchronous loop meeting an unknown mode inside an object ends that object only and
  sends on with the old settings, whereas the check before an object closes the thread
  (`AsynchronousLoop.UnknownModeKeepsSending`, `AsynchronousLoop.UnknownModeReached`).
- The join in `stop` returns exactly if the sender, when `stop` is called, is past its last wait
  (sending, behind the send, at the object's end, closed), or can pass the next one by: it has
  no packet left or none to send, or it will meet an unknown mode first
  (`Stopping.StopEndsExactly`). From the outer wait, the wait for a packet and the period wait
  it never returns (`Stopping.StopHangs`).
- A two-target handler can fire its second target without the first, exactly if the second
  can fire at a reading not yet beyond the first (`Polling.SecondAloneExactly`). With the
  targets in order it cannot (`Polling.FiringOrder`).
- A datagram decodes independently of the reused message exactly if it is at least a header,
  34 bytes, long (`ControlMessage.IndependentExactly`).
- The payload array takes a datagram exactly if that is at most 1058 bytes long, less than the
  1472 the receiver accepts (`ControlMessage.FitsExactly`).
- The constructors of `DataMessage` set a length eight bytes short of the layout, since they
  leave out `time_stamp`; a receiver with the declared header loses the last eight payload
  bytes (`DataMessage.ConstructedLengthCutsPayload`).
- An add needs one byte more than it writes, although its documentation only speaks of not
  enough space: a list of adds succeeds as a whole exactly if it leaves a byte unused
  (`MessageNet.AllAccepted`).

## Model

| member | source | states |
|---|---|---|
| `ModeChange.TimedModeChange` | `examples/wired_basic/wired_rm_client_endnode.cpp:681-748` | In every interleaving of handler and synchronous sender, a packet of the ordered mode is sent strictly after the start timestamp and not before its object's slot; object k of the mode has its slot exactly at start + k deadlines in nanoseconds; the mode is not left again. |
| `ModeChange.TimedModeChanges` | `examples/wired_basic/wired_rm_client_endnode.cpp:681-748` | The same for any number of orders one after another, with any other actions between them: in the episode of each order for a mode not in use. |
| `ModeChange.ModeChangeHappens` | `src/rscmng/traffic_generator.cpp:209-402` | From the outer wait, if the targets are set, ordered and have a later reading in their second, some run of handler and sender does send a packet of the ordered mode. |
| `ModeTakesEffect.ModeChangeTakesEffect` | `src/rscmng/traffic_generator.cpp:209-402` | In every run in which the handler has made its start call, from any program point of a sender that is live, not stopped and not at its last object: once its period is over, every continuation with a number of sender turns known from the state sends a packet of the ordered mode. |
| `ModeTakesEffect.TurnBrings` | `src/rscmng/traffic_generator.cpp:209-402` | Once the mode is installed, each sender turn sends the packet or lowers the number of turns left. |
| `EndToEnd.OrderedModeChange` | `examples/wired_basic/wired_rm_client_endnode.cpp:681-748` | From the manager's parameters to the packets: the datagram, decoded into any reused object, orders what was written; the handler's calls in the interleaved system are those of the dispatch loop for the same readings; every packet of the mode is on time. |
| `HandlerSystem.HandlerFollowsRuns` | `examples/wired_basic/wired_rm_client_endnode.cpp:703-745` | In every run the handler is where the two-target loop is after the readings it made, and has made or owes exactly that loop's calls. |
| `HandlerSystem.HardwarePause` | `examples/wired_basic/wired_rm_client_endnode.cpp:402-445` | From the write of the HW handler's PAUSED, as long as that is its last call, at most one packet is sent in any interleaving, the one already past its check; what may follow is TRANSMISSION. |
| `HandlerSystem.ObeysAsSteps` | `src/rscmng/traffic_generator.cpp:209-402` | Every run of handler and sender is a run of the step system, so all results about runs apply to it. |
| `EndToEnd.HardwareOnRecord` | `examples/wired_basic/wired_rm_client_endnode.cpp:384-448` | The HW handler in the interleaved system makes the calls of the dispatch loop for its readings. |
| `ModeChange.ChangeRuns` | `examples/wired_basic/wired_rm_client_endnode.cpp:703-745` | The invariant linking owed calls, shared fields, sender position and history survives every run. |
| `ModeChange.NewModeSlots` | `src/rscmng/traffic_generator.cpp:365-402` | From its first object on the new mode is kept, on the base of the order, one deadline further per object. |
| `ModeChange.PassOwes` | `examples/wired_basic/wired_rm_client_endnode.cpp:703-745` | One pass owes at most FINISH_OBJECT then TRANSMISSION, and the latter only at a reading beyond the start timestamp, with the loop ended. |
| `SynchronousLoop.ObjectAtomicity` | `src/rscmng/traffic_generator.cpp:209-351` | Packets with the same object number share settings, endpoint and fragment total, those of the mode fixed when the object began, under any concurrent notifications. |
| `SynchronousLoop.OnlyLastTruncated` | `src/rscmng/traffic_generator.cpp:344-363` | Every object but the last goes out whole; the last is short only by `stop_thread` or because the run ends inside it. |
| `PacketStream.EveryRunStreams` | `src/rscmng/traffic_generator.cpp:273-363` | Both loops: packets are those of objects 1, 2, 3, ..., fragments contiguous from 0, each directly after its predecessor, never more than the largest configured count, at most `auto_traffic_termination` objects, every route configured. |
| `PacketStream.StreamRuns` | `src/rscmng/traffic_generator.cpp:299-351` | The invariant that ties counters, remaining bytes and size in force to the packets sent survives every run of either loop. |
| `PacketStream.StreamInOrder` | `src/rscmng/traffic_generator.cpp:317-320` | In a stream every packet is preceded by the previous fragment of its object or starts a later one. |
| `PacketStream.StreamComplete` | `src/rscmng/traffic_generator.cpp:299-320` | No fragment up to the count sent is missing from the stream. |
| `AsynchronousLoop.SettingsInUse` | `src/rscmng/traffic_generator.cpp:556-607` | Settings in use are always configured, and are those of the current mode if and only if that mode is configured. |
| `AsynchronousLoop.UnknownModeKeepsSending` | `src/rscmng/traffic_generator.cpp:564-572` | An unknown mode inside an object ends the object; the next one is sent with the old settings. |
| `AsynchronousLoop.UnknownModeReached` | `src/rscmng/traffic_generator.cpp:556-572` | Such a state is reached from the start of a one-mode configuration. |
| `AsynchronousLoop.ObjectEnds` | `src/rscmng/traffic_generator.cpp:556-659` | While the control field holds TRANSMISSION or FINISH_OBJECT, an object ends within a bounded number of sender turns whatever modes are installed meanwhile. |
| `AsynchronousLoop.PacketFollowsCheck` | `src/rscmng/traffic_generator.cpp:558-622` | A configured mode found inside an object takes effect with the next packet: it goes to that mode's endpoint, whatever is written after the check. |
| `FinishObject.FinishObjectFinishes` | `src/rscmng/traffic_generator.cpp:301-307` | From every state a run reaches inside an object, awake, with FINISH_OBJECT kept in the control field, the sender comes to the object's end within a known number of turns; in the synchronous loop, unless stopped, with all its packets sent. |
| `FinishObject.PeriodCutShort` | `src/rscmng/traffic_generator.cpp:379-385` | FINISH_OBJECT ends the period wait within two turns for any readings, and the grid moves to the target. |
| `FinishObject.PeriodTurnExactly` | `src/rscmng/traffic_generator.cpp:387-393` | With any other control value a turn ends the wait exactly if it tests the clock and the reading is not before the target. |
| `FinishObject.PeriodLasts` | `src/rscmng/traffic_generator.cpp:379-394` | Without FINISH_OBJECT the wait lasts as long as the readings lie before the target, and nothing is sent. |
| `FinishObject.PeriodEndsByClock` | `src/rscmng/traffic_generator.cpp:387-402` | Once no reading lies before the target the wait ends within two turns, whatever is written. |
| `AsynchronousLoop.MeasureDrops` | `src/rscmng/traffic_generator.cpp:556-659` | Each permitted turn inside an object lowers the measure built on the largest packet count of all modes. |
| `ControlSafety.Drain` | `src/rscmng/traffic_generator.cpp:211-216` | After the control field leaves TRANSMISSION and until it returns, only the admitted object's packets are sent and no other object begins; without an admitted object nothing is sent. |
| `ControlSafety.DrainBudget` | `src/rscmng/traffic_generator.cpp:299-351` | Draining sends at most what the admitted object's packet count (asynchronous: the largest one) still leaves. |
| `ControlSafety.Pause` | `src/rscmng/traffic_generator.cpp:301-314` | After any control value but TRANSMISSION and FINISH_OBJECT at most one packet is sent, the one already past its check. |
| `ControlSafety.NoLostWakeUp` | `src/rscmng/traffic_generator.cpp:98-139` | Whenever the sender sleeps with TRANSMISSION set, or at the packet wait with FINISH_OBJECT, some controller is between its write and its notification, and that notification wakes it. |
| `ControlSafety.StopLeavesWaiterWaiting` | `src/rscmng/traffic_generator.cpp:83-92` | While no write permits transmission, whatever else is written, a stopped sender stays in the outer wait. |
| `Stopping.StopEndsExactly` | `src/rscmng/traffic_generator.cpp:83-92` | For `stop` called anywhere in a run and nothing written after it: the sender ends if and only if its program point and the modes at the call let it pass its next wait by, and then within six turns. |
| `Stopping.StopHangs` | `src/rscmng/traffic_generator.cpp:83-92` | From the outer wait, the packet wait and both points of the period wait it never ends. |
| `PeriodGrid.NoDrift` | `src/rscmng/traffic_generator.cpp:365-402` | `local_timestamp` is the last base plus the exact sum of deadlines since, normalised if the base is; no more bases are taken over than updates were requested. |
| `PeriodGrid.BaseMovesOnlyOnModeChange` | `src/rscmng/traffic_generator.cpp:219-266` | The base moves only at a check that installs a different configured mode with the update flag set, and this clears the flag. |
| `PeriodGrid.PlainModeChangeKeepsGrid` | `src/rscmng/traffic_generator.cpp:112-122` | A change without timestamp, taken over by either loop at either check after any turns, keeps the base if and only if no update is pending when it is written; otherwise the base is the stale one. |
| `PeriodGrid.StaleUpdateMovesGrid` | `src/rscmng/traffic_generator.cpp:128-139` | For both loops and any two start timestamps there is a run in which the second start for the mode in use stays pending and a later change without timestamp puts the sender on it. |
| `PeriodGrid.SlotDistance` | `src/rscmng/traffic_generator.cpp:365-402` | Objects i and j of an unbroken stretch of one mode have slots exactly j - i deadlines apart. |
| `Generator.Step` | `src/rscmng/traffic_generator.cpp:203-234` | No step of sender or controller follows a null settings pointer or leaves the map. |
| `SenderThread.SenderThread.SendObjects` | `src/rscmng/traffic_generator.cpp:209-404` | The nested loops of the thread end in exactly the state the step system reaches on the same schedule. |
| `SenderThread.SenderThread.PacketLoop` | `src/rscmng/traffic_generator.cpp:299-351` | The packet loop, of both variants, follows the step system to the end of the object. |
| `SenderThread.SenderThread.CheckMode` | `src/rscmng/traffic_generator.cpp:219-270` | The mode check follows the step system, to the known or the unknown branch. |
| `SenderThread.SenderThread.AwaitPermission` | `src/rscmng/traffic_generator.cpp:211-216` | The wait loop follows the step system, and returns only with its predicate true, through any wake-ups. |
| `SenderThread.SenderThread.SendPacket` | `src/rscmng/traffic_generator.cpp:309-314` | Sending follows the step system. |
| `SenderThread.SenderThread.NextPacket` | `src/rscmng/traffic_generator.cpp:317-347` | The counter updates behind the send and the stop test follow the step system. |
| `SenderThread.SenderThread.PeriodTest` | `src/rscmng/traffic_generator.cpp:381-393` | The two tests of the period wait follow the step system. |
| `SenderThread.SenderThread.PeriodLoop` | `src/rscmng/traffic_generator.cpp:379-402` | The period wait ends by FINISH_OBJECT or by a reading not before the target, and moves the grid. |
| `Time.AdvanceIsExact` | `src/rscmng/traffic_generator.cpp:365-371` | The carry arithmetic adds exactly the deadline in nanoseconds. |
| `Time.AdvanceNormalises` | `src/rscmng/traffic_generator.cpp:365-371` | The result is normalised if and only if the summed nanosecond field is not negative. |
| `Time.AfterIsNanoOrder` | `src/rscmng/traffic_generator.cpp:389-390` | The two-field comparison is the order of total nanoseconds. |
| `Fragmentation.PacketCountExact` | `src/rscmng/traffic_generator.cpp:185` | The packet count is the ceiling if and only if the size is at most 4194302 KB. |
| `Fragmentation.SizesWrap` | `src/rscmng/traffic_generator.cpp:185` | Byte size and packet count for every 32-bit size: they start over every 4194304 KB, and the count of the last size before that is zero. |
| `Fragmentation.WholeObject` | `src/rscmng/traffic_generator.cpp:311-335` | Computed sizes sum to the object; payload lengths in force sum to at least it and less than one packet more. |
| `Fragmentation.SumInForceExactly` | `src/rscmng/traffic_generator.cpp:311-335` | They sum to it exactly if and only if the object fits one packet or fills all its packets. |
| `Fragmentation.InForceExceeds` | `src/rscmng/traffic_generator.cpp:311-335` | At 2 KB they sum to 2854 bytes. |
| `Fragmentation.DeliveredExactly` | `src/rscmng/messages.cpp:255-256` | With the datagram length fixed from the first size, all packets of an object bring the packet count times that size less eight; that covers the object if and only if its last packet leaves eight unused bytes per packet and it is not a single one. |
| `Fragmentation.LargeObjectsArriveShort` | `src/rscmng/messages.cpp:255-256` | No object above 246 KB is covered; 1024 KB arrives 5611 bytes short. |
| `Delivery.WhatArrives` | `src/rscmng/traffic_generator.cpp:313-314` | Of a datagram of the given length, taken from the buffer the packet was written to, a receiver with the declared header gets all header fields and the payload that length leaves, whether or not the buffer took the whole image. |
| `Delivery.ObjectArrives` | `src/rscmng/traffic_generator.cpp:273-351` | In every run of either loop the packets of an object deliver an amount known from its size, and all of them together cover it exactly under the condition above. |
| `Delivery.ImageFitsExactly` | `src/rscmng/traffic_generator.cpp:289-293` | In every run of either loop a packet's datagram lies within the send buffer, and its whole image does if and only if the object has 1024 bytes and an earlier one at least 2048. |
| `Fragmentation.RemainingZeroAtLast` | `src/rscmng/traffic_generator.cpp:328-335` | `remaining_bytes` is zero exactly at the last fragment. |
| `Fragmentation.FragmentObject` | `src/rscmng/traffic_generator.cpp:273-351` | The loop sends packet-count fragments with the lagging sizes and, without wrap, ends with nothing remaining. |
| `ControlInterface.TrafficGenerator.NotifyGenerator` | `src/rscmng/traffic_generator.cpp:98-106` | New control value, everything else kept. |
| `ControlInterface.TrafficGenerator.NotifyGeneratorModeChange` | `src/rscmng/traffic_generator.cpp:112-122` | New mode and control value; base and update flag kept. |
| `ControlInterface.TrafficGenerator.NotifyGeneratorTimestamp` | `src/rscmng/traffic_generator.cpp:128-139` | New mode, base, update flag and control value. |
| `ControlInterface.TrafficGenerator.Stop` | `src/rscmng/traffic_generator.cpp:83-92` | STOP and the stop flag, noted in the trace. |
| `Polling.PollOne` | `examples/wired_basic/wired_rm_client_endnode.cpp:522-550` | A single-target loop ends at the first reading beyond its target, fires if and only if that reading lies in the target's second and the target is set, and otherwise has no effect. |
| `Polling.CheckMeans` | `examples/wired_basic/wired_rm_client_endnode.cpp:475-498` | The nested tests fire on readings beyond the target in its second and wait exactly while not beyond a target that is set. |
| `Polling.PollTwo` | `examples/wired_basic/wired_rm_client_endnode.cpp:703-745` | The two-target loop makes exactly the calls of its firings, in order, with their effect on the shared fields. |
| `Polling.FiringOrder` | `examples/wired_basic/wired_rm_client_endnode.cpp:402-445` | With ordered targets the firings are a prefix of first, second. |
| `Polling.FiredBeyondTarget` | `examples/wired_basic/wired_rm_client_endnode.cpp:402-445` | Nothing fires at a reading at or before its target. |
| `Polling.FiringWindows` | `examples/wired_basic/wired_rm_client_endnode.cpp:402-445` | What fires, exactly, for any two targets and any clock: each target in its window, the first only if its wait does not outlast the second's, the second only if the first did not miss its window. |
| `Polling.SecondAloneExactly` | `examples/wired_basic/wired_rm_client_endnode.cpp:703-745` | Some clock fires the second target alone if and only if the second can fire before the first is passed. |
| `Polling.PassesReturn` | `examples/wired_basic/wired_rm_client_endnode.cpp:703-745` | The loop returns at the latest at the first reading beyond the second target, for any targets. |
| `Polling.TwoTargetsReturn` | `examples/wired_basic/wired_rm_client_endnode.cpp:402-445` | It has returned exactly when the wait for the second target is over, or that for the first is and missed its window. |
| `Dispatch.ClientMain` | `examples/wired_basic/wired_rm_client_endnode.cpp:177-272` | The client's trace is that of the protocol on a prefix of the queue, known exactly from the availability checks and the messages, and keeps its laws; its calls have had their effect on the generator and nothing else has; the endnode's release comes last and once. |
| `Dispatch.ClientLaws` | `examples/wired_basic/wired_rm_client_endnode.cpp:177-268` | For every client, messages and clocks: confirmations are paired and messages taken in order of arrival, each once. |
| `Protocol.BlockExactly` | `examples/wired_basic/wired_rm_client_endnode.cpp:191-266` | What a served message adds to the trace, with the kinds that are acknowledged, handled and confirmed listed by number for both clients, and when the client stays active. |
| `Protocol.TraceHas` | `examples/wired_basic/wired_rm_client_switch.cpp:178-231` | In every client's trace RECEIVE stands exactly for the served messages of the listed kinds, RECONFIGURE_DONE exactly for those of the listed kinds whose handler returned. |
| `Dispatch.ServeQueue` | `examples/wired_basic/wired_rm_client_endnode.cpp:177-268` | The dispatch loop takes one message for each false check while there are any, in order, up to the first that ends the client or blocks its handler, and notes exactly the protocol's events. |
| `Dispatch.ServeOne` | `examples/wired_basic/wired_rm_client_endnode.cpp:191-266` | One message: the acknowledgement is noted before the first call of its handler, the confirmation after the last. |
| `Dispatch.HandleEndnode` | `examples/wired_basic/wired_rm_client_endnode.cpp:191-266` | Each kind's handler reacts as specified; its calls reach the trace and the generator's fields when they are made. |
| `Dispatch.EndnodeReacts` | `examples/wired_basic/wired_rm_client_endnode.cpp:310-376` | By the kinds' numbers: starts, stops, software changes and exits make their one literal call at once or exactly in the window of their own target; only the two exits leave, the timed one in its window; a timed kind returns exactly if its target is unset or passed; other kinds do nothing. |
| `Dispatch.HandlerReturns` | `examples/wired_basic/wired_rm_client_endnode.cpp:402-445` | When the two-target handlers return, exactly. |
| `Dispatch.HandleSwitch` | `examples/wired_basic/wired_rm_client_switch.cpp:162-233` | The same for the switch client and its scripts. |
| `Dispatch.SwitchReacts` | `examples/wired_basic/wired_rm_client_switch.cpp:272-430` | A switch runs the script of the mode exactly for a start or reconfiguration with mode 0, 1 or 10, a timed one exactly if the first reading beyond the kind's own target lies in the target's second; only an exit leaves, a timed one under the same condition. |
| `Dispatch.OneTargetReacts` | `examples/wired_basic/wired_rm_client_endnode.cpp:475-498` | A one-target handler acts exactly in its window and returns exactly if the target is unset or passed. |
| `Dispatch.HandlerCalls` | `examples/wired_basic/wired_rm_client_endnode.cpp:402-445` | For all targets and clocks: the HW handler's calls are PAUSED and TRANSMISSION, the sync-object SW handler's FINISH_OBJECT and TRANSMISSION, each in its window and in this order. |
| `Dispatch.DonesPaired` | `examples/wired_basic/wired_rm_client_endnode.cpp:223-249` | In the trace every RECONFIGURE_DONE directly follows the calls and scripts of its message, all of them and nothing else, and those directly follow its RECEIVE. |
| `Dispatch.ArrivalOrder` | `examples/wired_basic/wired_rm_client_endnode.cpp:183-268` | Message i is taken as the i-th, once, and every other event belongs to the message taken last. |
| `Dispatch.EachHandled` | `examples/wired_basic/wired_rm_client_switch.cpp:162-233` | Every message a live client takes stands in the trace as one block: taken, acknowledged, its effects, confirmed. |
| `Dispatch.NothingAfterExit` | `examples/wired_basic/wired_rm_client_endnode.cpp:251-272` | After an exit has taken effect nothing is handled. |
| `Dispatch.RmHandler` | `src/rscmng/rm_abstraction.cpp:149-164` | The receiver decodes datagrams into one reused object and enqueues its value each time, up to the first that the payload array does not take. |
| `Dispatch.Delivered` | `src/rscmng/rm_abstraction.cpp:149-192` | The queue gets exactly the messages sent, in order, whatever the object held. |
| `Dispatch.OrderArrives` | `examples/wired_basic/wired_rm_client_endnode.cpp:244-249` | An order survives both codecs: the handler waits for the ordered timestamps and installs the ordered mode. |
| `MessageNet.BufferLaw` | `include/rscmng/data_sharing/message_net.hpp:124-137` | A fresh buffer holds exactly the concatenation of the adds that succeeded, head and length at its end, below the capacity. |
| `MessageNet.ReadBack` | `include/rscmng/data_sharing/message_net.hpp:165-189` | Reset and reads of the same sizes return the accepted fields in order. |
| `MessageNet.AllAccepted` | `include/rscmng/data_sharing/message_net.hpp:124-137` | All adds of a list succeed if and only if together they leave a byte of the buffer unused (or there are none). |
| `MessageNet.MessageNet.Add` | `include/rscmng/data_sharing/message_net.hpp:124-137` | A failing add changes nothing. |
| `MessageNet.MessageNet.Read` | `include/rscmng/data_sharing/message_net.hpp:177-189` | A failing read changes neither head nor target. |
| `MessageNet.MessageNet.Copy` | `include/rscmng/data_sharing/message_net.hpp:54-63` | A copy has its own bytes, so reads on it leave the original alone. |
| `MessageNet.MessageNet.Clear` | `include/rscmng/data_sharing/message_net.hpp:154-159` | The written bytes are zeroed and the head reset. |
| `MessageNet.MessageNet.Reset` | `include/rscmng/data_sharing/message_net.hpp:165-168` | The head goes back to the start; bytes and length stay. |
| `MessageNet.MessageNet.Update` | `include/rscmng/data_sharing/message_net.hpp:144-148` | Head and length move behind bytes placed from outside; the bytes stay. |
| `ControlMessage.RoundTrip` | `src/rscmng/messages.cpp:117-143` | Decoding an encoded message gives it back whatever the target held. |
| `ControlMessage.FieldOffsets` | `src/rscmng/messages.cpp:117-128` | Each field of an encoded message at its byte offset. |
| `Bytes.EncodeByte` | `src/rscmng/messages.cpp:117-128` | Byte k of a scalar's image is its digit of weight 256^k. |
| `ControlMessage.IndependentExactly` | `src/rscmng/messages.cpp:131-143` | The result is independent of the target if and only if the datagram holds a header. |
| `ControlMessage.RMMessage.Wrap` | `src/rscmng/messages.cpp:86-110` | The constructor takes the buffer's bytes as payload, if the payload array takes them. |
| `ControlMessage.RMMessage.RmToNetwork` | `src/rscmng/messages.cpp:117-128` | The nine adds, each of which may fail. |
| `ControlMessage.RMMessage.NetworkToRm` | `src/rscmng/messages.cpp:131-143` | The nine reads into the reused fields, for every datagram that fits the payload array. |
| `ControlMessage.FitsExactly` | `src/rscmng/messages.cpp:141-142` | The payload fits if and only if the datagram is at most 1058 bytes long. |
| `ControlMessage.SendoutControlMessage` | `src/rscmng/rm_communication.cpp:68-81` | The datagram is the whole encoded message. |
| `ControlMessage.ReceiveControlMessage` | `src/rscmng/rm_communication.cpp:378-392` | The caller's object becomes the decoded datagram exactly if that fits the payload array. |
| `Payload.NestedRoundTrip` | `src/rscmng/protocol_rm_wired_payload.cpp:130-156` | Both codecs nested give back every parameter and timestamp, independent of all reused objects. |
| `Payload.ParseStream` | `src/rscmng/protocol_basic_payload.cpp:47-62` | Deserialising a serialised payload returns it. |
| `Payload.ParameterOffsets` | `src/rscmng/protocol_rm_wired_payload.cpp:130-140` | Each parameter of a serialised payload at its byte offset. |
| `Payload.NothingParsed` | `src/rscmng/protocol_rm_wired_payload.cpp:146-156` | An empty stream leaves every parameter as it was. |
| `Payload.RMPayload.Serialize` | `src/rscmng/protocol_rm_wired_payload.cpp:130-140` | Base fields, then command, timestamps and request, in this order. |
| `Payload.RMPayload.Deserialize` | `src/rscmng/protocol_rm_wired_payload.cpp:146-156` | The reads in the same order; fields whose read fails keep their values. |
| `Payload.ReadOrder` | `examples/wired_basic/wired_rm_client_endnode.cpp:185-189` | Re-adding a received payload to a buffer, resetting and parsing a copy yields the parameters of the payload. |
| `Payload.WriteOrder` | `src/rscmng/rm_communication.cpp:245-260` | Serialising and wrapping yields a message whose payload is the stream. |
| `DataMessage.PacketRoundTrip` | `src/rscmng/messages.cpp:262-293` | All eight header fields and the payload come back if and only if size and header length differ by the payload length. |
| `DataMessage.RangeAt` | `src/rscmng/messages.cpp:264-273` | Each range stands where the ranges before it end. |
| `DataMessage.ConstructedLengthCutsPayload` | `src/rscmng/messages.cpp:227-228` | With the constructed length the header survives and the payload loses its last eight bytes. |
| `DataMessage.DataMessage.DataToNet` | `src/rscmng/messages.cpp:262-275` | The nine copies produce the image and touch nothing behind it, exactly if the buffer takes it; of a shorter buffer, what lies within it is the front of the image. |
| `DataMessage.DataMessage.NetToData` | `src/rscmng/messages.cpp:277-293` | Nine reads, each where the one before it ends, give the packet at the fixed offsets, exactly if the size leaves a payload within both arrays. |
| `DataMessage.ReadRanges` | `src/rscmng/messages.cpp:282-289` | The running offsets of the eight header reads are the fixed ones. |
| `SafeQueue.NoLostWakeUp` | `include/rscmng/data_sharing/safe_queue.hpp:60-83` | In every run dequeued ++ contents = enqueued; while a consumer sleeps un-notified, as many notified consumers are still to run as there are values, and one of them takes the front. |
| `SafeQueue.RunKeeps` | `include/rscmng/data_sharing/safe_queue.hpp:60-83` | The monitor invariant survives every interleaving with spurious wake-ups. |
| `SafeQueue.DequeueExactly` | `include/rscmng/data_sharing/safe_queue.hpp:72-83` | One pass of the wait loop sleeps exactly on an empty queue and otherwise takes the front. |
| `SafeQueue.SafeQueue.Dequeue` | `include/rscmng/data_sharing/safe_queue.hpp:72-83` | The wait loop takes the front of the first non-empty queue it finds, and waits exactly as long as there is none. |
| `SafeQueue.SafeQueue.Enqueue` | `include/rscmng/data_sharing/safe_queue.hpp:60-65` | The value goes to the end. |
| `Uuid.ExtractionInvertsInsertion` | `include/rscmng/attributes/uuid.hpp:207-273` | Extraction of an inserted identifier gives it back, whatever follows but a digit. |
| `Uuid.ConstructorInvertsPrint` | `include/rscmng/attributes/uuid.hpp:76-92` | The string constructor inverts `print`. |
| `Uuid.DigitValues` | `include/rscmng/attributes/uuid.hpp:84-91` | The value of every hexadecimal digit in both cases. |
| `Uuid.FirstDigitHigh` | `include/rscmng/attributes/uuid.hpp:188-195` | The first of a byte's two digits is the more significant one. |
| `Uuid.DottedShape` | `include/rscmng/attributes/uuid.hpp:211-217` | Two digits for each byte, at three places each, with a dot between them. |
| `Uuid.LargeRefused` | `include/rscmng/attributes/uuid.hpp:246-259` | A number of three digits is refused on extraction. |
| `Uuid.StrictTotalOrder` | `include/rscmng/attributes/uuid.hpp:99-125` | `operator<` is irreflexive, asymmetric, transitive, and total up to `operator==`. |
| `Uuid.FirstDifference` | `include/rscmng/attributes/uuid.hpp:121-125` | The first differing byte decides the order. |
| `Uuid.UUID.FromHex` | `include/rscmng/attributes/uuid.hpp:76-92` | A text of the wrong length is refused; otherwise byte i is read from digits 2i and 2i + 1, into a local whose content is arbitrary. |
| `Uuid.UUID.Insert` | `include/rscmng/attributes/uuid.hpp:207-220` | Two lower-case digits per byte, separated by dots. |
| `Uuid.UUID.Extract` | `include/rscmng/attributes/uuid.hpp:229-273` | Assigns the bytes read up to the first fault and no others. |

## Left out

- `NetLayerRM` and `TimerManager`: the central scheduler's implementation is not part of this model, nor its timestamp arithmetic.
- Sockets, endpoint resolution, logging, file output, signal handlers, the pacing wait, thread creation and joining, and what a mode script does once started.
- Configuration reading: the settings map is arbitrary. The floating-point transmission estimate is only logged.
- `resource_request_struct` is 64 opaque bytes; no claim about what its vector member means after a transfer.
- Setters, `set_payload`, `send_rm_message`, `send_error`, `txParam` and the periodic payloads are not on the modelled paths.
- `TrafficSink`, which hands the decoder its buffer size instead of the received one, `SharedMap` and the unused request and reply handlers.
- `UUID_t`: `overwrite`, `get_host`, `get_prefix`, `get_value` and the host and process comparisons; also the stream's position and flags after a failed extraction.
- `MessageNet_t`: the constructor that wraps a foreign stream and assigns its parameter to itself; `operator=`, which does what the copy constructor does.
- Shared fields are read atomically: torn unlocked reads, and a mode check interrupted between two of its reads, are not covered.
- The client's wait without predicate on `cv_rm_notification` and its liveness.
- Object numbers and lengths do not wrap at 32 bits; a run of more than 2^32 objects would.
- Dispatch.RmHandler: what happens from a datagram on that the payload array does not take; the source then writes beyond it. `Dispatch.ClientMain` accordingly takes messages whose payload lies within the array.
- DataMessage.DataMessage.NetToData: the object after a size that leaves no payload within both arrays, where the source's subtraction wraps or its copy leaves them.
- Dispatch.ClientMain: the messages of a run are in the queue when the loop starts; `SafeQueue.NoLostWakeUp` covers their concurrent arrival. A signal that clears `active` is not an action.
- ModeChange.TimedModeChange: one order and one handler at a time, as the single dispatch loop of the client runs them; `ModeChange.TimedModeChanges` puts them one after another.
- ControlMessage.RMMessage.Wrap: streams longer than the payload array, which the source copies beyond it.
- DataMessage.DataMessage.DataToNet: bytes written beyond a buffer that is too short, and buffers shorter than a header.
