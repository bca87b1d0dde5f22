# Klipper core: a Dafny model

A model of the parts of Klipper in which host and micro-controller depend on each other's exact
behaviour, with proofs about every input, every run or every reachable state.

**The serial link.** `HostSpec` describes the host's transmit state (sequence numbers, sent queue, byte
counts, retransmit timer, command queues) as a value and each operation of
`klippy/chelper/serialqueue.c` as a function or relation on it. `SerialQueue` is the imperative code,
proved equal to these. `HostInvariants` shows that every operation keeps the books. `Link` joins the host
and the block handling of `src/command.c` by two first-in first-out channels that may lose any frame;
sequence numbers on the wire have four bits, and unbounded numbers are carried beside them as history
only. `LinkProofs` shows that every step keeps an invariant, `LinkTheorems` draws the conclusions for all
runs. `Framing`, `Vlq` and `Crc` are the bytes below: blocks in a stream, numbers in a block, checksums; `Wire`
joins them to the runs of the link.
`PollReactor` is the timer loop of the serial thread.

**The firmware core.** `Timer32` is the wrapping clock. `Scheduler` is the linked timer list of
`src/sched.c` with its periodic, sentinel and deleted timers; it takes any 32-bit waketime, late ones too. `Stepper` ties the registers of
`src/stepper.c` to a log of step edges and to the plan laid down by commands, in both scheduling modes.
`MovePool` is the node pool, `Trsync` and `Endstop` the triggered stop, `DigitalOut` the pin watchdog.

**Step generation.** `Moves` and `Trapq` are the move list, `StepCover` the walk that decides which
stretches of time go to the step solver, `Solver` the solver itself for an arbitrary position function,
`Shaper` and `Extruder` two position functions. `ToolHead` tracks print time. `Pipeline` runs toolhead
events through a trapezoid queue and a stepper and proves that the solver is given all the time in which
the stepper may move.

Arithmetic on times and positions is over `real`; 32-bit and 16-bit quantities of the firmware wrap
explicitly. History that the code does not keep (logs, plans, unwrapped times) is in ghost state or in
values that no decision reads.

Seven properties one might expect do not hold of the code without a condition. In each case the exact
condition is proved:

- A timer added from inside a timer callback stays live if and only if it is not due before the running
  timer, or that one sets a new time with which it stays first (`Scheduler.Sched.AddInCallback`). No callback
  in the C files of `src/` adds a timer.
- The walk of insert_timer from last_insert stops on the list if and only if last_insert is not behind the
  periodic timer, or the new time is not before that timer or is before last_insert
  (`Scheduler.Sched.DispatchReschedule`, `Scheduler.Sched.WalkRunsOff`). While the list is in order this is
  always so (`Scheduler.Sched.OrderedCompares`), and it stays in order in every run without late adds inside the
  half-range window (`Scheduler.Sched.RunOnTime`). Two late adds lead to a walk off the list
  (`Scheduler.WalkOff`).
- The stepper position is read back exactly if and only if, biased by 2^30, it is at most 2^31 modulo
  2^32 (`Stepper.Unfold`, `Stepper.OutOfRange`).
- Python's signed parse of a C encoding is exact if and only if the number is at least -2^26
  (`Vlq.SignedExact`).
- Adding a move leaves the queue gap-free if and only if it fits; a real move that starts at time 0 fools
  the limit on the first null move (`Trapq.AddedGapFree`, `Trapq.GapAfterTimeZero`).
- What a stepper needs is covered up to a flush if and only if its move list reaches back to the last flush
  or no active move needs time before the list begins (`StepCover.StepperKinematics.GenerateSteps`). In the
  whole pipeline this is always so (`Pipeline.Machine.Play`).
- A watched pin has its next event by the deadline if and only if that event, counted back from the end of the
  setting, lies no more than 2^31 ticks before the time of the next timer in the list, against which the scheduler
  compares it, or reads as a time by the deadline all the same (`DigitalOut.Output.LoadEvent`,
  `DigitalOut.TargetInTime`, `DigitalOut.Output.ToggleEvent`). A load on time whose pulses are at most 2^31 ticks
  long and whose next change is after it always meets it (`DigitalOut.Output.LoadToLoad`). One change that is past by
  almost 2^31 ticks defeats the watch (`DigitalOut.PastChangeEscapes`), and so does a longer pulse
  (`DigitalOut.LongPulseEscapes`).

The code and its messages disagree on late timers: `klippy/mcu.py` handles "Timer too close" as a shutdown,
while `src/sched.c` only moves the timer to two microseconds from now. The model follows `src/sched.c`.

## Model

| member | source | states |
|---|---|---|
| `LinkTheorems.AcceptedIsPrefixOfBuilt` | src/command.c:263-294 | in every run the accepted blocks are, in order and without repetition, a prefix of the blocks the host built |
| `LinkTheorems.FourBitsSuffice` | src/command.c:286-294 | every block in flight is within 12 of the expected number, so equal low bits mean equal numbers, and it carries the commands of the block with its number |
| `LinkTheorems.AcksAreExact` | klippy/chelper/serialqueue.c:263-277 | no reply is refused, and the number the host widens from four bits is exactly the number of blocks accepted when the reply was sent |
| `LinkTheorems.QueueOrderPreserved` | klippy/chelper/serialqueue.c:481-513 | per command queue, built, ready and stalled commands together are the submission order, and what is dispatched is a prefix of it |
| `LinkTheorems.NotificationsAreNotEarly` | klippy/chelper/serialqueue.c:281-296 | once block k is notified, it is finished, and no response sent while dispatching it is queued later or still in flight |
| `LinkTheorems.SamplesAreUnambiguous` | klippy/chelper/serialqueue.c:224-246 | round-trip samples come only from blocks transmitted exactly once (section 3 of RFC 6298) |
| `LinkTheorems.ResponseTimesAreUnambiguous` | klippy/chelper/serialqueue.c:306-314 | a nonzero send time on a response is that of a block transmitted exactly once |
| `LinkTheorems.BooksAreRight` | klippy/chelper/serialqueue.c:195-255 | in every reachable state: window of at most 12 blocks, byte counts equal the queue sums, the retransmit timer armed exactly while something is unacknowledged, its image within the buffer, rto within its bounds |
| `LinkTheorems.NakRetransmitsRaiseIgnore` | klippy/chelper/serialqueue.c:452-467 | a retransmit caused by a nak strictly raises ignore_nak_seq, which never passes send_seq |
| `LinkProofs.NextKeepsOk` | klippy/chelper/serialqueue.c:258-337 | every step of host, micro-controller or channel keeps the link invariant |
| `LinkProofs.RunOk` | klippy/chelper/serialqueue.c:619-646 | the link invariant holds after any run from a synchronised session, with any commands already waiting |
| `LinkProofs.WidenExact` | klippy/chelper/serialqueue.c:263-270 | inside the window the low four bits determine the acknowledged number |
| `LinkProofs.McuReceiveKeepsOk` | src/command.c:286-319 | accepting the expected block or answering another with a nak keeps the link invariant |
| `HostInvariants.SendBatchOk` | klippy/chelper/serialqueue.c:820-854 | submitting a batch keeps the host's books |
| `HostInvariants.UpdateReceiveSeqOk` | klippy/chelper/serialqueue.c:195-255 | an acknowledgement inside the window keeps the host's books |
| `HostInvariants.HandleMessageOk` | klippy/chelper/serialqueue.c:258-315 | any message keeps the host's books |
| `HostInvariants.RetransmitOk` | klippy/chelper/serialqueue.c:427-473 | a retransmission keeps the host's books and raises ignore_nak_seq after a nak |
| `HostInvariants.BuildsOk` | klippy/chelper/serialqueue.c:476-540 | building a block keeps the host's books |
| `HostInvariants.ChecksOk` | klippy/chelper/serialqueue.c:543-616 | deciding when to send keeps the host's books |
| `HostInvariants.EnqueueOk` | klippy/chelper/serialqueue.c:838-848 | a batch behind the stalled commands of its queue keeps the byte counts, and the queue is listed exactly once |
| `HostInvariants.SampleMeans` | klippy/chelper/serialqueue.c:224-246 | the smoothed round trip moves towards the sample and not past it, the timeout is not shorter than it unless at its limit, and a sample is used once |
| `HostInvariants.NakAnsweredOnce` | klippy/chelper/serialqueue.c:298-305 | a nak starts a retransmission only if it repeats the last acknowledgement beyond ignore_nak_seq with something unacknowledged, and not again after it |
| `HostInvariants.WindowHolds` | klippy/chelper/serialqueue.c:545-562 | a block is built only if twelve are not exceeded and, unless alone, all unacknowledged bytes fit the receive window |
| `HostInvariants.WakeIsEarlyEnough` | klippy/chelper/serialqueue.c:599-615 | when sending is put off, it is to after the line is idle, and need_kick_clock is not after any stalled head's min_clock nor any ready head's time less the margin, so no submission misses its wake-up |
| `SerialQueue.SerialQueue.UpdateReceiveSeq` | klippy/chelper/serialqueue.c:195-255 | the loop and the timer updates are the specified step of the host state |
| `SerialQueue.SerialQueue.DropAcked` | klippy/chelper/serialqueue.c:199-219 | exactly the acknowledged blocks leave sent_queue, with their bytes, and the last one's time is kept |
| `SerialQueue.SerialQueue.HandleMessage` | klippy/chelper/serialqueue.c:258-315 | a message is handled as specified, including the refused case |
| `SerialQueue.SerialQueue.Widened` | klippy/chelper/serialqueue.c:263-270 | the only number in the sixteen from receive_seq on that has the given low bits |
| `SerialQueue.SerialQueue.NotifyAcked` | klippy/chelper/serialqueue.c:281-296 | the notifications released are exactly the leading ones up to the wake number, in order |
| `SerialQueue.SerialQueue.RetransmitImage` | klippy/chelper/serialqueue.c:438-449 | the image is sent_queue in order, one sync byte longer than its blocks together |
| `SerialQueue.SerialQueue.RetransmitEvent` | klippy/chelper/serialqueue.c:427-473 | a retransmission writes all unacknowledged blocks in order and updates the timers as specified |
| `SerialQueue.SerialQueue.SendBatch` | klippy/chelper/serialqueue.c:820-854 | a batch is queued as specified and the books are kept |
| `SerialQueue.SerialQueue.SetMinClocks` | klippy/chelper/serialqueue.c:824-833 | min_clock is raised to within 2^31 of req_clock except for background commands; the byte total is right |
| `SerialQueue.SerialQueue.MostUrgentQueue` | klippy/chelper/serialqueue.c:482-496 | the queue found has a ready head with the least req_clock of all ready heads |
| `SerialQueue.SerialQueue.TakeReady` | klippy/chelper/serialqueue.c:500-512 | one command leaves the front of its queue, its bytes the count, and its notification is queued |
| `SerialQueue.SerialQueue.PackCommands` | klippy/chelper/serialqueue.c:480-513 | the commands packed come from queue fronts in priority order, and packing stops only when nothing is ready or the next does not fit |
| `SerialQueue.SerialQueue.BuildAndSendCommand` | klippy/chelper/serialqueue.c:476-540 | a block is built from packed commands and stored as specified; the books are kept |
| `SerialQueue.SerialQueue.ReleaseDue` | klippy/chelper/serialqueue.c:571-584 | exactly the leading stalled commands whose time has come become ready, in order |
| `SerialQueue.SerialQueue.ReleaseQueues` | klippy/chelper/serialqueue.c:568-597 | all queues are released, byte counts move along, and both minima are found |
| `SerialQueue.SerialQueue.CheckSendCommand` | klippy/chelper/serialqueue.c:543-616 | the decision and the released queues are as specified; the books are kept |
| `SerialQueue.SerialQueue.CommandEvent` | klippy/chelper/serialqueue.c:619-646 | the loop ends, is a sequence of specified steps that keep the books, and writes exactly the blocks it built, in order |
| `SerialQueue.SerialQueue.WriteOut` | klippy/chelper/serialqueue.c:629-638 | the blocks reach the wire and the line is busy as long as they take |
| `PollReactor.PollReactor.UpdateTimer` | klippy/chelper/pollreactor.c:91-98 | next_timer stays not later than any wake-up time |
| `PollReactor.PollReactor.CheckTimers` | klippy/chelper/pollreactor.c:100-125 | next_timer is never later than any wake-up time, whatever callbacks set; due timers are run; the sleep does not pass next_timer by more than a millisecond |
| `PollReactor.PollReactor.RunTimers` | klippy/chelper/pollreactor.c:104-119 | every timer that was due and that no other callback set is run |
| `Crc.NibblesAreSerial` | klippy/chelper/msgblock.c:24-28 | the nibble trick is eight steps of the bit-serial register of appendix C.2 of RFC 1662 |
| `Crc.Crc16Ccitt` | klippy/chelper/msgblock.c:18-31 | the C loop computes the bit-serial checksum, without final complement, of every buffer |
| `Crc.PyCrc16Ccitt` | klippy/msgproto.py:29-35 | the Python loop, which never cuts to 16 bits, gives the two bytes of the same checksum |
| `Crc.BurstDetected` | klippy/chelper/msgblock.c:18-31 | buffers that differ only inside two adjacent bytes never share a checksum |
| `Vlq.ParseInt` | klippy/chelper/msgblock.c:89-102 | the C parser is the unbounded parser modulo 2^32, and reads within the buffer |
| `Vlq.PyParse` | klippy/msgproto.py:48-61 | the Python parser is the unbounded parser, reduced for unsigned types, and raises an index error exactly if the bytes end before the number does |
| `Vlq.RoundTrip` | klippy/chelper/msgblock.c:72-86 | a C encoding parses to the signed number from -2^26 on and to the unsigned one below, using all and only its bytes |
| `Vlq.WordRoundTrip` | src/command.c:58-88 | C decodes its own encoding of every 32-bit word |
| `Vlq.PyRoundTrip` | klippy/msgproto.py:42-61 | Python decodes its own short encodings exactly and any other up to a multiple of 2^35 |
| `Vlq.PyToC` | klippy/msgproto.py:42-47 | C decodes Python's encoding of every integer to its value modulo 2^32 |
| `Vlq.SignedExact` | klippy/msgproto.py:48-63 | Python's signed parse of a C encoding is exact if and only if the number is at least -2^26 |
| `Vlq.AllocAndEncode` | klippy/chelper/msgblock.c:145-164 | the whole encoding is returned if it fits a payload, and nothing otherwise |
| `Framing.FrameGood` | src/command.c:193-202 | a block made around a payload is valid and carries its number and payload |
| `Framing.MessageRoundTrip` | klippy/chelper/msgblock.c:104-119 | encode, frame, check and decode return any list of words that fits, taking exactly the block |
| `Framing.Decode` | klippy/chelper/msgblock.c:104-119 | the loop on a checked block gives the words its payload decodes to, or nothing if their number is wrong |
| `Framing.Check` | klippy/chelper/msgblock.c:33-69 | the verdict never asks to take or skip more than the buffer holds, and asking for more data changes nothing |
| `Framing.DrainSplit` | klippy/chelper/serialqueue.c:368-386 | the messages of a stream are those of any first part and those of the rest read with its left-over |
| `Framing.ChunksDoNotMatter` | klippy/chelper/serialqueue.c:341-387 | reading a stream in any chunks finds the messages of the whole stream |
| `Framing.LeftIsShort` | klippy/chelper/serialqueue.c:368-386 | what the host leaves over is always under 64 bytes |
| `Framing.BlocksAreFound` | klippy/chelper/msgblock.c:33-69 | a stream of valid blocks is taken apart into exactly these blocks |
| `Framing.HostInput.InputEvent` | klippy/chelper/serialqueue.c:368-386 | the loop delivers what the specification finds, and every byte is delivered, left over or counted invalid |
| `Framing.FindBlock` | src/command.c:260-321 | no more than the buffer is taken, and nothing changes while data is missing |
| `Framing.ParseSplit` | src/command.c:260-321 | on the micro-controller, events, state and left-over bytes are the same however the stream is cut |
| `Framing.GarbageNakedOnce` | src/command.c:299-320 | at most one nak for garbage is sent before the next valid block |
| `Framing.McuInput.Receive` | src/command.c:352-362 | the loop produces exactly the specified events, and dispatches the blocks with the expected numbers |
| `Wire.StreamFound` | src/command.c:260-321 | a stream of blocks made of commands, with any sync bytes ahead of each, is found as exactly these blocks |
| `Wire.BytesCarryBlocks` | klippy/chelper/serialqueue.c:437-449 | in every run the bytes in flight, with the sync bytes of retransmissions, parse to the blocks of the link, each with the number that is compared and the bodies of the commands built into it |
| `Timer32.IsBeforeExact` | src/generic/timer_irq.c:25-30 | for times at most half the range apart the wrapped comparison is the real one |
| `Timer32.IsBeforeWrongBeyondHalf` | src/generic/timer_irq.c:25-30 | half the range plus one ahead already reads as past |
| `Timer32.OffBefore` | src/generic/timer_irq.c:25-30 | of two times at most half the range ahead of a third, the wrapped comparison is that of how far ahead they are |
| `Scheduler.Sched.FindPlace` | src/sched.c:66-79 | the insert loop stops at the first later timer, if there is one, on any list |
| `Scheduler.Sched.InsertTimer` | src/sched.c:66-82 | the list gets the timer in that place and stays linked and free of duplicates; its ordered part stays in order |
| `Scheduler.Sched.MeetsLater` | src/sched.c:50-54 | every 32-bit time is before the periodic timer or before the sentinel, so a walk from the head always stops |
| `Scheduler.Sched.AddTimer` | src/sched.c:84-118 | for any waketime, on any list that late adds may have left: no timer is lost or duplicated, a late one is moved to now plus two microseconds and put first, and an ordered list stays so if and only if no timer reads as before one put first |
| `Scheduler.Sched.AddEarly` | src/sched.c:92-108 | a timer before all others goes behind the deleted timer at the head; the part behind stays in order |
| `Scheduler.Sched.DelTimer` | src/sched.c:131-154 | exactly the given timer leaves the list, live or not; the ordered part does not shrink and last_insert stays on the list |
| `Scheduler.Sched.DispatchDone` | src/sched.c:156-190 | a timer that is done leaves the list, the timers out of order become one fewer, and the next wake-up is that of the new head |
| `Scheduler.Sched.DispatchReschedule` | src/sched.c:156-190 | whenever the walk stops, a timer that goes on has its new time, none is lost, and the next wake-up is that of the new head; an ordered list stays so if and only if the timer moves or none reads as before it |
| `Scheduler.Sched.OrderedCompares` | src/sched.c:181-187 | on an ordered list the walk stops for every new time |
| `Scheduler.Sched.WalkRunsOff` | src/sched.c:66-82 | otherwise, with last_insert behind the periodic timer, no timer is later and the walk passes the sentinel |
| `Scheduler.Sched.DispatchPeriodic` | src/sched.c:34-43 | the periodic timer takes the sentinel along, and the list is in order whenever it runs |
| `Scheduler.Sched.Run` | src/sched.c:66-190 | any mix of adds, deletes and interrupts, late or not, keeps the list sound, and the live timers are exactly those added and neither deleted nor done; it ends early only where the walk would run off the list |
| `Scheduler.Sched.RunOnTime` | src/sched.c:34-190 | if time does not go back, no head is more than d overdue, nothing is added late, no new time is more than w ahead and w + d is below 2^31, then through any run the list stays in order and in the window, every walk stops on it and no live timer is lost |
| `Scheduler.Sched.Interrupt` | src/sched.c:156-190 | the walk of an interrupt stops if and only if the comparisons agree or last_insert is ahead of the periodic timer, always so on an ordered list, which stays in order inside the half-range window |
| `Scheduler.NoneEarlier` | src/sched.c:92 | in an ordered list inside the half-range window, a time before the head is not after any other, so an early add keeps the order |
| `Scheduler.WalkOff` | src/sched.c:181-186 | a run of two late adds and a far time that reaches a list on which the walk does not stop |
| `Scheduler.Sched.Reset` | src/sched.c:192-201 | all user timers are gone and the list is as at the start |
| `Scheduler.Sched.AddInCallback` | src/sched.c:84-190 | whether the callback finishes or sets a new time, the list stays sound and a timer it added is live afterwards if and only if it is not due before the running timer or that one stays first |
| `Stepper.StepTimeClosed` | src/stepper.c:104-116 | the registers compute step k at base + k * interval + add * k(k-1)/2 modulo 2^32 |
| `Stepper.LoadMove` | src/stepper.c:63-100 | loading a move takes up the queue where the last move ended, turns the direction pin exactly when needed and keeps the position |
| `Stepper.Stepper.LoadNext` | src/stepper.c:63-100 | the next move is loaded and its node freed, or the stepper is idle |
| `Stepper.StepEdge` | src/stepper.c:102-116 | an edge event issues exactly the next commanded step at its time |
| `Stepper.StepUp` | src/stepper.c:140-152 | the first event of a double-scheduled step issues the step |
| `Stepper.StepDown` | src/stepper.c:152-161 | the second event keeps the commanded times, even if it pushes the next event back |
| `Stepper.Stepper.EventEdge` | src/stepper.c:102-116 | each event issues exactly the next step of the plan; plan, nodes and position are kept |
| `Stepper.Stepper.EventFull` | src/stepper.c:140-171 | steps follow the plan in double-scheduled mode, with the push-back and the shutdown for late steps |
| `Stepper.Stepper.QueueStep` | src/stepper.c:219-250 | the plan grows by the steps of the move in the direction set, after the last planned step; a stopped stepper ignores it; nodes are conserved |
| `Stepper.Stepper.SetNextStepDir` | src/stepper.c:254-263 | only the direction of moves queued later changes |
| `Stepper.Stepper.ResetStepClock` | src/stepper.c:266-278 | an idle stepper takes the new base time and accepts moves again; an active one is refused |
| `Stepper.Unfold` | src/stepper.c:281-295 | the folded register gives the position back if and only if it is in range |
| `Stepper.Stepper.GetPosition` | src/stepper.c:281-295 | in the middle of a move too, the position read is the signed number of step edges issued, if and only if that is in range |
| `Stepper.ReportedPosition` | src/stepper.c:297-307 | within 2^30 steps of the start the reported position is the signed step count |
| `Stepper.OutOfRange` | src/stepper.c:281-295 | one step further it is not |
| `Stepper.Stepper.Stop` | src/stepper.c:310-328 | no timer, no moves, all nodes back in the pool, no further step planned, and the position kept if and only if it is in range |
| `Stepper.Stepper.Ignore` | src/stepper.c:238-249 | whatever else is sent, a stopped stepper issues no step before its clock is reset |
| `Stepper.Stepper.Run` | src/stepper.c:64-328 | through any mix of commands, stops and events the steps commanded and the number issued are the function `AfterAll` of the acts, the steps issued are the first of those commanded, no node is lost, and the position stays exact as long as it stays in range |
| `Stepper.Stepper.Take` | src/stepper.c:64-328 | one command or event changes what is commanded and issued as `After` says: a move adds its steps behind those before it, an event issues the next, a stop takes back the rest |
| `Stepper.PlanGrows` | src/stepper.c:219-250 | without a stop nothing commanded is taken back, and the steps commanded grow by the counts of the moves |
| `MovePool.Pool.Alloc` | src/basecmd.c:89-107 | a node leaves the front of the free list and stays accounted for, or there was none |
| `MovePool.Pool.Free` | src/basecmd.c:78-87 | a node taken from a queue stays accounted for on the free list |
| `MovePool.Pool.Reset` | src/basecmd.c:165-180 | every node is free, in order |
| `MovePool.NoSharing` | src/basecmd.c:78-144 | while free and queued nodes add up to the pool, no node is in two places |
| `Trsync.Trsync.Dispatch` | src/trsync.c:34-43 | each signal of the list is called exactly once with the reason; its stepper is stopped and its nodes are back in the pool |
| `Trsync.Trsync.DoTrigger` | src/trsync.c:26-45 | the first trigger stops all steppers with its reason; any other changes nothing |
| `Trsync.Trsync.ExpireEvent` | src/trsync.c:47-54 | a timeout triggers with its own reason unless triggered before |
| `Trsync.Trsync.AddSignal` | src/trsync.c:83-95 | a waiting signal is refused, any other joins the list |
| `Trsync.Trsync.Clear` | src/trsync.c:97-112 | nothing waits any more, and no stepper was stopped |
| `Trsync.Trsync.Start` | src/trsync.c:114-127 | ready to trigger, with nothing attached |
| `Trsync.Trsync.Trigger` | src/trsync.c:154-167 | the reason reported is that of the first trigger; attached steppers are stopped; no timer or report is left pending |
| `Endstop.Endstop.Home` | src/endstop.c:74-95 | checking begins afresh, or is switched off for a zero sample count |
| `Endstop.Endstop.Poll` | src/endstop.c:26-41 | a read without match waits for the rest time; a match is followed by a confirming read at once; the reads are recorded as made |
| `Endstop.Endstop.Confirm` | src/endstop.c:43-64 | a failed read goes back to polling at nextwake; the trigger is due if and only if sample_count confirming reads in a row have matched, and then nextwake minus rest_time is the time of the first |
| `Endstop.Event` | src/endstop.c:26-64 | the trigger is pulled if and only if sample_count confirming reads in a row have matched, and then every attached stepper is stopped with the end stop's reason unless triggered before |
| `DigitalOut.Output.ToggleEvent` | src/gpiocmds.c:34-53 | for pulses of any length the next event is in time, and the end of the setting stays where it is, if and only if that event is at most half the range before the next timer |
| `DigitalOut.Output.LoadEvent` | src/gpiocmds.c:55-114 | a setting that pulses or leaves the default level is watched with a deadline of max_duration; a next change after it shuts down; the next event is in time if and only if it is at most half the range before the next timer or reads as in time |
| `DigitalOut.Output.QueueChange` | src/gpiocmds.c:144-183 | a change behind others changes nothing else; the first one, past or not and whatever timer is first in the list, keeps the next load in time, or within two microseconds if it was already past |
| `DigitalOut.Output.UpdateOutput` | src/gpiocmds.c:187-204 | a direct change sets the same deadline, or none at the default level |
| `DigitalOut.Output.UntilLoad` | src/gpiocmds.c:34-114 | whatever changes are sent meanwhile and whatever other timers there are, toggles come to an end, and the next load or a shutdown comes by the deadline (two microseconds later if a change was past when it was sent), unless a toggle escapes as above; brief pulses do not |
| `DigitalOut.Output.LoadToLoad` | src/gpiocmds.c:55-183 | a load on time with brief pulses and no change queued for its own time or before is followed by another load or a shutdown within max_duration, whatever changes are sent |
| `DigitalOut.Output.SetCycle` | src/gpiocmds.c:131-140 | a cycle of any length is taken unless changes are queued, and the deadline still holds |
| `DigitalOut.TargetInTime` | src/sched.c:179-185 | the exact condition for the next event of a load against the time of the next timer, and that it holds if the setting ends at that timer or later |
| `DigitalOut.BriefTarget` | src/gpiocmds.c:99-113 | with a first part of at most half the range the next event of a load is after it |
| `DigitalOut.ToggleKeeps` | src/gpiocmds.c:34-53 | a toggle whose next event is at most half the range before the next timer leaves the end where it is and is not after it; otherwise the next event is half the range away |
| `DigitalOut.ToggleProgress` | src/gpiocmds.c:34-53 | toggles come to an end: brief pulses move towards the end, longer ones back until it no longer reads as ahead |
| `DigitalOut.PastChangeEscapes` | src/gpiocmds.c:85-92 | with a limit of 10 ticks and the next timer 1000 ticks ahead, one change past by 2^31 - 50 ticks is loaded 2^31 + 50 ticks later |
| `DigitalOut.LongPulseEscapes` | src/gpiocmds.c:104-113 | with a limit of 100 ticks, a pulse of 2^31 + 20 ticks keeps a change 10 ticks ahead from being loaded for 2^31 ticks |
| `Trapq.TrapQueue.AddMove` | klippy/chelper/trapq.c:226-246 | the list gets the move, with a null move before it if there is time to fill |
| `Trapq.AddedGapFree` | klippy/chelper/trapq.c:226-246 | the list stays gap-free if and only if the move fits |
| `Trapq.GapAfterTimeZero` | klippy/chelper/trapq.c:235-240 | after a real move at time 0 the limited null move leaves a gap |
| `Trapq.TrapQueue.Append` | klippy/chelper/trapq.c:105-151 | the pieces of a move follow each other in time and place, and in speed if the planner's speeds agree |
| `Trapq.TrapezoidEnds` | klippy/chelper/trapq.c:105-151 | they last the three times together, cover the area under the speed profile and end at the speed decelerated to |
| `Trapq.TrapQueue.CheckSentinels` | klippy/chelper/trapq.c:205-222 | afterwards the tail sentinel continues the last move in time and place |
| `Trapq.TrapQueue.FinalizeMoves` | klippy/chelper/trapq.c:250-283 | exactly the moves that last beyond the time stay; the history is the real ones, newest first, without those that ended 30 seconds or more before the newest |
| `StepCover.StepperKinematics.GenerateSteps` | klippy/chelper/itersolve.c:145-212 | the ranges handed to the solver are in order, do not overlap, and cover every instant between the flushes, from the start of the list on, that is in, shortly before or shortly after an active move; all of them if and only if the list starts in time |
| `StepCover.ExactlyInTime` | klippy/chelper/itersolve.c:146-156 | ranges cannot begin before the list, so everything needed is covered if and only if the list starts in time |
| `StepCover.StepperKinematics.Turn` | klippy/chelper/itersolve.c:160-211 | one turn of the walk keeps what has been covered, or ends it complete |
| `StepCover.StepperKinematics.GenLead` | klippy/chelper/itersolve.c:163-183 | the moves passed over are handed over from the lead time of the coming move on |
| `Solver.StepGenerator.GenStepsRange` | klippy/chelper/itersolve.c:27-128 | for any position function: commanded_pos changes by what the steps travel, step times are in order and in the range, each step is on the half-step grid and within 1e-9 of its target or of a time past it, and at the end the stepper is within half a step of the function, or its last step is at the very end and the function has run ahead of it |
| `Solver.TravelIsNet` | klippy/chelper/itersolve.c:123 | what the steps travel is step_dist times the net number of steps |
| `Solver.Look` | klippy/chelper/itersolve.c:53-105 | one turn keeps the bracket around the target, and a step is found only where it is justified |
| `ToolHead.FlushesAreOrdered` | klippy/toolhead.py:237-253 | in every legal history flush times never decrease |
| `ToolHead.BatchesComeAfterFlushes` | klippy/toolhead.py:264-300 | every batch starts at least the scan window after any earlier flush |
| `ToolHead.ToolHead.UpdateMoveTime` | klippy/toolhead.py:237-253 | print_time reaches its goal, and the generators and the queue are told so legally on the way |
| `ToolHead.ToolHead.CalcPrintTime` | klippy/toolhead.py:254-263 | print_time is the earliest time, not before the old one, with time to buffer and room for the scan windows after the last flush and after the present |
| `ToolHead.ToolHead.ProcessMoves` | klippy/toolhead.py:264-301 | a batch enters legally in every queuing state |
| `ToolHead.ToolHead.FlushStepGeneration` | klippy/toolhead.py:302-313 | everything up to the last move is flushed and forgotten |
| `ToolHead.ToolHead.GetLastMoveTime` | klippy/toolhead.py:318-322 | the time returned leaves room for the scan window |
| `ToolHead.ToolHead.Dwell` | klippy/toolhead.py:570-573 | print_time advances by at least the delay |
| `ToolHead.ToolHead.UpdateDripMoveTime` | klippy/toolhead.py:591-604 | however homing ends, flushes stay legal and print_time within the move |
| `ToolHead.ToolHead.DripMove` | klippy/toolhead.py:605-628 | a homing move, finished, aborted or refused, leaves the flushed state |
| `ToolHead.ToolHead.NoteStepGenerationScanTime` | klippy/toolhead.py:667-675 | the scan window is the largest registered, changed only after a flush; an unknown old window is refused |
| `ToolHead.ToolHead.Run` | klippy/toolhead.py:237-313 | through any mix of operations print_time never decreases and the history stays legal |
| `Pipeline.Machine.Play` | klippy/chelper/itersolve.c:145-212 | for every legal toolhead history, everything that the moves need up to the last flush has been handed to the solver, in order and without overlap; aborted moves have been served up to the flush at which they were dropped |
| `Pipeline.AllAccounted` | klippy/toolhead.py:605-628 | every move ever queued is owed all its time, or is one of the aborted |
| `Pipeline.Machine.QueueBatch` | klippy/chelper/trapq.c:226-246 | a batch joins the queue without needing anything before the last flush |
| `Pipeline.Machine.FlushGenerators` | klippy/chelper/itersolve.c:145-212 | a flush serves all moves ever queued, not only those still in the queue |
| `Pipeline.Machine.Forget` | klippy/chelper/trapq.c:250-283 | a move leaves the queue only when it needs nothing more |
| `Pipeline.Machine.Abort` | klippy/toolhead.py:619-628 | the queue is emptied, and the moves in it are aborted at the last flush |
| `Shaper.Pulses.Init` | klippy/chelper/kin_shaper.c:41-61 | unless the weights add up to zero they are scaled to one, times get zero mean, pulses are reversed; too many are refused |
| `Shaper.Pulses.ShiftPulses` | klippy/chelper/kin_shaper.c:30-39 | all times move by the mean, so that it becomes zero |
| `Shaper.AcrossMoves` | klippy/chelper/kin_shaper.c:77-89 | the position is that of the move that contains the time |
| `Shaper.CalcPosition` | klippy/chelper/kin_shaper.c:92-103 | with any moves, the weighted sum of the positions at the shifted times; if the current move and those that a shifted time falls into are at constant speed, split in any way, that is the unshaped position |
| `Extruder.IntegrateIs` | klippy/chelper/kin_extruder.c:28-38 | with any acceleration, the definite integral of the position (Simpson's rule, exact here) |
| `Extruder.IntegrateTimeIs` | klippy/chelper/kin_extruder.c:40-51 | with any acceleration, that of the position times the time |
| `Extruder.MoveIntegral` | klippy/chelper/kin_extruder.c:54-73 | with any acceleration, one move contributes the integral of its position with pressure advance over its part of the window, weighted by the time from the offset |
| `Extruder.RangeIntegrate` | klippy/chelper/kin_extruder.c:76-101 | with any moves, the integral of the position with pressure advance over the window, summed over all moves, with weights that rise to the middle and fall from it; at constant speed that is the position in the middle times the window |
| `Extruder.ExtruderStepper.SetPressureAdvance` | klippy/chelper/kin_extruder.c:123-135 | the scan window is the smoothing window |
| `Extruder.ExtruderStepper.CalcPosition` | klippy/chelper/kin_extruder.c:109-121 | with any moves, the average of the position with these weights; if the moves that the window reaches are at constant speed and allow pressure advance, nominal plus pressure advance times speed |

## Left out

- Solver.StepGenerator.GenStepsRange: the number of turns of the search is bounded by a parameter, since over the reals it need not end; rounding, post callbacks and stepcompress beyond accepting or refusing a step are not modelled.
- StepCover.StepperKinematics.GenStepsRange: stands for the solver on one range and may fail; what it does is in Solver.
- Pipeline.Machine.Play: asks for a look-ahead of at most one second, the limit of the first null move; a stepper's window is fixed during a run.
- DigitalOut.Output.constructor: asks for a max_duration below 2^31 ticks.
- DigitalOut.Output.QueueChange: timers are taken to run as soon as they are due, before commands that arrive later; pool nodes of pins are not tracked.
- DigitalOut.Output.UntilLoad: the shutdown of timer_dispatch_many for timers that are more than a millisecond past is not modelled; it could only end a run earlier.
- Stepper.Stepper.EventEdge: a late first step shifts the plan, as the scheduler moves its timer; this is part of QueueStep.
- Vlq.ParseInt: asks that a byte without continuation bit follows, as the sync byte of every checked block does.
- Extruder.ExtruderStepper.CalcPosition: windows are inside the queue, as its sentinels see to.
- Shaper.Pulses.Init: what a division by zero gives, for weights that add up to zero, is left open.
- Scheduler.Sched.Run: each add follows a delete of the same timer, as commands do.
- ToolHead.ToolHead.Run: what other greenlets do while a homing move waits is not interleaved.
- The connection handshake at sequence number 1, debug output to a file, CAN frames, locks, threads and file descriptors: a run starts from a synchronised session and each locked section is one step.
- Fast readers, statistics and the debug queues of the serial queue.
- The send time on completion notifications, which the code takes from the last acknowledged block without asking whether it was retransmitted.
- The AVR-optimised step function and shutdown by long jump in the middle of a block.
- stepcompress, the look-ahead planner and trdispatch: arbitrary results with the assumptions stated in the contracts.
- Changing the extruder, setting positions (trapq_set_position) and the history queries of the move queue.
- The clock synchronisation regression, G-code, configuration files, sensors and the closed-form kinematics.
