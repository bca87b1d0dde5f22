/** The host side of the serial link as a value: what `struct serialqueue` holds and what each
    callback of klippy/chelper/serialqueue.c does to it.  The class in SerialQueue.dfy runs the
    callbacks step by step and is proved equal to these functions. */
module HostSpec {
  import opened Message

  /** A message on a command queue.  `queue` names the command_queue it was submitted to. */
  datatype Command = Command(queue: nat, body: seq<byte>, minClock: nat, reqClock: nat, notifyId: nat)

  /** What serialqueue_send may be given: a body that fits a block and a clock below MAX_CLOCK. */
  predicate Sendable(c: Command) {
    1 <= |c.body| <= MESSAGE_PAYLOAD_MAX && c.reqClock < MAX_CLOCK
  }

  datatype CommandQueue = CommandQueue(ready: seq<Command>, stalled: seq<Command>)

  /** A block on sent_queue; `len` counts header and trailer. */
  datatype Block = Block(cmds: seq<Command>, len: nat, sentTime: real, receiveTime: real)

  /** PR_NOW, a finite time, PR_NEVER. */
  datatype Wake = Now | At(time: real) | Never

  datatype PendingNotify = PendingNotify(notifyId: nat, blockSeq: nat)

  /** A frame from the micro-controller: an empty ack/nak, or a response.  `origin` is the block
      whose commands were being dispatched when the response was sent, if any. */
  datatype Reply = AckNak | Data(len: nat, origin: Option<nat>)

  /** Entries of receive_queue. */
  datatype Received =
    | Notification(notifyId: nat, blockSeq: nat, sentTime: real, receiveTime: real)
    | Response(reply: Reply, rseq: nat, sentTime: real, receiveTime: real)

  datatype ClockEstimate = ClockEstimate(convClock: nat, convTime: real, estFreq: real)

  datatype Config = Config(isCan: bool, bittimeAdjust: real, receiveWindow: nat, ce: ClockEstimate)

  /** The commands waiting to be sent, and the notifications waiting for an ack: pending_queues
      (`order`), the contents of each command queue, the byte counts and notify_queue. */
  datatype Outbox = Outbox(
    order: seq<nat>, queues: map<nat, CommandQueue>,
    readyBytes: int, stalledBytes: int,
    notify: seq<PendingNotify>)

  datatype Host = Host(
    cfg: Config,
    sendSeq: nat, receiveSeq: nat,
    ignoreNakSeq: nat, lastAckSeq: nat, retransmitSeq: nat, rttSampleSeq: nat,
    sent: seq<Block>,
    srtt: real, rttvar: real, rto: real,
    lastReceiveSentTime: real, idleTime: real,
    out: Outbox,
    needAckBytes: int, lastAckBytes: int,
    needKickClock: nat,
    received: seq<Received>,
    retransmitTimer: Wake, commandTimer: Wake,
    samples: seq<nat>) // history: the block behind each round-trip sample

  function MaxReal(a: real, b: real): real { if a > b then a else b }

  function AbsReal(a: real): real { if a < 0.0 then -a else a }

  /** calculate_bittime. */
  function Bittime(cfg: Config, bytes: nat): real {
    if cfg.isCan then
      cfg.bittimeAdjust * (bytes * 8 + ((bytes + 7) / 8) * 47 - 4) as real
    else
      cfg.bittimeAdjust * bytes as real
  }

  /** A C cast from double to a 64-bit integer truncates toward zero. */
  function Truncate(x: real): int { if x < 0.0 then -((-x).Floor) else x.Floor }

  /** clock_from_time, in 64-bit unsigned arithmetic. */
  function ClockFromTime(ce: ClockEstimate, time: real): nat {
    (Truncate((time - ce.convTime) * ce.estFreq + 0.5) + ce.convClock) % 0x1_0000_0000_0000_0000
  }

  // ------------------------------------------------------------------ command queues

  function Queue(queues: map<nat, CommandQueue>, q: nat): CommandQueue {
    if q in queues then queues[q] else CommandQueue([], [])
  }

  function Bytes(cmds: seq<Command>): nat {
    if cmds == [] then 0 else Bytes(cmds[..|cmds| - 1]) + |cmds[|cmds| - 1].body|
  }

  lemma {:induction false} BytesAppend(a: seq<Command>, b: seq<Command>)
    ensures Bytes(a + b) == Bytes(a) + Bytes(b)
  {
    if b == [] {
      assert a + b == a;
    } else {
      var k := |b| - 1;
      BytesAppend(a, b[..k]);
      assert (a + b)[..|a + b| - 1] == a + b[..k];
    }
  }

  lemma BytesHead(a: seq<Command>)
    requires a != []
    ensures Bytes(a) == |a[0].body| + Bytes(a[1..])
  {
    BytesAppend(a[..1], a[1..]);
    assert a == a[..1] + a[1..];
    assert Bytes(a[..1]) == Bytes(a[..1][..0]) + |a[0].body|;
  }

  datatype Part = ReadyBytes | StalledBytes | ReadyCommands

  function Measure(p: Part, q: CommandQueue): nat {
    match p
    case ReadyBytes => Bytes(q.ready)
    case StalledBytes => Bytes(q.stalled)
    case ReadyCommands => |q.ready|
  }

  /** A measure summed over the queues on pending_queues. */
  function Total(p: Part, order: seq<nat>, queues: map<nat, CommandQueue>): nat {
    if order == [] then 0
    else Total(p, order[..|order| - 1], queues) + Measure(p, Queue(queues, order[|order| - 1]))
  }

  function BlockSum(blocks: seq<Block>): nat {
    if blocks == [] then 0 else BlockSum(blocks[..|blocks| - 1]) + blocks[|blocks| - 1].len
  }

  predicate IsEmpty(q: CommandQueue) { q.ready == [] && q.stalled == [] }

  predicate Distinct<T(==)>(s: seq<T>) {
    forall i, j :: 0 <= i < j < |s| ==> s[i] != s[j]
  }

  predicate TaggedFor(q: nat, cmds: seq<Command>) {
    forall i :: 0 <= i < |cmds| ==> Sendable(cmds[i]) && cmds[i].queue == q
  }

  /** pending_queues lists each non-empty command queue exactly once. */
  predicate QueuesOk(order: seq<nat>, queues: map<nat, CommandQueue>) {
    && Distinct(order)
    && (forall q <- order :: !IsEmpty(Queue(queues, q)))
    && (forall q <- queues :: q !in order ==> IsEmpty(queues[q]))
    && (forall q <- queues :: TaggedFor(q, queues[q].ready) && TaggedFor(q, queues[q].stalled))
  }

  /** Byte counts equal the queue sums. */
  predicate OutboxOk(o: Outbox) {
    && QueuesOk(o.order, o.queues)
    && o.readyBytes == Total(ReadyBytes, o.order, o.queues)
    && o.stalledBytes == Total(StalledBytes, o.order, o.queues)
  }

  // ------------------------------------------------------------------ serialqueue_send_batch

  /** A command may not be released more than 2^31 clocks before it is required. */
  function WithMinClock(c: Command): Command {
    if c.minClock + 0x8000_0000 < c.reqClock && c.reqClock != BACKGROUND_PRIORITY_CLOCK
    then c.(minClock := c.reqClock - 0x8000_0000) else c
  }

  function WithMinClocks(cmds: seq<Command>): (r: seq<Command>)
    ensures |r| == |cmds|
    ensures forall i :: 0 <= i < |cmds| ==> r[i] == WithMinClock(cmds[i])
  {
    if cmds == [] then [] else WithMinClocks(cmds[..|cmds| - 1]) + [WithMinClock(cmds[|cmds| - 1])]
  }

  function Enqueue(o: Outbox, q: nat, msgs: seq<Command>): Outbox {
    var cq := Queue(o.queues, q);
    o.(order := if IsEmpty(cq) then o.order + [q] else o.order,
       queues := o.queues[q := CommandQueue(cq.ready, cq.stalled + msgs)],
       stalledBytes := o.stalledBytes + Bytes(msgs))
  }

  function SendBatch(h: Host, q: nat, cmds: seq<Command>): Host {
    if Bytes(cmds) == 0 then h else
    var msgs := WithMinClocks(cmds);
    h.(out := Enqueue(h.out, q, msgs),
       needKickClock := if |msgs| > 0 && msgs[0].minClock < h.needKickClock then 0 else h.needKickClock)
  }

  // ------------------------------------------------------------------ update_receive_seq

  /** The estimator of section 2 of RFC 6298 as the source tunes it, with the rto clamped. */
  function UpdateRtt(h: Host, eventtime: real, rseq: nat): Host {
    if h.rttSampleSeq != 0 && rseq > h.rttSampleSeq && h.lastReceiveSentTime != 0.0 then
      var delta := eventtime - h.lastReceiveSentTime;
      var rttvar := if h.srtt == 0.0 then delta / 2.0
                    else (3.0 * h.rttvar + AbsReal(h.srtt - delta)) / 4.0;
      var srtt := if h.srtt == 0.0 then delta * 10.0 else (7.0 * h.srtt + delta) / 8.0;
      var rttvar4 := if rttvar * 4.0 < 0.001 then 0.001 else rttvar * 4.0;
      var rto := srtt + rttvar4;
      h.(srtt := srtt, rttvar := rttvar,
         rto := if rto < MIN_RTO then MIN_RTO else if rto > MAX_RTO then MAX_RTO else rto,
         rttSampleSeq := 0, samples := h.samples + [rseq - 1])
    else h
  }

  /** The retransmit timer after an ack: off when nothing is left unacknowledged. */
  function RearmRetransmit(h: Host, eventtime: real): Host {
    h.(retransmitTimer :=
         if h.sent == [] then Never
         else At(eventtime + h.rto + Bittime(h.cfg, h.sent[0].len)))
  }

  function UpdateReceiveSeq(h: Host, eventtime: real, rseq: nat): Host
    requires h.receiveSeq < rseq <= h.receiveSeq + |h.sent|
  {
    var acked := rseq - h.receiveSeq;
    var last := h.sent[acked - 1];
    RearmRetransmit(
      UpdateRtt(
        h.(sent := h.sent[acked..], receiveSeq := rseq,
           needAckBytes := h.needAckBytes - BlockSum(h.sent[..acked]),
           lastReceiveSentTime := last.receiveTime, lastAckBytes := last.len,
           commandTimer := Now),
        eventtime, rseq),
      eventtime)
  }

  // ------------------------------------------------------------------ handle_message

  /** Widens a 4-bit sequence number to the first value not below receive_seq. */
  function Widen(receiveSeq: nat, nibble: nat): nat
    requires nibble < MESSAGE_SEQ_SPAN
  {
    var rseq := receiveSeq - receiveSeq % MESSAGE_SEQ_SPAN + nibble;
    if rseq < receiveSeq then rseq + MESSAGE_SEQ_SPAN else rseq
  }

  /** How many entries of notify_queue a message with this sequence releases. */
  function NotifyCount(notify: seq<PendingNotify>, wakeSeq: int): (n: nat)
    ensures n <= |notify|
    ensures forall i :: 0 <= i < n ==> notify[i].blockSeq <= wakeSeq
    ensures n < |notify| ==> notify[n].blockSeq > wakeSeq
  {
    if notify == [] || notify[0].blockSeq > wakeSeq then 0
    else
      var n := NotifyCount(notify[1..], wakeSeq);
      assert forall i :: 1 <= i < n + 1 ==> notify[i] == notify[1..][i - 1];
      n + 1
  }

  function Notifications(notify: seq<PendingNotify>, sentTime: real, receiveTime: real): (r: seq<Received>)
    ensures |r| == |notify|
    ensures forall i :: 0 <= i < |r| ==>
      r[i] == Notification(notify[i].notifyId, notify[i].blockSeq, sentTime, receiveTime)
  {
    if notify == [] then []
    else var k := |notify| - 1;
      Notifications(notify[..k], sentTime, receiveTime)
      + [Notification(notify[k].notifyId, notify[k].blockSeq, sentTime, receiveTime)]
  }

  /** A data message may precede the end of the block it belongs to, so it releases one block less. */
  function WakeSeq(rseq: nat, reply: Reply): int { rseq - 1 - (if reply.Data? then 1 else 0) }

  function ReleaseNotify(h: Host, eventtime: real, rseq: nat, reply: Reply): Host {
    var notify := h.out.notify;
    var n := NotifyCount(notify, WakeSeq(rseq, reply));
    h.(out := h.out.(notify := notify[n..]),
       received := h.received + Notifications(notify[..n], h.lastReceiveSentTime, eventtime))
  }

  function ProcessReply(h: Host, readTime: real, rseq: nat, reply: Reply): Host {
    match reply
    case AckNak =>
      if h.lastAckSeq < rseq then h.(lastAckSeq := rseq)
      else if rseq > h.ignoreNakSeq && h.sent != [] then h.(retransmitTimer := Now)
      else h
    case Data(len, _) =>
      var sentTime := if rseq > h.retransmitSeq then h.lastReceiveSentTime else 0.0;
      h.(received := h.received + [Response(reply, rseq, sentTime, readTime - Bittime(h.cfg, len))])
  }

  /** The sequence number is refused: an ack for a block that was never sent. */
  predicate Refused(h: Host, nibble: nat)
    requires nibble < MESSAGE_SEQ_SPAN
  {
    var rseq := Widen(h.receiveSeq, nibble);
    rseq != h.receiveSeq && rseq > h.sendSeq
  }

  /** handle_message of a session past the connection handshake (receive_seq != 1). */
  function HandleMessage(h: Host, eventtime: real, readTime: real, nibble: nat, reply: Reply): Host
    requires nibble < MESSAGE_SEQ_SPAN
    requires h.sendSeq == h.receiveSeq + |h.sent|
  {
    if Refused(h, nibble) then h else
    var rseq := Widen(h.receiveSeq, nibble);
    var h1 := if rseq != h.receiveSeq then UpdateReceiveSeq(h, eventtime, rseq) else h;
    ProcessReply(ReleaseNotify(h1, eventtime, rseq, reply), readTime, rseq, reply)
  }

  // ------------------------------------------------------------------ retransmit_event

  /** The bytes of a retransmission: a sync byte and every unacknowledged block. */
  function RetransmitBytes(sent: seq<Block>): nat { 1 + BlockSum(sent) }

  function RetransmitEvent(h: Host, eventtime: real): Host {
    var rto := if h.retransmitTimer.Now? then h.rto
               else if h.rto * 2.0 > MAX_RTO then MAX_RTO else h.rto * 2.0;
    var first := if h.sent == [] then 0 else h.sent[0].len + 1;
    h.(rto := rto,
       ignoreNakSeq := if !h.retransmitTimer.Now? then h.sendSeq
                       else if h.receiveSeq < h.retransmitSeq then h.retransmitSeq
                       else h.receiveSeq,
       retransmitSeq := h.sendSeq, rttSampleSeq := 0,
       idleTime := eventtime + Bittime(h.cfg, RetransmitBytes(h.sent)),
       retransmitTimer := At(eventtime + rto + Bittime(h.cfg, first)))
  }

  // ------------------------------------------------------------------ build_and_send_command

  /** The subsequence of commands submitted to queue q. */
  function OfQueue(q: nat, cmds: seq<Command>): seq<Command> {
    if cmds == [] then []
    else if cmds[|cmds| - 1].queue == q then OfQueue(q, cmds[..|cmds| - 1]) + [cmds[|cmds| - 1]]
    else OfQueue(q, cmds[..|cmds| - 1])
  }

  /** The notifications a block's commands ask for, in command order. */
  function NotifyOf(cmds: seq<Command>, blockSeq: nat): seq<PendingNotify> {
    if cmds == [] then []
    else
      var k := |cmds| - 1;
      NotifyOf(cmds[..k], blockSeq)
      + (if cmds[k].notifyId != 0 then [PendingNotify(cmds[k].notifyId, blockSeq)] else [])
  }

  /** No ready head is more urgent than c. */
  predicate MostUrgent(c: Command, queues: map<nat, CommandQueue>) {
    forall q <- queues :: queues[q].ready != [] ==> c.reqClock <= queues[q].ready[0].reqClock
  }

  /** The queue of commands ready in q once the commands of a block prefix have left. */
  function Left(queues: map<nat, CommandQueue>, q: nat, taken: seq<Command>): seq<Command> {
    var n := |OfQueue(q, taken)|;
    var ready := Queue(queues, q).ready;
    if n <= |ready| then ready[n..] else []
  }

  /** When the k-th command of the block was chosen, no queue had a more urgent head. */
  predicate ChosenByPriority(queues: map<nat, CommandQueue>, cmds: seq<Command>, k: nat)
    requires k < |cmds|
  {
    forall q <- queues :: Left(queues, q, cmds[..k]) != [] ==>
      cmds[k].reqClock <= Left(queues, q, cmds[..k])[0].reqClock
  }

  /** Commands leave only the front of each ready queue, in order. */
  ghost predicate TakenFromFront(from: map<nat, CommandQueue>, to: map<nat, CommandQueue>, cmds: seq<Command>) {
    && (forall q: nat :: OfQueue(q, cmds) + Queue(to, q).ready == Queue(from, q).ready)
    && (forall q: nat :: Queue(to, q).stalled == Queue(from, q).stalled)
  }

  predicate InPriorityOrder(queues: map<nat, CommandQueue>, cmds: seq<Command>) {
    forall k :: 0 <= k < |cmds| ==> ChosenByPriority(queues, cmds, k)
  }

  /** The byte counts and notify_queue follow the commands, which fit the block. */
  predicate Accounted(o: Outbox, o': Outbox, cmds: seq<Command>, blockSeq: nat) {
    && Bytes(cmds) <= MESSAGE_PAYLOAD_MAX
    && o'.readyBytes == o.readyBytes - Bytes(cmds)
    && o'.stalledBytes == o.stalledBytes
    && o'.notify == o.notify + NotifyOf(cmds, blockSeq)
  }

  /** Nothing is left ready, or the most urgent command left does not fit. */
  ghost predicate BlockFull(o: Outbox, cmds: seq<Command>) {
    o.readyBytes != 0 ==>
      exists q :: q in o.queues && o.queues[q].ready != []
        && MostUrgent(o.queues[q].ready[0], o.queues)
        && Bytes(cmds) + |o.queues[q].ready[0].body| > MESSAGE_PAYLOAD_MAX
  }

  /** What packing a block does to the queues: commands leave the front of each ready queue, chosen
      by priority, until nothing is ready or the next most urgent command would not fit. */
  ghost predicate Packs(o: Outbox, o': Outbox, cmds: seq<Command>, blockSeq: nat) {
    var front, priority := TakenFromFront(o.queues, o'.queues, cmds), InPriorityOrder(o.queues, cmds);
    var accounted, ok, full := Accounted(o, o', cmds, blockSeq), OutboxOk(o'), BlockFull(o', cmds);
    front && priority && accounted && ok && full
  }

  /** The stored block: header and trailer added, the retransmit timer armed if it was idle. */
  function StoreBlock(h: Host, cmds: seq<Command>, pending: nat, eventtime: real): Host {
    var len := Bytes(cmds) + MESSAGE_MIN;
    var idle := MaxReal(eventtime, h.idleTime) + Bittime(h.cfg, pending + len);
    h.(retransmitTimer := if h.sent == [] then At(idle + h.rto) else h.retransmitTimer,
       rttSampleSeq := if h.rttSampleSeq == 0 then h.sendSeq else h.rttSampleSeq,
       sendSeq := h.sendSeq + 1,
       needAckBytes := h.needAckBytes + len,
       sent := h.sent + [Block(cmds, len, eventtime, idle)])
  }

  /** One call of build_and_send_command, from h to h'. */
  ghost predicate Builds(h: Host, h': Host, pending: nat, eventtime: real) {
    && h'.sent != []
    && var cmds := h'.sent[|h'.sent| - 1].cmds;
    && Packs(h.out, h'.out, cmds, h.sendSeq)
    && h' == StoreBlock(h.(out := h'.out), cmds, pending, eventtime)
  }

  // ------------------------------------------------------------------ check_send_command

  /** The stalled commands at the front whose min_clock has been reached. */
  function DueCount(stalled: seq<Command>, ackClock: nat): (n: nat)
    ensures n <= |stalled|
    ensures forall i :: 0 <= i < n ==> stalled[i].minClock <= ackClock
    ensures n < |stalled| ==> ackClock < stalled[n].minClock
  {
    if stalled == [] || ackClock < stalled[0].minClock then 0
    else
      var n := DueCount(stalled[1..], ackClock);
      assert forall i :: 1 <= i < n + 1 ==> stalled[i] == stalled[1..][i - 1];
      n + 1
  }

  function Release(q: CommandQueue, ackClock: nat): CommandQueue {
    var n := DueCount(q.stalled, ackClock);
    CommandQueue(q.ready + q.stalled[..n], q.stalled[n..])
  }

  function ReleaseAll(order: seq<nat>, queues: map<nat, CommandQueue>, ackClock: nat): map<nat, CommandQueue> {
    if order == [] then queues else
    var k := |order| - 1;
    var before := ReleaseAll(order[..k], queues, ackClock);
    before[order[k] := Release(Queue(before, order[k]), ackClock)]
  }

  function MinStalled(order: seq<nat>, queues: map<nat, CommandQueue>): nat {
    if order == [] then MAX_CLOCK else
    var q := Queue(queues, order[|order| - 1]);
    var m := MinStalled(order[..|order| - 1], queues);
    if q.stalled != [] && q.stalled[0].minClock < m then q.stalled[0].minClock else m
  }

  function EffectiveClock(c: Command, bgClock: nat): nat {
    if c.reqClock == BACKGROUND_PRIORITY_CLOCK then bgClock else c.reqClock
  }

  function MinReady(order: seq<nat>, queues: map<nat, CommandQueue>, bgClock: nat): nat {
    if order == [] then MAX_CLOCK else
    var q := Queue(queues, order[|order| - 1]);
    var m := MinReady(order[..|order| - 1], queues, bgClock);
    if q.ready != [] && EffectiveClock(q.ready[0], bgClock) < m then EffectiveClock(q.ready[0], bgClock) else m
  }

  function NeedAckBytes(h: Host): int {
    h.needAckBytes + MESSAGE_MAX + (if h.lastAckSeq < h.receiveSeq then h.lastAckBytes else 0)
  }

  /** Nothing may be sent before an ack arrives. */
  predicate WindowFull(h: Host) {
    || h.sendSeq >= h.receiveSeq + MAX_PENDING_BLOCKS
    || (h.sendSeq > h.receiveSeq && h.cfg.receiveWindow != 0 && NeedAckBytes(h) > h.cfg.receiveWindow)
  }

  function IdleAfter(h: Host, pending: nat, eventtime: real): real {
    MaxReal(eventtime, h.idleTime) + Bittime(h.cfg, pending + MESSAGE_MIN)
  }

  function BackgroundClock(h: Host, pending: nat, idle: real): nat {
    ClockFromTime(h.cfg.ce, (if pending != 0 then idle else h.idleTime)
                            + (MIN_REQTIME_DELTA + MIN_BACKGROUND_DELTA))
  }

  function ReleaseStalled(o: Outbox, ackClock: nat): Outbox {
    var queues := ReleaseAll(o.order, o.queues, ackClock);
    var moved := Total(StalledBytes, o.order, o.queues) - Total(StalledBytes, o.order, queues);
    o.(queues := queues, stalledBytes := o.stalledBytes - moved, readyBytes := o.readyBytes + moved)
  }

  /** When the next block should be sent, once the stalled commands are released, and the new
      need_kick_clock. */
  function Decide(h: Host, pending: nat, ackClock: nat, idle: real): (nat, Wake) {
    var minReady := MinReady(h.out.order, h.out.queues, BackgroundClock(h, pending, idle));
    var minStalled := MinStalled(h.out.order, h.out.queues);
    if h.out.readyBytes >= MESSAGE_PAYLOAD_MAX then (h.needKickClock, Now)
    else if h.cfg.ce.estFreq == 0.0 then
      if h.out.readyBytes != 0 then (h.needKickClock, Now) else (MAX_CLOCK, Never)
    else
      var delta := Truncate(MIN_REQTIME_DELTA * h.cfg.ce.estFreq);
      if minReady <= ackClock + delta then (h.needKickClock, Now)
      else
        var want := if minStalled < minReady - delta then minStalled else minReady - delta;
        (want, At(idle + (want - ackClock) as real / h.cfg.ce.estFreq))
  }

  function CheckSend(h: Host, pending: nat, eventtime: real): (Host, Wake) {
    if WindowFull(h) then (h, Never) else
    var idle := IdleAfter(h, pending, eventtime);
    var ackClock := ClockFromTime(h.cfg.ce, idle);
    var h1 := h.(out := ReleaseStalled(h.out, ackClock));
    var (kick, wake) := Decide(h1, pending, ackClock, idle);
    (h1.(needKickClock := kick), wake)
  }

  // ------------------------------------------------------------------ command_event

  /** do_write of the blocks built so far: the line is busy until they are out. */
  function Write(h: Host, buflen: nat, eventtime: real): Host {
    if buflen == 0 then h
    else h.(idleTime := MaxReal(eventtime, h.idleTime) + Bittime(h.cfg, buflen))
  }

  /** One turn of the loop of command_event before a block is built. */
  ghost predicate Checks(h: Host, h': Host, pending: nat, eventtime: real) {
    h' == CheckSend(h, pending, eventtime).0
  }

  ghost predicate Writes(h: Host, h': Host, buflen: nat, eventtime: real) {
    h' == Write(h, buflen, eventtime)
  }

  /** A turn of command_event's loop: release stalled commands, build a block when the window
      allows it, or hand what has been built to the line. */
  ghost predicate CommandStep(h: Host, h': Host, eventtime: real) {
    || (exists pending: nat :: Checks(h, h', pending, eventtime))
    || (!WindowFull(h) && exists pending: nat :: Builds(h, h', pending, eventtime))
    || (exists buflen: nat :: Writes(h, h', buflen, eventtime))
  }
}
