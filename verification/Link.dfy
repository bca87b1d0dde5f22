/** Host and micro-controller joined by two first-in first-out channels that may lose any frame.
    Sequence numbers on the wire have four bits; the model carries the unbounded number beside
    them, and only as history: no decision reads it. */
module Link {
  import opened Message
  import opened HostSpec
  import opened HostInvariants

  /** A block on the wire.  `seqNo` is history. */
  datatype Down = Down(nibble: nat, seqNo: nat, cmds: seq<Command>)

  /** A reply on the wire.  `ackNo` is history. */
  datatype Up = Up(nibble: nat, ackNo: nat, reply: Reply)

  /** src/command.c: next_sequence (its low bits) and the block being dispatched; `accepted` is the
      history of the accepted blocks. */
  datatype Mcu = Mcu(nextSequence: nat, dispatching: Option<nat>, accepted: seq<seq<Command>>)

  /** `base` is the first sequence number of the session, `built` every block the host built,
      `tx` how often each was transmitted, `submitted` what was submitted to each queue. */
  datatype Link = Link(
    base: nat, host: Host, mcu: Mcu, down: seq<Down>, up: seq<Up>,
    built: seq<Block>, tx: seq<nat>, submitted: map<nat, seq<Command>>)

  /** The number of the block the micro-controller waits for. */
  function Expected(l: Link): nat { l.base + |l.mcu.accepted| }

  function Submitted(l: Link, q: nat): seq<Command> { SubmittedTo(l.submitted, q) }

  datatype Action =
    | Submit(q: nat, batch: seq<Command>)
    | Check(pending: nat, time: real)
    | BuildBlock(pending: nat, time: real)
    | WriteOut(buflen: nat, time: real)
    | Configure(cfg: Config)
    | SetCommandTimer(wake: Wake)
    | Retransmit(time: real)
    | LoseDown(i: nat)
    | LoseUp(i: nat)
    | McuReceive
    | McuRespond(len: nat, inDispatch: bool)
    | McuAck
    | McuNak
    | HostReceive(time: real, readTime: real)

  // ------------------------------------------------------------------ steps

  function Frames(first: nat, blocks: seq<Block>): (r: seq<Down>)
    ensures |r| == |blocks|
    ensures forall i :: 0 <= i < |r| ==> r[i] == Down((first + i) % MESSAGE_SEQ_SPAN, first + i, blocks[i].cmds)
  {
    if blocks == [] then []
    else var k := |blocks| - 1;
      Frames(first, blocks[..k]) + [Down((first + k) % MESSAGE_SEQ_SPAN, first + k, blocks[k].cmds)]
  }

  function CountTx(tx: seq<nat>, from: nat): (r: seq<nat>)
    ensures |r| == |tx|
    ensures forall i :: 0 <= i < |r| ==> r[i] == if i >= from then tx[i] + 1 else tx[i]
  {
    if tx == [] then [] else
    var k := |tx| - 1;
    CountTx(tx[..k], from) + [if k >= from then tx[k] + 1 else tx[k]]
  }

  function Without<T>(s: seq<T>, i: nat): seq<T>
    requires i < |s|
  {
    s[..i] + s[i + 1..]
  }

  /** serialqueue_send_batch. */
  function Submitting(l: Link, q: nat, batch: seq<Command>): Link {
    l.(host := SendBatch(l.host, q, batch),
       submitted := l.submitted[q := Submitted(l, q) + WithMinClocks(batch)])
  }

  /** build_and_send_command: the new block goes onto the wire. */
  ghost predicate Building(l: Link, l': Link, pending: nat, time: real) {
    && !WindowFull(l.host)
    && Builds(l.host, l'.host, pending, time)
    && var b := l'.host.sent[|l'.host.sent| - 1];
    l' == l.(host := l'.host, built := l.built + [b], tx := l.tx + [1],
             down := l.down + [Down(l.host.sendSeq % MESSAGE_SEQ_SPAN, l.host.sendSeq, b.cmds)])
  }

  /** retransmit_event: every unacknowledged block goes onto the wire again. */
  function Retransmitting(l: Link, time: real): Link
    requires l.host.receiveSeq >= l.base
  {
    l.(host := RetransmitEvent(l.host, time),
       down := l.down + Frames(l.host.receiveSeq, l.host.sent),
       tx := CountTx(l.tx, l.host.receiveSeq - l.base))
  }

  predicate CanReceive(l: Link) {
    && l.up != []
    && l.up[0].nibble < MESSAGE_SEQ_SPAN
    && l.host.sendSeq == l.host.receiveSeq + |l.host.sent|
  }

  /** handle_message on the next reply. */
  function Receiving(l: Link, time: real, readTime: real): Link
    requires CanReceive(l)
  {
    l.(host := HandleMessage(l.host, time, readTime, l.up[0].nibble, l.up[0].reply), up := l.up[1..])
  }

  ghost predicate HostStep(l: Link, l': Link, a: Action) {
    match a
    case Submit(q, batch) => TaggedFor(q, batch) && l' == Submitting(l, q, batch)
    case Check(pending, time) => l' == l.(host := CheckSend(l.host, pending, time).0)
    case BuildBlock(pending, time) => Building(l, l', pending, time)
    case WriteOut(buflen, time) => l' == l.(host := Write(l.host, buflen, time))
    case Configure(cfg) => l' == l.(host := l.host.(cfg := cfg))
    case SetCommandTimer(wake) => l' == l.(host := l.host.(commandTimer := wake))
    case Retransmit(time) =>
      !l.host.retransmitTimer.Never? && l.host.receiveSeq >= l.base && l' == Retransmitting(l, time)
    case HostReceive(time, readTime) => CanReceive(l) && l' == Receiving(l, time, readTime)
    case _ => false
  }

  /** The channel after command_sendf: every frame carries the current next_sequence. */
  function Replied(l: Link, r: Reply): seq<Up> {
    l.up + [Up(l.mcu.nextSequence, Expected(l), r)]
  }

  /** command_find_block accepts a block with the expected low bits and naks any other. */
  function Arriving(l: Link): Link
    requires l.down != []
  {
    var f := l.down[0];
    if f.nibble == l.mcu.nextSequence then
      l.(down := l.down[1..],
         mcu := Mcu((f.nibble + 1) % MESSAGE_SEQ_SPAN, Some(Expected(l)), l.mcu.accepted + [f.cmds]))
    else
      l.(down := l.down[1..], up := Replied(l, AckNak))
  }

  ghost predicate McuStep(l: Link, l': Link, a: Action) {
    match a
    case McuReceive => l.down != [] && l.mcu.dispatching.None? && l' == Arriving(l)
    case McuRespond(len, inDispatch) =>
      && (inDispatch ==> l.mcu.dispatching.Some?)
      && l' == l.(up := Replied(l, Data(len, if inDispatch then l.mcu.dispatching else None)))
    case McuAck =>
      && l.mcu.dispatching.Some?
      && l' == l.(mcu := l.mcu.(dispatching := None), up := Replied(l, AckNak))
    case McuNak => l.mcu.dispatching.None? && l' == l.(up := Replied(l, AckNak))
    case _ => false
  }

  ghost predicate LossStep(l: Link, l': Link, a: Action) {
    match a
    case LoseDown(i) => i < |l.down| && l' == l.(down := Without(l.down, i))
    case LoseUp(i) => i < |l.up| && l' == l.(up := Without(l.up, i))
    case _ => false
  }

  ghost predicate Next(l: Link, l': Link, a: Action) {
    HostStep(l, l', a) || McuStep(l, l', a) || LossStep(l, l', a)
  }

  /** A synchronised session: nothing in flight, and both sides agree on the next number.  Commands may be
      waiting already; they count as submitted. */
  ghost predicate Init(l: Link) {
    && 2 <= l.base == l.host.sendSeq == l.host.receiveSeq
    && HostOk(l.host)
    && l.host.retransmitSeq <= l.base && l.host.lastReceiveSentTime == 0.0
    && l.host.received == [] && l.host.samples == [] && l.host.out.notify == []
    && l.mcu == Mcu(l.base % MESSAGE_SEQ_SPAN, None, [])
    && l.down == [] && l.up == [] && l.built == [] && l.tx == []
    && forall q: nat :: ConservedAt(q, Queue(l.host.out.queues, q), [], SubmittedTo(l.submitted, q))
  }

  // ------------------------------------------------------------------ invariants

  /** R <= N <= S <= R + 12 for receive_seq, the expected number and send_seq, and the low bits of
      N are what the micro-controller compares with. */
  predicate SeqOk(base: nat, r: nat, n: nat, s: nat, sent: seq<Block>, built: seq<Block>, tx: seq<nat>, mcu: Mcu) {
    && 2 <= base <= r <= n <= s <= r + MAX_PENDING_BLOCKS
    && |built| == |tx| == s - base
    && sent == built[r - base..]
    && mcu.nextSequence == n % MESSAGE_SEQ_SPAN
    && (mcu.dispatching.Some? ==> n == mcu.dispatching.value + 1)
  }

  predicate DownOk(base: nat, n: nat, built: seq<Block>, down: seq<Down>) {
    && (forall i :: 0 <= i < |down| ==>
          && base <= down[i].seqNo < base + |built|
          && down[i].nibble == down[i].seqNo % MESSAGE_SEQ_SPAN
          && down[i].cmds == built[down[i].seqNo - base].cmds
          && n - MAX_PENDING_BLOCKS <= down[i].seqNo)
    && (forall i, j :: 0 <= i < j < |down| ==> down[i].seqNo - (MAX_PENDING_BLOCKS - 1) <= down[j].seqNo)
  }

  predicate UpOk(r: nat, n: nat, dispatching: Option<nat>, up: seq<Up>) {
    && (forall i :: 0 <= i < |up| ==>
          && r <= up[i].ackNo <= n
          && up[i].nibble == up[i].ackNo % MESSAGE_SEQ_SPAN
          && (SentBy(up[i].reply).Some? ==> up[i].ackNo == SentBy(up[i].reply).value + 1))
    && (forall i, j :: 0 <= i < j < |up| ==>
          && up[i].ackNo <= up[j].ackNo
          && (up[i].reply.AckNak? && SentBy(up[j].reply).Some? ==> up[i].ackNo <= SentBy(up[j].reply).value))
    && (dispatching.Some? ==> forall i :: 0 <= i < |up| && up[i].reply.AckNak? ==> up[i].ackNo <= dispatching.value)
  }

  /** The block during whose dispatch a reply was sent. */
  function SentBy(r: Reply): Option<nat> { if r.Data? then r.origin else None }

  function ResponseOf(r: Received): Option<nat> { if r.Response? then SentBy(r.reply) else None }

  predicate DeliveredOk(base: nat, built: seq<Block>, accepted: seq<seq<Command>>) {
    && |accepted| <= |built|
    && forall i :: 0 <= i < |accepted| ==> accepted[i] == built[i].cmds
  }

  /** No response of block k can still come once k has been notified. */
  predicate SettledAt(k: nat, n: nat, dispatching: Option<nat>, up: seq<Up>) {
    && k < n
    && (dispatching.Some? ==> k < dispatching.value)
    && (forall j :: 0 <= j < |up| && SentBy(up[j].reply).Some? ==> k < SentBy(up[j].reply).value)
  }

  predicate SettledOk(received: seq<Received>, n: nat, dispatching: Option<nat>, up: seq<Up>) {
    && (forall i :: 0 <= i < |received| && received[i].Notification? ==>
          SettledAt(received[i].blockSeq, n, dispatching, up))
    && (forall i, j :: 0 <= i < j < |received| && received[i].Notification? && ResponseOf(received[j]).Some? ==>
          received[i].blockSeq < ResponseOf(received[j]).value)
  }

  function Flat(blocks: seq<Block>): seq<Command> {
    if blocks == [] then [] else Flat(blocks[..|blocks| - 1]) + blocks[|blocks| - 1].cmds
  }

  /** What was submitted to q is what was built into blocks, is ready and is stalled, in order. */
  predicate ConservedAt(q: nat, cq: CommandQueue, built: seq<Command>, submitted: seq<Command>) {
    built + cq.ready + cq.stalled == submitted
  }

  function SubmittedTo(submitted: map<nat, seq<Command>>, q: nat): seq<Command> {
    if q in submitted then submitted[q] else []
  }

  ghost predicate ConservedOk(queues: map<nat, CommandQueue>, built: seq<Block>, submitted: map<nat, seq<Command>>) {
    forall q: nat ::
      ConservedAt(q, Queue(queues, q), OfQueue(q, Flat(built)), SubmittedTo(submitted, q))
  }

  /** Blocks from `from` on were transmitted exactly once. */
  predicate OnceFrom(base: nat, tx: seq<nat>, from: nat) {
    forall i :: 0 <= i < |tx| && base + i >= from ==> tx[i] == 1
  }

  /** `time` is when block k was sent, and k was transmitted exactly once. */
  predicate SentOnce(base: nat, built: seq<Block>, tx: seq<nat>, k: int, time: real) {
    && base <= k < base + |built| && |tx| == |built|
    && tx[k - base] == 1
    && time == built[k - base].receiveTime
  }

  /** The last acknowledged block's send time, 0 when none was acknowledged. */
  predicate LastSentOk(base: nat, built: seq<Block>, r: nat, last: real) {
    && base <= r <= base + |built|
    && last == (if r == base then 0.0 else built[r - 1 - base].receiveTime)
  }

  predicate SamplesOk(base: nat, tx: seq<nat>, r: nat, samples: seq<nat>) {
    && r <= base + |tx|
    && forall i :: 0 <= i < |samples| ==> base <= samples[i] < r && tx[samples[i] - base] == 1
  }

  predicate ResponseTimeOk(base: nat, built: seq<Block>, tx: seq<nat>, r: nat, e: Received) {
    e.Response? && e.sentTime != 0.0 ==> e.rseq <= r && SentOnce(base, built, tx, e.rseq - 1, e.sentTime)
  }

  predicate ResponseTimesOk(base: nat, built: seq<Block>, tx: seq<nat>, r: nat, received: seq<Received>) {
    forall i :: 0 <= i < |received| ==> ResponseTimeOk(base, built, tx, r, received[i])
  }

  predicate TimesOk(base: nat, built: seq<Block>, tx: seq<nat>, h: Host) {
    var r := h.receiveSeq;
    var onceR := OnceFrom(base, tx, h.retransmitSeq);
    var onceS := h.rttSampleSeq != 0 ==> OnceFrom(base, tx, h.rttSampleSeq);
    var last := LastSentOk(base, built, r, h.lastReceiveSentTime);
    var samples := SamplesOk(base, tx, r, h.samples);
    var responses := ResponseTimesOk(base, built, tx, r, h.received);
    onceR && onceS && last && samples && responses
  }

  ghost predicate LinkOk(l: Link) {
    var n, dispatching := Expected(l), l.mcu.dispatching;
    var host := HostOk(l.host);
    var seqs := SeqOk(l.base, l.host.receiveSeq, n, l.host.sendSeq, l.host.sent, l.built, l.tx, l.mcu);
    var downs := DownOk(l.base, n, l.built, l.down);
    var ups := UpOk(l.host.receiveSeq, n, dispatching, l.up);
    var delivered := DeliveredOk(l.base, l.built, l.mcu.accepted);
    var settled := SettledOk(l.host.received, n, dispatching, l.up);
    var conserved := ConservedOk(l.host.out.queues, l.built, l.submitted);
    var times := TimesOk(l.base, l.built, l.tx, l.host);
    host && seqs && downs && ups && delivered && settled && conserved && times
  }
}
