/** What every callback of the serial queue keeps. */
module HostInvariants {
  import opened Message
  import opened HostSpec

  /** notify_queue is in block order and names only blocks below `bound`. */
  predicate NotifyOk(notify: seq<PendingNotify>, bound: nat) {
    && (forall i :: 0 <= i < |notify| ==> notify[i].blockSeq < bound)
    && (forall i, j :: 0 <= i < j < |notify| ==> notify[i].blockSeq <= notify[j].blockSeq)
  }

  predicate BlockOk(b: Block) {
    b.len == Bytes(b.cmds) + MESSAGE_MIN && b.len <= MESSAGE_MAX
  }

  predicate TimersOk(h: Host) {
    && (h.retransmitTimer.Never? <==> h.sent == [])
    && (h.retransmitTimer.Now? ==> h.receiveSeq > h.ignoreNakSeq)
    && h.ignoreNakSeq <= h.sendSeq
    && h.retransmitSeq <= h.sendSeq
    && MIN_RTO <= h.rto <= MAX_RTO
  }

  predicate WindowOk(h: Host) {
    && h.sendSeq == h.receiveSeq + |h.sent|
    && |h.sent| <= MAX_PENDING_BLOCKS
    && h.needAckBytes == BlockSum(h.sent)
    && (forall i :: 0 <= i < |h.sent| ==> BlockOk(h.sent[i]))
  }

  predicate HostOk(h: Host) {
    var outbox, notify, window, timers :=
      OutboxOk(h.out), NotifyOk(h.out.notify, h.sendSeq), WindowOk(h), TimersOk(h);
    outbox && notify && window && timers
  }

  // ------------------------------------------------------------------ sums

  lemma {:induction false} BytesPositive(q: nat, a: seq<Command>)
    requires TaggedFor(q, a) && a != []
    ensures Bytes(a) >= 1
  {
    assert Sendable(a[|a| - 1]);
  }

  lemma {:induction false} BytesWithMinClocks(cmds: seq<Command>)
    ensures Bytes(WithMinClocks(cmds)) == Bytes(cmds)
  {
    if cmds != [] {
      var k := |cmds| - 1;
      BytesWithMinClocks(cmds[..k]);
      assert WithMinClocks(cmds)[..k] == WithMinClocks(cmds[..k]);
    }
  }

  lemma {:induction false} BlockSumAppend(a: seq<Block>, b: seq<Block>)
    ensures BlockSum(a + b) == BlockSum(a) + BlockSum(b)
  {
    if b == [] {
      assert a + b == a;
    } else {
      var k := |b| - 1;
      BlockSumAppend(a, b[..k]);
      assert (a + b)[..|a + b| - 1] == a + b[..k];
    }
  }

  /** A retransmission of at most twelve blocks fits retransmit_event's buffer. */
  lemma {:induction false} BlockSumBound(blocks: seq<Block>)
    requires forall i :: 0 <= i < |blocks| ==> BlockOk(blocks[i])
    ensures BlockSum(blocks) <= MESSAGE_MAX * |blocks|
  {
    if blocks != [] {
      BlockSumBound(blocks[..|blocks| - 1]);
      assert BlockOk(blocks[|blocks| - 1]);
    }
  }

  lemma {:induction false} TotalCong(p: Part, order: seq<nat>, a: map<nat, CommandQueue>, b: map<nat, CommandQueue>)
    requires forall q <- order :: Queue(a, q) == Queue(b, q)
    ensures Total(p, order, a) == Total(p, order, b)
  {
    if order != [] {
      var k := |order| - 1;
      assert order[k] in order;
      TotalCong(p, order[..k], a, b);
    }
  }

  lemma {:induction false} TotalSplit(p: Part, a: seq<nat>, b: seq<nat>, queues: map<nat, CommandQueue>)
    ensures Total(p, a + b, queues) == Total(p, a, queues) + Total(p, b, queues)
  {
    if b == [] {
      assert a + b == a;
    } else {
      var k := |b| - 1;
      TotalSplit(p, a, b[..k], queues);
      assert (a + b)[..|a + b| - 1] == a + b[..k];
    }
  }

  function RemoveAt(order: seq<nat>, i: nat): seq<nat>
    requires i < |order|
  {
    order[..i] + order[i + 1..]
  }

  /** Around position i of a duplicate-free order, the sum splits into that queue and the others. */
  lemma TotalAround(p: Part, order: seq<nat>, queues: map<nat, CommandQueue>, i: nat)
    requires i < |order|
    ensures Total(p, order, queues)
         == Total(p, RemoveAt(order, i), queues) + Measure(p, Queue(queues, order[i]))
  {
    TotalSplit(p, order[..i], order[i + 1..], queues);
    TotalSplit(p, order[..i + 1], order[i + 1..], queues);
    assert order == order[..i + 1] + order[i + 1..];
    assert order[..i + 1][..i] == order[..i];
  }

  /** Changing one queue changes the sum by that queue's own measure. */
  lemma TotalUpdate(p: Part, order: seq<nat>, queues: map<nat, CommandQueue>, i: nat, cq: CommandQueue)
    requires i < |order| && Distinct(order)
    ensures Total(p, order, queues[order[i] := cq])
         == Total(p, RemoveAt(order, i), queues) + Measure(p, cq)
    ensures Total(p, RemoveAt(order, i), queues[order[i] := cq]) == Total(p, RemoveAt(order, i), queues)
  {
    TotalAround(p, order, queues[order[i] := cq], i);
    TotalCong(p, RemoveAt(order, i), queues, queues[order[i] := cq]);
  }

  lemma {:induction false} TotalZero(p: Part, order: seq<nat>, queues: map<nat, CommandQueue>, q: nat)
    requires Total(p, order, queues) == 0 && q in order
    ensures Measure(p, Queue(queues, q)) == 0
  {
    var k := |order| - 1;
    if order[k] != q {
      assert q in order[..k];
      TotalZero(p, order[..k], queues, q);
    }
  }

  // ------------------------------------------------------------------ submitting

  lemma EnqueueTotal(p: Part, order: seq<nat>, queues: map<nat, CommandQueue>, q: nat, cq: CommandQueue)
    requires QueuesOk(order, queues)
    ensures var order' := if IsEmpty(Queue(queues, q)) then order + [q] else order;
      Total(p, order', queues[q := cq]) + Measure(p, Queue(queues, q)) == Total(p, order, queues) + Measure(p, cq)
  {
    if IsEmpty(Queue(queues, q)) {
      assert q !in order;
      assert (order + [q])[..|order|] == order;
      TotalCong(p, order, queues, queues[q := cq]);
      assert Measure(p, CommandQueue([], [])) == 0;
    } else {
      assert q in order;
      var i :| 0 <= i < |order| && order[i] == q;
      TotalUpdate(p, order, queues, i, cq);
      TotalAround(p, order, queues, i);
    }
  }

  lemma EnqueueQueuesOk(order: seq<nat>, queues: map<nat, CommandQueue>, q: nat, msgs: seq<Command>)
    requires QueuesOk(order, queues) && TaggedFor(q, msgs) && msgs != []
    ensures var cq := Queue(queues, q);
      QueuesOk(if IsEmpty(cq) then order + [q] else order, queues[q := CommandQueue(cq.ready, cq.stalled + msgs)])
  {
    if IsEmpty(Queue(queues, q)) {
      assert q !in order;
    }
  }

  lemma EnqueueOk(o: Outbox, q: nat, msgs: seq<Command>)
    requires OutboxOk(o) && TaggedFor(q, msgs) && msgs != []
    ensures OutboxOk(Enqueue(o, q, msgs))
  {
    hide Total, Bytes, QueuesOk;
    var cq := Queue(o.queues, q);
    var cq' := CommandQueue(cq.ready, cq.stalled + msgs);
    BytesAppend(cq.stalled, msgs);
    EnqueueQueuesOk(o.order, o.queues, q, msgs);
    EnqueueTotal(ReadyBytes, o.order, o.queues, q, cq');
    EnqueueTotal(StalledBytes, o.order, o.queues, q, cq');
  }

  // ------------------------------------------------------------------ releasing stalled commands

  /** Releasing only moves commands from the front of each stalled queue to its ready queue. */
  lemma {:induction false} ReleaseAllAt(order: seq<nat>, queues: map<nat, CommandQueue>, ackClock: nat, q: nat)
    requires Distinct(order)
    ensures Queue(ReleaseAll(order, queues, ackClock), q)
         == if q in order then Release(Queue(queues, q), ackClock) else Queue(queues, q)
  {
    if order != [] {
      var k := |order| - 1;
      ReleaseAllAt(order[..k], queues, ackClock, q);
      assert q in order <==> q in order[..k] || q == order[k];
      assert order[k] !in order[..k];
      if q == order[k] {
        ReleaseAllAt(order[..k], queues, ackClock, order[k]);
      }
    }
  }

  lemma {:induction false} ReleaseAllKeys(order: seq<nat>, queues: map<nat, CommandQueue>, ackClock: nat)
    ensures forall q :: q in ReleaseAll(order, queues, ackClock) <==> q in queues || q in order
  {
    if order != [] {
      var k := |order| - 1;
      ReleaseAllKeys(order[..k], queues, ackClock);
      assert forall q :: q in order <==> q in order[..k] || q == order[k];
    }
  }

  predicate SameBytes(a: CommandQueue, b: CommandQueue) {
    Bytes(a.ready) + Bytes(a.stalled) == Bytes(b.ready) + Bytes(b.stalled)
  }

  lemma ReleaseMeasures(cq: CommandQueue, ackClock: nat)
    ensures SameBytes(cq, Release(cq, ackClock))
    ensures IsEmpty(Release(cq, ackClock)) <==> IsEmpty(cq)
  {
    var n := DueCount(cq.stalled, ackClock);
    assert cq.stalled == cq.stalled[..n] + cq.stalled[n..];
    BytesAppend(cq.stalled[..n], cq.stalled[n..]);
    BytesAppend(cq.ready, cq.stalled[..n]);
  }

  lemma {:induction false} ReleaseTotals(order: seq<nat>, a: map<nat, CommandQueue>, b: map<nat, CommandQueue>)
    requires forall q <- order :: SameBytes(Queue(a, q), Queue(b, q))
    ensures Total(ReadyBytes, order, b) + Total(StalledBytes, order, b)
         == Total(ReadyBytes, order, a) + Total(StalledBytes, order, a)
  {
    if order != [] {
      var k := |order| - 1;
      assert order[k] in order;
      ReleaseTotals(order[..k], a, b);
      assert SameBytes(Queue(a, order[k]), Queue(b, order[k]));
    }
  }

  lemma ReleaseQueuesOk(order: seq<nat>, queues: map<nat, CommandQueue>, ackClock: nat)
    requires QueuesOk(order, queues)
    ensures QueuesOk(order, ReleaseAll(order, queues, ackClock))
  {
    var r := ReleaseAll(order, queues, ackClock);
    ReleaseAllKeys(order, queues, ackClock);
    forall q <- order ensures !IsEmpty(Queue(r, q)) {
      ReleaseAllAt(order, queues, ackClock, q);
      ReleaseMeasures(Queue(queues, q), ackClock);
    }
    forall q <- r
      ensures TaggedFor(q, r[q].ready) && TaggedFor(q, r[q].stalled)
      ensures q !in order ==> IsEmpty(r[q])
    {
      ReleaseAllAt(order, queues, ackClock, q);
      assert q in queues;
    }
  }

  lemma ReleaseStalledOk(o: Outbox, ackClock: nat)
    requires OutboxOk(o)
    ensures OutboxOk(ReleaseStalled(o, ackClock))
  {
    var queues := ReleaseAll(o.order, o.queues, ackClock);
    ReleaseQueuesOk(o.order, o.queues, ackClock);
    forall q <- o.order ensures SameBytes(Queue(o.queues, q), Queue(queues, q)) {
      ReleaseAllAt(o.order, o.queues, ackClock, q);
      ReleaseMeasures(Queue(o.queues, q), ackClock);
    }
    ReleaseTotals(o.order, o.queues, queues);
  }

  // ------------------------------------------------------------------ packing a block

  lemma {:induction false} SomeReady(order: seq<nat>, queues: map<nat, CommandQueue>)
    requires Total(ReadyBytes, order, queues) != 0
    ensures exists j :: 0 <= j < |order| && Queue(queues, order[j]).ready != []
  {
    var k := |order| - 1;
    if Queue(queues, order[k]).ready == [] {
      SomeReady(order[..k], queues);
      var j :| 0 <= j < k && Queue(queues, order[..k][j]).ready != [];
      assert order[j] == order[..k][j];
    }
  }

  /** Taking the ready head of the i-th pending queue; a queue left empty leaves the list. */
  function TakeQueues(order: seq<nat>, queues: map<nat, CommandQueue>, i: nat): map<nat, CommandQueue>
    requires i < |order| && Queue(queues, order[i]).ready != []
  {
    var q := Queue(queues, order[i]);
    queues[order[i] := CommandQueue(q.ready[1..], q.stalled)]
  }

  function TakeOrder(order: seq<nat>, queues: map<nat, CommandQueue>, i: nat): seq<nat>
    requires i < |order| && Queue(queues, order[i]).ready != []
  {
    var q := Queue(queues, order[i]);
    if |q.ready| == 1 && q.stalled == [] then RemoveAt(order, i) else order
  }

  lemma TakeOk(order: seq<nat>, queues: map<nat, CommandQueue>, i: nat)
    requires QueuesOk(order, queues) && i < |order| && Queue(queues, order[i]).ready != []
    ensures QueuesOk(TakeOrder(order, queues, i), TakeQueues(order, queues, i))
  {
    var order' := TakeOrder(order, queues, i);
    var cq := Queue(queues, order[i]);
    if |cq.ready| == 1 && cq.stalled == [] {
      assert forall q :: q in order' <==> q in order && q != order[i];
      assert Distinct(order');
    }
  }

  lemma TakeTotal(p: Part, order: seq<nat>, queues: map<nat, CommandQueue>, i: nat)
    requires QueuesOk(order, queues) && i < |order| && Queue(queues, order[i]).ready != []
    ensures var cq := Queue(queues, order[i]);
      Total(p, TakeOrder(order, queues, i), TakeQueues(order, queues, i)) + Measure(p, cq)
      == Total(p, order, queues) + Measure(p, CommandQueue(cq.ready[1..], cq.stalled))
  {
    var cq := Queue(queues, order[i]);
    TotalUpdate(p, order, queues, i, CommandQueue(cq.ready[1..], cq.stalled));
    TotalAround(p, order, queues, i);
    assert Measure(p, CommandQueue([], [])) == 0;
  }

  lemma TakeTotals(order: seq<nat>, queues: map<nat, CommandQueue>, i: nat)
    requires QueuesOk(order, queues) && i < |order| && Queue(queues, order[i]).ready != []
    ensures var order', queues' := TakeOrder(order, queues, i), TakeQueues(order, queues, i);
      && Total(ReadyBytes, order', queues')
         == Total(ReadyBytes, order, queues) - |Queue(queues, order[i]).ready[0].body|
      && Total(StalledBytes, order', queues') == Total(StalledBytes, order, queues)
      && Total(ReadyCommands, order', queues') == Total(ReadyCommands, order, queues) - 1
  {
    TakeTotal(ReadyBytes, order, queues, i);
    TakeTotal(StalledBytes, order, queues, i);
    TakeTotal(ReadyCommands, order, queues, i);
    BytesHead(Queue(queues, order[i]).ready);
  }

  lemma {:induction false} OfQueueAppend(q: nat, a: seq<Command>, b: seq<Command>)
    ensures OfQueue(q, a + b) == OfQueue(q, a) + OfQueue(q, b)
  {
    if b == [] {
      assert a + b == a;
    } else {
      var k := |b| - 1;
      OfQueueAppend(q, a, b[..k]);
      assert (a + b)[..|a + b| - 1] == a + b[..k];
    }
  }

  lemma {:induction false} NotifyOfBlock(cmds: seq<Command>, blockSeq: nat)
    ensures forall i :: 0 <= i < |NotifyOf(cmds, blockSeq)| ==> NotifyOf(cmds, blockSeq)[i].blockSeq == blockSeq
  {
    if cmds != [] {
      NotifyOfBlock(cmds[..|cmds| - 1], blockSeq);
    }
  }

  // ------------------------------------------------------------------ every callback keeps HostOk

  /** serialqueue_send_batch keeps the sender's bookkeeping. */
  lemma SendBatchOk(h: Host, q: nat, cmds: seq<Command>)
    requires HostOk(h) && TaggedFor(q, cmds)
    ensures HostOk(SendBatch(h, q, cmds))
  {
    hide OutboxOk;
    if Bytes(cmds) != 0 {
      assert cmds != [];
      var msgs := WithMinClocks(cmds);
      forall i | 0 <= i < |msgs| ensures Sendable(msgs[i]) && msgs[i].queue == q {
        assert msgs[i] == WithMinClock(cmds[i]);
      }
      EnqueueOk(h.out, q, msgs);
    }
  }

  lemma UpdateReceiveSeqOk(h: Host, eventtime: real, rseq: nat)
    requires HostOk(h) && h.receiveSeq < rseq <= h.sendSeq
    ensures HostOk(UpdateReceiveSeq(h, eventtime, rseq))
  {
    hide OutboxOk, BlockSum;
    var acked := rseq - h.receiveSeq;
    BlockSumAppend(h.sent[..acked], h.sent[acked..]);
    assert h.sent == h.sent[..acked] + h.sent[acked..];
  }

  lemma ReleaseNotifyOk(h: Host, eventtime: real, rseq: nat, reply: Reply)
    requires HostOk(h)
    ensures HostOk(ReleaseNotify(h, eventtime, rseq, reply))
  {
    var h' := ReleaseNotify(h, eventtime, rseq, reply);
    assert OutboxOk(h'.out);
    assert NotifyOk(h'.out.notify, h'.sendSeq);
    assert WindowOk(h') && TimersOk(h');
  }

  lemma ProcessReplyOk(h: Host, readTime: real, rseq: nat, reply: Reply)
    requires HostOk(h) && rseq == h.receiveSeq
    ensures HostOk(ProcessReply(h, readTime, rseq, reply))
  {
    var h' := ProcessReply(h, readTime, rseq, reply);
    assert h'.out == h.out;
    assert WindowOk(h') && TimersOk(h');
  }

  /** handle_message keeps it for every frame, acceptable or not. */
  lemma HandleMessageOk(h: Host, eventtime: real, readTime: real, nibble: nat, reply: Reply)
    requires HostOk(h) && nibble < MESSAGE_SEQ_SPAN
    ensures HostOk(HandleMessage(h, eventtime, readTime, nibble, reply))
  {
    if !Refused(h, nibble) {
      var rseq := Widen(h.receiveSeq, nibble);
      var h1 := if rseq != h.receiveSeq then UpdateReceiveSeq(h, eventtime, rseq) else h;
      assert HostOk(h1) by {
        if rseq != h.receiveSeq {
          UpdateReceiveSeqOk(h, eventtime, rseq);
        }
      }
      assert h1.receiveSeq == rseq;
      ReleaseNotifyOk(h1, eventtime, rseq, reply);
      ProcessReplyOk(ReleaseNotify(h1, eventtime, rseq, reply), readTime, rseq, reply);
    }
  }

  /** retransmit_event, which only runs while its timer is armed, keeps it, and its image fits the
      buffer of MESSAGE_MAX * MAX_PENDING_BLOCKS + 1 bytes.  A retransmit caused by a nak strictly
      raises ignore_nak_seq. */
  lemma RetransmitOk(h: Host, eventtime: real)
    requires HostOk(h) && !h.retransmitTimer.Never?
    ensures HostOk(RetransmitEvent(h, eventtime))
    ensures RetransmitBytes(h.sent) <= MESSAGE_MAX * MAX_PENDING_BLOCKS + 1
    ensures h.retransmitTimer.Now? ==> RetransmitEvent(h, eventtime).ignoreNakSeq > h.ignoreNakSeq
  {
    BlockSumBound(h.sent);
  }

  lemma BuildsOk(h: Host, h': Host, pending: nat, eventtime: real)
    requires HostOk(h) && !WindowFull(h) && Builds(h, h', pending, eventtime)
    ensures HostOk(h')
  {
    var b := h'.sent[|h'.sent| - 1];
    BlockSumAppend(h.sent, [b]);
    assert [b][..0] == [];
    assert BlockSum([b]) == b.len;
    NotifyOfBlock(b.cmds, h.sendSeq);
  }

  lemma ChecksOk(h: Host, pending: nat, eventtime: real)
    requires HostOk(h)
    ensures HostOk(CheckSend(h, pending, eventtime).0)
  {
    if !WindowFull(h) {
      ReleaseStalledOk(h.out, ClockFromTime(h.cfg.ce, IdleAfter(h, pending, eventtime)));
    }
  }

  // ------------------------------------------------------------------ what the callbacks are for

  /** A round-trip sample (sections 2 and 3 of RFC 6298): the smoothed time moves towards the sample and not
      past it, and the timeout is never shorter than it unless it is the longest allowed. */
  lemma SampleMeans(h: Host, eventtime: real, rseq: nat)
    requires HostOk(h) && h.rttSampleSeq != 0 && rseq > h.rttSampleSeq && h.lastReceiveSentTime != 0.0
    requires h.srtt >= 0.0 && h.rttvar >= 0.0 && eventtime >= h.lastReceiveSentTime
    ensures var h', delta := UpdateRtt(h, eventtime, rseq), eventtime - h.lastReceiveSentTime;
      && MIN_RTO <= h'.rto <= MAX_RTO && (h'.rto >= h'.srtt || h'.rto == MAX_RTO)
      && h'.srtt >= 0.0 && h'.rttvar >= 0.0 && h'.rttSampleSeq == 0
      && (h.srtt > 0.0 ==> h.srtt <= h'.srtt <= delta || delta <= h'.srtt <= h.srtt)
      && UpdateRtt(h', eventtime, rseq) == h'
  {
  }

  /** A nak is answered once: it starts a retransmission only if it repeats the last acknowledgement, lies
      beyond ignore_nak_seq and something is unacknowledged; after the retransmission it does not any more. */
  lemma NakAnsweredOnce(h: Host, readTime: real, time: real)
    requires HostOk(h) && !h.retransmitTimer.Now?
    ensures var nak := (h: Host) => ProcessReply(h, readTime, h.receiveSeq, AckNak);
      var starts := nak(h).retransmitTimer.Now?;
      && (starts ==> h.receiveSeq <= h.lastAckSeq && h.ignoreNakSeq < h.receiveSeq && h.sent != [])
      && (starts ==> !nak(RetransmitEvent(nak(h), time)).retransmitTimer.Now?)
      && (!starts && h.receiveSeq > h.lastAckSeq && h.receiveSeq > h.ignoreNakSeq && h.sent != [] ==>
            nak(nak(h)).retransmitTimer.Now?)
  {
  }

  /** A block is built only where it fits the micro-controller's receive window, unless it is alone. */
  lemma WindowHolds(h: Host, h': Host, pending: nat, eventtime: real)
    requires HostOk(h) && !WindowFull(h) && Builds(h, h', pending, eventtime) && h.lastAckBytes >= 0
    ensures |h'.sent| <= MAX_PENDING_BLOCKS
    ensures h.sent != [] && h.cfg.receiveWindow != 0 ==> BlockSum(h'.sent) <= h.cfg.receiveWindow
  {
    BuildsOk(h, h', pending, eventtime);
  }

  lemma {:induction false} MinStalledIs(order: seq<nat>, queues: map<nat, CommandQueue>, q: nat)
    requires q in order && Queue(queues, q).stalled != []
    ensures MinStalled(order, queues) <= Queue(queues, q).stalled[0].minClock
  {
    var k := |order| - 1;
    if order[k] != q {
      MinStalledIs(order[..k], queues, q);
    }
  }

  lemma {:induction false} MinStalledAbove(order: seq<nat>, queues: map<nat, CommandQueue>, clock: nat)
    requires clock < MAX_CLOCK && forall q <- order :: Queue(queues, q).stalled != [] ==> clock < Queue(queues, q).stalled[0].minClock
    ensures clock < MinStalled(order, queues)
  {
    if order != [] {
      MinStalledAbove(order[..|order| - 1], queues, clock);
      assert order[|order| - 1] in order;
    }
  }

  lemma {:induction false} MinReadyIs(order: seq<nat>, queues: map<nat, CommandQueue>, q: nat, bgClock: nat)
    ensures MinReady(order, queues, bgClock) <= MAX_CLOCK
    ensures q in order && Queue(queues, q).ready != [] ==>
      MinReady(order, queues, bgClock) <= EffectiveClock(Queue(queues, q).ready[0], bgClock)
  {
    if order != [] {
      MinReadyIs(order[..|order| - 1], queues, q, bgClock);
    }
  }

  lemma ReleasedLater(order: seq<nat>, queues: map<nat, CommandQueue>, ackClock: nat, q: nat)
    requires Distinct(order) && q in order
    ensures var cq := Queue(ReleaseAll(order, queues, ackClock), q);
      cq.stalled != [] ==> ackClock < cq.stalled[0].minClock
  {
    ReleaseAllAt(order, queues, ackClock, q);
  }

  /** When check_send_command puts sending off, it is to a time after the line is idle; and need_kick_clock,
      below which a new batch wakes the sender up, is not after the min_clock of any stalled head nor after
      the time, less the margin, of any ready head. */
  lemma WakeIsEarlyEnough(h: Host, pending: nat, eventtime: real, q: nat)
    requires HostOk(h) && h.cfg.ce.estFreq > 0.0 && q in h.out.order && CheckSend(h, pending, eventtime).1.At?
    ensures var (h', wake) := CheckSend(h, pending, eventtime);
      var idle, cq := IdleAfter(h, pending, eventtime), Queue(h'.out.queues, q);
      && wake.time > idle
      && (cq.stalled != [] ==> h'.needKickClock <= cq.stalled[0].minClock)
      && (cq.ready != [] ==> h'.needKickClock + Truncate(MIN_REQTIME_DELTA * h.cfg.ce.estFreq)
                             <= EffectiveClock(cq.ready[0], BackgroundClock(h, pending, idle)))
  {
    hide MinStalled, MinReady, ReleaseAll, Bittime, ClockFromTime, QueuesOk, Total;
    var idle := IdleAfter(h, pending, eventtime);
    var ackClock, bg := ClockFromTime(h.cfg.ce, idle), BackgroundClock(h, pending, idle);
    var order, queues := h.out.order, ReleaseAll(h.out.order, h.out.queues, ackClock);
    assert Distinct(order) by { OrderDistinct(h.out); }
    forall x <- order ensures Queue(queues, x).stalled != [] ==> ackClock < Queue(queues, x).stalled[0].minClock {
      ReleasedLater(order, h.out.queues, ackClock, x);
    }
    MinReadyIs(order, queues, q, bg);
    TruncatePositive(MIN_REQTIME_DELTA * h.cfg.ce.estFreq);
    MinStalledAbove(order, queues, ackClock);
    if Queue(queues, q).stalled != [] {
      MinStalledIs(order, queues, q);
    }
    var want := CheckSend(h, pending, eventtime).0.needKickClock;
    Positive(want - ackClock, h.cfg.ce.estFreq);
  }

  lemma OrderDistinct(o: Outbox)
    requires OutboxOk(o)
    ensures Distinct(o.order)
  {
  }

  lemma TruncatePositive(x: real)
    requires x >= 0.0
    ensures Truncate(x) >= 0
  {
  }

  lemma Positive(n: int, f: real)
    requires n > 0 && f > 0.0
    ensures n as real / f > 0.0
  {
  }
}
