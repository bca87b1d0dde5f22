/** klippy/chelper/serialqueue.c: `struct serialqueue` and the callbacks that update it in place.
    Each locked section is one method; do_write appends to `wire`. */
module SerialQueue {
  import opened Message
  import opened HostSpec
  import opened HostInvariants

  /** Packing in progress: `cmds` have gone into block `blockSeq` since the outbox was o0. */
  ghost predicate Packing(o0: Outbox, o: Outbox, cmds: seq<Command>, blockSeq: nat) {
    var front, priority := TakenFromFront(o0.queues, o.queues, cmds), InPriorityOrder(o0.queues, cmds);
    var accounted, ok := Accounted(o0, o, cmds, blockSeq), OutboxOk(o);
    front && priority && accounted && ok
  }

  lemma PackingStart(o: Outbox, blockSeq: nat)
    requires OutboxOk(o)
    ensures Packing(o, o, [], blockSeq)
  {
    assert TakenFromFront(o.queues, o.queues, []);
  }

  /** The outbox after the ready head of the i-th queue has gone into the block. */
  function Taken(o: Outbox, i: nat, blockSeq: nat): Outbox
    requires i < |o.order| && Queue(o.queues, o.order[i]).ready != []
  {
    var m := Queue(o.queues, o.order[i]).ready[0];
    Outbox(TakeOrder(o.order, o.queues, i), TakeQueues(o.order, o.queues, i), o.readyBytes - |m.body|, o.stalledBytes,
           if m.notifyId != 0 then o.notify + [PendingNotify(m.notifyId, blockSeq)] else o.notify)
  }

  lemma TakenOk(o: Outbox, i: nat, blockSeq: nat)
    requires OutboxOk(o) && i < |o.order| && Queue(o.queues, o.order[i]).ready != []
    ensures OutboxOk(Taken(o, i, blockSeq))
  {
    TakeOk(o.order, o.queues, i);
    TakeTotals(o.order, o.queues, i);
  }

  lemma TakenAt(o: Outbox, i: nat, blockSeq: nat, cmds: seq<Command>, q: nat)
    requires OutboxOk(o) && i < |o.order| && Queue(o.queues, o.order[i]).ready != []
    ensures var m := Queue(o.queues, o.order[i]).ready[0];
      OfQueue(q, cmds + [m]) + Queue(Taken(o, i, blockSeq).queues, q).ready
      == OfQueue(q, cmds) + Queue(o.queues, q).ready
  {
    var m := Queue(o.queues, o.order[i]).ready[0];
    FirstReady(o, i);
    hide OutboxOk;
    var ready := Queue(o.queues, o.order[i]).ready;
    assert (cmds + [m])[..|cmds|] == cmds;
    if q == o.order[i] {
      assert ready == [m] + ready[1..];
      assert Queue(Taken(o, i, blockSeq).queues, q).ready == ready[1..];
    } else {
      assert OfQueue(q, cmds + [m]) == OfQueue(q, cmds);
    }
  }

  lemma FirstReady(o: Outbox, i: nat)
    requires OutboxOk(o) && i < |o.order| && Queue(o.queues, o.order[i]).ready != []
    ensures o.order[i] in o.queues && Queue(o.queues, o.order[i]).ready[0].queue == o.order[i]
  {
  }

  lemma TakenContents(o0: Outbox, o: Outbox, cmds: seq<Command>, blockSeq: nat, i: nat)
    requires OutboxOk(o) && i < |o.order| && Queue(o.queues, o.order[i]).ready != []
    requires TakenFromFront(o0.queues, o.queues, cmds)
    ensures TakenFromFront(o0.queues, Taken(o, i, blockSeq).queues, cmds + [Queue(o.queues, o.order[i]).ready[0]])
  {
    var m, t := Queue(o.queues, o.order[i]).ready[0], Taken(o, i, blockSeq);
    forall q: nat
      ensures OfQueue(q, cmds + [m]) + Queue(t.queues, q).ready == Queue(o0.queues, q).ready
    {
      TakenAt(o, i, blockSeq, cmds, q);
    }
  }

  lemma LeftIsReady(o0: Outbox, o: Outbox, cmds: seq<Command>, q: nat)
    requires OfQueue(q, cmds) + Queue(o.queues, q).ready == Queue(o0.queues, q).ready
    ensures Left(o0.queues, q, cmds) == Queue(o.queues, q).ready
  {
  }

  lemma EarlierChoices(queues: map<nat, CommandQueue>, cmds: seq<Command>, m: Command, k: nat)
    requires k < |cmds| && ChosenByPriority(queues, cmds, k)
    ensures ChosenByPriority(queues, cmds + [m], k)
  {
    assert (cmds + [m])[..k] == cmds[..k];
  }

  /** The command taken is the most urgent of those left, so the block stays in priority order. */
  lemma LastChoice(o0: Outbox, o: Outbox, cmds: seq<Command>, m: Command)
    requires TakenFromFront(o0.queues, o.queues, cmds) && MostUrgent(m, o.queues)
    ensures ChosenByPriority(o0.queues, cmds + [m], |cmds|)
  {
    assert (cmds + [m])[..|cmds|] == cmds;
    forall q <- o0.queues | Left(o0.queues, q, cmds) != []
      ensures m.reqClock <= Left(o0.queues, q, cmds)[0].reqClock
    {
      LeftIsReady(o0, o, cmds, q);
    }
  }

  lemma TakenPriority(o0: Outbox, o: Outbox, cmds: seq<Command>, m: Command)
    requires TakenFromFront(o0.queues, o.queues, cmds) && MostUrgent(m, o.queues)
    requires InPriorityOrder(o0.queues, cmds)
    ensures InPriorityOrder(o0.queues, cmds + [m])
  {
    forall k | 0 <= k < |cmds| ensures ChosenByPriority(o0.queues, cmds + [m], k) {
      EarlierChoices(o0.queues, cmds, m, k);
    }
    LastChoice(o0, o, cmds, m);
  }

  lemma BytesSnoc(cmds: seq<Command>, m: Command)
    ensures Bytes(cmds + [m]) == Bytes(cmds) + |m.body|
  {
    assert (cmds + [m])[..|cmds|] == cmds;
  }

  lemma NotifyOfSnoc(cmds: seq<Command>, m: Command, blockSeq: nat)
    ensures NotifyOf(cmds + [m], blockSeq)
         == NotifyOf(cmds, blockSeq) + (if m.notifyId != 0 then [PendingNotify(m.notifyId, blockSeq)] else [])
  {
    assert (cmds + [m])[..|cmds|] == cmds;
  }

  lemma TakenAccounted(o0: Outbox, o: Outbox, o': Outbox, cmds: seq<Command>, blockSeq: nat, m: Command)
    requires Accounted(o0, o, cmds, blockSeq) && Bytes(cmds) + |m.body| <= MESSAGE_PAYLOAD_MAX
    requires o'.readyBytes == o.readyBytes - |m.body| && o'.stalledBytes == o.stalledBytes
    requires o'.notify == if m.notifyId != 0 then o.notify + [PendingNotify(m.notifyId, blockSeq)] else o.notify
    ensures Accounted(o0, o', cmds + [m], blockSeq)
  {
    BytesSnoc(cmds, m);
    NotifyOfSnoc(cmds, m, blockSeq);
    assert o0.notify + NotifyOf(cmds, blockSeq) + [] == o0.notify + NotifyOf(cmds, blockSeq);
  }

  lemma PackingStep(o0: Outbox, o: Outbox, cmds: seq<Command>, blockSeq: nat, i: nat)
    requires Packing(o0, o, cmds, blockSeq) && i < |o.order| && Queue(o.queues, o.order[i]).ready != []
    requires MostUrgent(Queue(o.queues, o.order[i]).ready[0], o.queues)
    requires Bytes(cmds) + |Queue(o.queues, o.order[i]).ready[0].body| <= MESSAGE_PAYLOAD_MAX
    ensures Packing(o0, Taken(o, i, blockSeq), cmds + [Queue(o.queues, o.order[i]).ready[0]], blockSeq)
  {
    TakenOk(o, i, blockSeq);
    TakenContents(o0, o, cmds, blockSeq, i);
    TakenPriority(o0, o, cmds, Queue(o.queues, o.order[i]).ready[0]);
    TakenAccounted(o0, o, Taken(o, i, blockSeq), cmds, blockSeq, Queue(o.queues, o.order[i]).ready[0]);
  }

  lemma PackingEnd(o0: Outbox, o: Outbox, cmds: seq<Command>, blockSeq: nat, i: nat)
    requires Packing(o0, o, cmds, blockSeq)
    requires o.readyBytes != 0 ==>
      && i < |o.order| && Queue(o.queues, o.order[i]).ready != []
      && MostUrgent(Queue(o.queues, o.order[i]).ready[0], o.queues)
      && Bytes(cmds) + |Queue(o.queues, o.order[i]).ready[0].body| > MESSAGE_PAYLOAD_MAX
    ensures Packs(o0, o, cmds, blockSeq)
  {
    assert BlockFull(o, cmds) by {
      if o.readyBytes != 0 {
        assert o.order[i] in o.queues;
      }
    }
  }

  // ------------------------------------------------------------------ releasing, queue by queue

  lemma {:induction false} MinStalledCong(order: seq<nat>, a: map<nat, CommandQueue>, b: map<nat, CommandQueue>)
    requires forall q <- order :: Queue(a, q) == Queue(b, q)
    ensures MinStalled(order, a) == MinStalled(order, b)
  {
    if order != [] {
      assert order[|order| - 1] in order;
      MinStalledCong(order[..|order| - 1], a, b);
    }
  }

  lemma {:induction false} MinReadyCong(order: seq<nat>, a: map<nat, CommandQueue>, b: map<nat, CommandQueue>, bgClock: nat)
    requires forall q <- order :: Queue(a, q) == Queue(b, q)
    ensures MinReady(order, a, bgClock) == MinReady(order, b, bgClock)
  {
    if order != [] {
      assert order[|order| - 1] in order;
      MinReadyCong(order[..|order| - 1], a, b, bgClock);
    }
  }

  /** Releasing the i-th queue leaves the earlier ones, and all sums over them, alone. */
  lemma NoQueues(queues: map<nat, CommandQueue>, ackClock: nat, bgClock: nat)
    ensures ReleaseAll([], queues, ackClock) == queues && Total(StalledBytes, [], queues) == 0
    ensures MinStalled([], queues) == MAX_CLOCK && MinReady([], queues, bgClock) == MAX_CLOCK
  {
  }

  lemma ReleaseNext(order: seq<nat>, queues: map<nat, CommandQueue>, ackClock: nat, i: nat, bgClock: nat)
    requires Distinct(order) && i < |order|
    ensures var before := ReleaseAll(order[..i], queues, ackClock);
      var after := ReleaseAll(order[..i + 1], queues, ackClock);
      && Queue(before, order[i]) == Queue(queues, order[i])
      && after == before[order[i] := Release(Queue(queues, order[i]), ackClock)]
      && Total(StalledBytes, order[..i + 1], after)
         == Total(StalledBytes, order[..i], before) + Bytes(Queue(after, order[i]).stalled)
      && Total(StalledBytes, order[..i + 1], queues)
         == Total(StalledBytes, order[..i], queues) + Bytes(Queue(queues, order[i]).stalled)
      && MinStalled(order[..i], after) == MinStalled(order[..i], before)
      && MinReady(order[..i], after, bgClock) == MinReady(order[..i], before, bgClock)
  {
    var before := ReleaseAll(order[..i], queues, ackClock);
    assert order[..i + 1][..i] == order[..i];
    assert order[i] !in order[..i];
    ReleaseAllAt(order[..i], queues, ackClock, order[i]);
    var after := before[order[i] := Release(Queue(before, order[i]), ackClock)];
    TotalCong(StalledBytes, order[..i], before, after);
    MinStalledCong(order[..i], before, after);
    MinReadyCong(order[..i], before, after, bgClock);
  }

  lemma MinStalledNext(order: seq<nat>, queues: map<nat, CommandQueue>, i: nat)
    requires i < |order|
    ensures MinStalled(order[..i + 1], queues)
         == var q := Queue(queues, order[i]);
            var m := MinStalled(order[..i], queues);
            if q.stalled != [] && q.stalled[0].minClock < m then q.stalled[0].minClock else m
  {
    assert order[..i + 1][..i] == order[..i];
  }

  lemma MinReadyNext(order: seq<nat>, queues: map<nat, CommandQueue>, i: nat, bgClock: nat)
    requires i < |order|
    ensures MinReady(order[..i + 1], queues, bgClock)
         == var q := Queue(queues, order[i]);
            var m := MinReady(order[..i], queues, bgClock);
            if q.ready != [] && EffectiveClock(q.ready[0], bgClock) < m then EffectiveClock(q.ready[0], bgClock) else m
  {
    assert order[..i + 1][..i] == order[..i];
  }

  lemma StoredBuilds(h: Host, packed: Host, h': Host, cmds: seq<Command>, pending: nat, eventtime: real)
    requires packed == h.(out := packed.out) && Packs(h.out, packed.out, cmds, h.sendSeq)
    requires h' == StoreBlock(packed, cmds, pending, eventtime)
    ensures Builds(h, h', pending, eventtime)
  {
    assert h'.out == packed.out;
    assert h'.sent[|h'.sent| - 1].cmds == cmds;
  }

  /** A sequence of steps of command_event from h to h'. */
  ghost predicate Steps(trace: seq<Host>, h: Host, h': Host, eventtime: real) {
    && |trace| > 0 && trace[0] == h && trace[|trace| - 1] == h'
    && forall i :: 0 <= i < |trace| - 1 ==> CommandStep(trace[i], trace[i + 1], eventtime)
  }

  lemma StepsStart(h: Host, eventtime: real)
    ensures Steps([h], h, h, eventtime)
  {
  }

  lemma HostOutbox(h: Host)
    requires HostOk(h)
    ensures OutboxOk(h.out)
  {
  }

  lemma StepsSnoc(trace: seq<Host>, h: Host, mid: Host, h': Host, eventtime: real) returns (longer: seq<Host>)
    requires Steps(trace, h, mid, eventtime) && CommandStep(mid, h', eventtime)
    ensures Steps(longer, h, h', eventtime)
  {
    longer := trace + [h'];
  }

  lemma NewBlock(wire0: seq<Block>, wire: seq<Block>, buf: seq<Block>, sent: seq<Block>, n: nat, b: Block)
    requires n <= |sent| && wire + buf == wire0 + sent[n..]
    ensures wire + (buf + [b]) == wire0 + (sent + [b])[n..]
  {
    assert (sent + [b])[n..] == sent[n..] + [b];
    assert wire + (buf + [b]) == (wire + buf) + [b];
  }

  predicate SameBlocks(h: Host, h': Host) {
    h'.sent == h.sent && h'.sendSeq == h.sendSeq && h'.receiveSeq == h.receiveSeq
  }

  lemma CheckStep(h: Host, h': Host, pending: nat, eventtime: real)
    requires h' == CheckSend(h, pending, eventtime).0
    ensures CommandStep(h, h', eventtime)
    ensures SameBlocks(h, h')
    ensures CheckSend(h, pending, eventtime).1.Now? ==> !WindowFull(h')
  {
    assert Checks(h, h', pending, eventtime);
  }

  lemma BuildStep(h: Host, h': Host, pending: nat, eventtime: real)
    requires Builds(h, h', pending, eventtime) && !WindowFull(h)
    ensures CommandStep(h, h', eventtime)
    ensures h'.sent == h.sent + [h'.sent[|h'.sent| - 1]] && h'.sendSeq == h.sendSeq + 1
    ensures h'.receiveSeq == h.receiveSeq
  {
  }

  lemma WriteStep(h: Host, h': Host, buflen: nat, eventtime: real)
    requires h' == Write(h, buflen, eventtime)
    ensures CommandStep(h, h', eventtime)
    ensures SameBlocks(h, h')
    ensures WindowFull(h') == WindowFull(h)
  {
    assert Writes(h, h', buflen, eventtime);
  }

  class SerialQueue {
    var sq: Host         // struct serialqueue
    var wire: seq<Block> // every block handed to do_write, in order

    /** A session that starts synchronised at `base` (serialqueue_alloc, past the handshake). */
    constructor (cfg: Config, base: nat)
      requires base >= 2
      ensures HostOk(sq) && wire == []
      ensures sq.sendSeq == base && sq.receiveSeq == base && sq.sent == []
      ensures sq.out == Outbox([], map[], 0, 0, []) && sq.received == [] && sq.samples == []
    {
      sq := Host(cfg, base, base, 0, 0, 0, 0, [], 0.0, 0.0, MIN_RTO, 0.0, 0.0,
                 Outbox([], map[], 0, 0, []), 0, 0, MAX_CLOCK, [], Never, Never, []);
      wire := [];
    }

    /** update_receive_seq: drop the acknowledged blocks, sample the round trip, rearm the timer. */
    method UpdateReceiveSeq(eventtime: real, rseq: nat)
      requires sq.receiveSeq < rseq <= sq.receiveSeq + |sq.sent|
      modifies this`sq
      ensures sq == HostSpec.UpdateReceiveSeq(old(sq), eventtime, rseq)
    {
      DropAcked(rseq);
      sq := sq.(receiveSeq := rseq, commandTimer := Now);
      SampleRtt(eventtime, rseq);
      if sq.sent == [] {
        sq := sq.(retransmitTimer := Never);
      } else {
        sq := sq.(retransmitTimer := At(eventtime + sq.rto + Bittime(sq.cfg, sq.sent[0].len)));
      }
    }

    method DropAcked(rseq: nat)
      requires sq.receiveSeq < rseq <= sq.receiveSeq + |sq.sent|
      modifies this`sq
      ensures var k := rseq - old(sq).receiveSeq;
        sq == old(sq).(sent := old(sq).sent[k..],
                       needAckBytes := old(sq).needAckBytes - BlockSum(old(sq).sent[..k]),
                       lastReceiveSentTime := old(sq).sent[k - 1].receiveTime,
                       lastAckBytes := old(sq).sent[k - 1].len)
    {
      var sentSeq := sq.receiveSeq;
      ghost var sq0 := sq;
      while sentSeq != rseq
        invariant sq0.receiveSeq <= sentSeq <= rseq
        invariant var k := sentSeq - sq0.receiveSeq;
          sq == sq0.(sent := sq0.sent[k..], needAckBytes := sq0.needAckBytes - BlockSum(sq0.sent[..k]),
                     lastReceiveSentTime := if sentSeq == rseq then sq0.sent[k - 1].receiveTime else sq0.lastReceiveSentTime,
                     lastAckBytes := if sentSeq == rseq then sq0.sent[k - 1].len else sq0.lastAckBytes)
        decreases rseq - sentSeq
      {
        var first := sq.sent[0];
        ghost var k := sentSeq - sq0.receiveSeq;
        assert sq0.sent[..k + 1][..k] == sq0.sent[..k];
        sq := sq.(needAckBytes := sq.needAckBytes - first.len, sent := sq.sent[1..]);
        sentSeq := sentSeq + 1;
        if sentSeq == rseq {
          sq := sq.(lastReceiveSentTime := first.receiveTime, lastAckBytes := first.len);
        }
      }
    }

    method SampleRtt(eventtime: real, rseq: nat)
      requires rseq > 0
      modifies this`sq
      ensures sq == UpdateRtt(old(sq), eventtime, rseq)
    {
      if sq.rttSampleSeq != 0 && rseq > sq.rttSampleSeq && sq.lastReceiveSentTime != 0.0 {
        var delta := eventtime - sq.lastReceiveSentTime;
        var rttvar, srtt;
        if sq.srtt == 0.0 {
          rttvar := delta / 2.0;
          srtt := delta * 10.0;
        } else {
          rttvar := (3.0 * sq.rttvar + AbsReal(sq.srtt - delta)) / 4.0;
          srtt := (7.0 * sq.srtt + delta) / 8.0;
        }
        var rttvar4 := rttvar * 4.0;
        if rttvar4 < 0.001 {
          rttvar4 := 0.001;
        }
        var rto := srtt + rttvar4;
        if rto < MIN_RTO {
          rto := MIN_RTO;
        } else if rto > MAX_RTO {
          rto := MAX_RTO;
        }
        sq := sq.(rttvar := rttvar, srtt := srtt, rto := rto, rttSampleSeq := 0, samples := sq.samples + [rseq - 1]);
      }
    }

    /** handle_message, for a frame that passed the CRC. */
    method HandleMessage(eventtime: real, readTime: real, nibble: nat, reply: Reply)
      requires HostOk(sq) && nibble < MESSAGE_SEQ_SPAN
      modifies this`sq
      ensures sq == HostSpec.HandleMessage(old(sq), eventtime, readTime, nibble, reply) && HostOk(sq)
    {
      assert sq.sendSeq == sq.receiveSeq + |sq.sent| by {
        assert WindowOk(sq);
      }
      HandleMessageOk(sq, eventtime, readTime, nibble, reply);
      var rseq := Widened(nibble);
      if rseq != sq.receiveSeq {
        if rseq > sq.sendSeq {
          return; // an ack for a block that was never sent
        }
        UpdateReceiveSeq(eventtime, rseq);
      }
      NotifyAcked(eventtime, rseq, reply);
      Process(readTime, rseq, reply);
    }

    method Widened(nibble: nat) returns (rseq: nat)
      requires nibble < MESSAGE_SEQ_SPAN
      ensures rseq == Widen(sq.receiveSeq, nibble)
      ensures rseq % MESSAGE_SEQ_SPAN == nibble && sq.receiveSeq <= rseq < sq.receiveSeq + MESSAGE_SEQ_SPAN
    {
      rseq := sq.receiveSeq - sq.receiveSeq % MESSAGE_SEQ_SPAN + nibble;
      if rseq < sq.receiveSeq {
        rseq := rseq + MESSAGE_SEQ_SPAN;
      }
    }

    method NotifyAcked(eventtime: real, rseq: nat, reply: Reply)
      modifies this`sq
      ensures sq == ReleaseNotify(old(sq), eventtime, rseq, reply)
    {
      ghost var sq0, n := sq, 0;
      ghost var total := NotifyCount(sq.out.notify, WakeSeq(rseq, reply));
      var notify, received := sq.out.notify, sq.received;
      while notify != []
        invariant 0 <= n <= total
        invariant notify == sq0.out.notify[n..]
        invariant received == sq0.received + Notifications(sq0.out.notify[..n], sq0.lastReceiveSentTime, eventtime)
        decreases |notify|
      {
        var wakeSeq := rseq - 1 - (if reply.AckNak? then 0 else 1);
        if notify[0].blockSeq > wakeSeq {
          break;
        }
        var qm := notify[0];
        assert sq0.out.notify[..n + 1][..n] == sq0.out.notify[..n];
        notify := notify[1..];
        received := received + [Notification(qm.notifyId, qm.blockSeq, sq.lastReceiveSentTime, eventtime)];
        n := n + 1;
      }
      assert n == total;
      sq := sq.(out := sq.out.(notify := notify), received := received);
    }

    method Process(readTime: real, rseq: nat, reply: Reply)
      modifies this`sq
      ensures sq == ProcessReply(old(sq), readTime, rseq, reply)
    {
      match reply
      case AckNak =>
        if sq.lastAckSeq < rseq {
          sq := sq.(lastAckSeq := rseq);
        } else if rseq > sq.ignoreNakSeq && sq.sent != [] {
          sq := sq.(retransmitTimer := Now); // a duplicate ack is a nak
        }
      case Data(len, _) =>
        var sentTime := if rseq > sq.retransmitSeq then sq.lastReceiveSentTime else 0.0;
        sq := sq.(received := sq.received + [Response(reply, rseq, sentTime, readTime - Bittime(sq.cfg, len))]);
    }

    /** The loop of retransmit_event: the image to send, its length, and that of its first block. */
    method RetransmitImage() returns (image: seq<Block>, buflen: nat, firstBuflen: nat)
      ensures image == sq.sent && buflen == 1 + BlockSum(sq.sent)
      ensures firstBuflen == if sq.sent == [] then 0 else sq.sent[0].len + 1
    {
      var i := 0;
      buflen, firstBuflen, image := 1, 0, [];
      while i < |sq.sent|
        invariant 0 <= i <= |sq.sent|
        invariant buflen == 1 + BlockSum(sq.sent[..i])
        invariant firstBuflen == if i == 0 then 0 else sq.sent[0].len + 1
        invariant image == sq.sent[..i]
      {
        assert sq.sent[..i + 1][..i] == sq.sent[..i];
        image := image + [sq.sent[i]];
        buflen := buflen + sq.sent[i].len;
        if firstBuflen == 0 {
          firstBuflen := sq.sent[i].len + 1;
        }
        i := i + 1;
      }
      assert sq.sent[..i] == sq.sent;
    }

    /** retransmit_event: the blocks on sent_queue go out again, in order, in one write. */
    method RetransmitEvent(eventtime: real)
      requires HostOk(sq) && !sq.retransmitTimer.Never?
      modifies this
      ensures sq == HostSpec.RetransmitEvent(old(sq), eventtime)
      ensures HostOk(sq) && wire == old(wire) + old(sq).sent
    {
      hide HostOk, Bittime, BlockSum;
      RetransmitOk(sq, eventtime);
      var image, buflen, firstBuflen := RetransmitImage();
      wire := wire + image;
      var ignoreNakSeq, rto := sq.sendSeq, sq.rto;
      if sq.retransmitTimer.Now? {
        ignoreNakSeq := sq.receiveSeq;
        if sq.receiveSeq < sq.retransmitSeq {
          ignoreNakSeq := sq.retransmitSeq;
        }
      } else {
        rto := rto * 2.0;
        if rto > MAX_RTO {
          rto := MAX_RTO;
        }
      }
      sq := sq.(rto := rto, ignoreNakSeq := ignoreNakSeq, retransmitSeq := sq.sendSeq, rttSampleSeq := 0,
                idleTime := eventtime + Bittime(sq.cfg, buflen),
                retransmitTimer := At(eventtime + rto + Bittime(sq.cfg, firstBuflen)));
    }

    /** serialqueue_send_batch. */
    method SendBatch(q: nat, cmds: seq<Command>)
      requires HostOk(sq) && TaggedFor(q, cmds)
      modifies this`sq
      ensures sq == HostSpec.SendBatch(old(sq), q, cmds) && HostOk(sq)
    {
      SendBatchOk(sq, q, cmds);
      var msgs, len := SetMinClocks(cmds);
      if len == 0 {
        return;
      }
      BytesWithMinClocks(cmds);
      Append(q, msgs, len);
    }

    /** The first loop of serialqueue_send_batch. */
    static method SetMinClocks(cmds: seq<Command>) returns (msgs: seq<Command>, len: nat)
      ensures msgs == WithMinClocks(cmds) && len == Bytes(cmds)
      ensures len > 0 ==> msgs != []
    {
      msgs, len := [], 0;
      var i := 0;
      while i < |cmds|
        invariant 0 <= i <= |cmds|
        invariant msgs == WithMinClocks(cmds[..i]) && len == Bytes(cmds[..i])
      {
        assert cmds[..i + 1][..i] == cmds[..i];
        var qm := cmds[i];
        if qm.minClock + 0x8000_0000 < qm.reqClock && qm.reqClock != BACKGROUND_PRIORITY_CLOCK {
          qm := qm.(minClock := qm.reqClock - 0x8000_0000);
        }
        msgs := msgs + [qm];
        len := len + |qm.body|;
        i := i + 1;
      }
      assert cmds[..i] == cmds;
    }

    method Append(q: nat, msgs: seq<Command>, len: nat)
      requires len == Bytes(msgs) && msgs != []
      modifies this`sq
      ensures sq == old(sq).(out := Enqueue(old(sq).out, q, msgs),
                             needKickClock := if msgs[0].minClock < old(sq).needKickClock then 0 else old(sq).needKickClock)
    {
      var cq := Queue(sq.out.queues, q);
      var order := sq.out.order;
      if IsEmpty(cq) {
        order := order + [q];
      }
      sq := sq.(out := sq.out.(order := order,
                               queues := sq.out.queues[q := CommandQueue(cq.ready, cq.stalled + msgs)],
                               stalledBytes := sq.out.stalledBytes + len));
      if msgs[0].minClock < sq.needKickClock {
        sq := sq.(needKickClock := 0);
      }
    }

    /** The scan of build_and_send_command for the ready head with the least req_clock. */
    method MostUrgentQueue() returns (i: nat)
      requires OutboxOk(sq.out) && sq.out.readyBytes != 0
      ensures i < |sq.out.order| && Queue(sq.out.queues, sq.out.order[i]).ready != []
      ensures MostUrgent(Queue(sq.out.queues, sq.out.order[i]).ready[0], sq.out.queues)
    {
      var order, queues := sq.out.order, sq.out.queues;
      var minClock, j := MAX_CLOCK, 0;
      i := |order|;
      while j < |order|
        invariant 0 <= j <= |order|
        invariant i == |order| ==> minClock == MAX_CLOCK
        invariant i != |order| ==>
          i < j && Queue(queues, order[i]).ready != [] && minClock == Queue(queues, order[i]).ready[0].reqClock
        invariant forall k :: 0 <= k < j && Queue(queues, order[k]).ready != [] ==>
          i < |order| && minClock <= Queue(queues, order[k]).ready[0].reqClock
      {
        var ready := Queue(queues, order[j]).ready;
        if ready != [] {
          assert order[j] in queues;
          assert Sendable(ready[0]);
          if ready[0].reqClock < minClock {
            minClock := ready[0].reqClock;
            i := j;
          }
        }
        j := j + 1;
      }
      SomeReady(order, queues);
      forall q <- queues | queues[q].ready != []
        ensures minClock <= queues[q].ready[0].reqClock
      {
        assert q in order;
      }
    }

    /** Unlinks the ready head of the i-th queue and notes its notification. */
    method TakeReady(i: nat) returns (m: Command)
      requires i < |sq.out.order| && Queue(sq.out.queues, sq.out.order[i]).ready != []
      modifies this`sq
      ensures m == Queue(old(sq).out.queues, old(sq).out.order[i]).ready[0]
      ensures sq == old(sq).(out := Taken(old(sq).out, i, old(sq).sendSeq))
    {
      var o := sq.out;
      var q := o.order[i];
      m := Queue(o.queues, q).ready[0];
      var cq := CommandQueue(Queue(o.queues, q).ready[1..], Queue(o.queues, q).stalled);
      var order, notify := o.order, o.notify;
      if IsEmpty(cq) {
        order := order[..i] + order[i + 1..];
      }
      if m.notifyId != 0 {
        notify := notify + [PendingNotify(m.notifyId, sq.sendSeq)];
      }
      sq := sq.(out := Outbox(order, o.queues[q := cq], o.readyBytes - |m.body|, o.stalledBytes, notify));
    }

    /** The packing loop of build_and_send_command. */
    method PackCommands() returns (cmds: seq<Command>, len: nat)
      requires OutboxOk(sq.out)
      modifies this`sq
      ensures sq == old(sq).(out := sq.out)
      ensures Packs(old(sq).out, sq.out, cmds, sq.sendSeq)
      ensures len == MESSAGE_HEADER_SIZE + Bytes(cmds)
    {
      ghost var o0 := sq.out;
      cmds, len := [], MESSAGE_HEADER_SIZE;
      PackingStart(o0, sq.sendSeq);
      while sq.out.readyBytes != 0
        invariant sq == old(sq).(out := sq.out)
        invariant Packing(o0, sq.out, cmds, sq.sendSeq)
        invariant len == MESSAGE_HEADER_SIZE + Bytes(cmds)
        decreases Total(ReadyCommands, sq.out.order, sq.out.queues)
      {
        ghost var o := sq.out;
        assert OutboxOk(o);
        var i := MostUrgentQueue();
        var size := |Queue(sq.out.queues, sq.out.order[i]).ready[0].body|;
        if len + size > MESSAGE_MAX - MESSAGE_TRAILER_SIZE {
          PackingEnd(o0, sq.out, cmds, sq.sendSeq, i);
          return;
        }
        PackingStep(o0, o, cmds, sq.sendSeq, i);
        TakeTotals(o.order, o.queues, i);
        var m := TakeReady(i);
        BytesSnoc(cmds, m);
        cmds := cmds + [m];
        len := len + size;
      }
      PackingEnd(o0, sq.out, cmds, sq.sendSeq, 0);
    }

    /** build_and_send_command: pack a block, store it on sent_queue, and return its length. */
    method BuildAndSendCommand(pending: nat, eventtime: real) returns (len: nat)
      requires HostOk(sq) && !WindowFull(sq)
      modifies this`sq
      ensures Builds(old(sq), sq, pending, eventtime) && HostOk(sq)
      ensures len == sq.sent[|sq.sent| - 1].len
    {
      hide HostOk, OutboxOk, Packs, Builds;
      HostOutbox(sq);
      ghost var sq0 := sq;
      var cmds, used := PackCommands();
      ghost var packed := sq;
      len := used + MESSAGE_TRAILER_SIZE;
      var idle := MaxReal(eventtime, sq.idleTime) + Bittime(sq.cfg, pending + len);
      Store(Block(cmds, len, eventtime, idle));
      StoredBuilds(sq0, packed, sq, cmds, pending, eventtime);
      BuildsOk(sq0, sq, pending, eventtime);
    }

    method Store(b: Block)
      modifies this`sq
      ensures sq == old(sq).(
        retransmitTimer := if old(sq).sent == [] then At(b.receiveTime + old(sq).rto) else old(sq).retransmitTimer,
        rttSampleSeq := if old(sq).rttSampleSeq == 0 then old(sq).sendSeq else old(sq).rttSampleSeq,
        sendSeq := old(sq).sendSeq + 1, needAckBytes := old(sq).needAckBytes + b.len, sent := old(sq).sent + [b])
    {
      if sq.sent == [] {
        sq := sq.(retransmitTimer := At(b.receiveTime + sq.rto));
      }
      if sq.rttSampleSeq == 0 {
        sq := sq.(rttSampleSeq := sq.sendSeq);
      }
      sq := sq.(sendSeq := sq.sendSeq + 1, needAckBytes := sq.needAckBytes + b.len, sent := sq.sent + [b]);
    }

    /** The inner loop of check_send_command on one queue. */
    static method ReleaseDue(cq: CommandQueue, ackClock: nat) returns (r: CommandQueue, moved: nat)
      ensures r == Release(cq, ackClock)
      ensures Bytes(r.stalled) + moved == Bytes(cq.stalled)
    {
      hide Bytes;
      r, moved := cq, 0;
      ghost var n := 0;
      while r.stalled != [] && r.stalled[0].minClock <= ackClock
        invariant 0 <= n <= |cq.stalled|
        invariant r == CommandQueue(cq.ready + cq.stalled[..n], cq.stalled[n..])
        invariant forall i :: 0 <= i < n ==> cq.stalled[i].minClock <= ackClock
        invariant Bytes(r.stalled) + moved == Bytes(cq.stalled)
        decreases |r.stalled|
      {
        BytesHead(r.stalled);
        moved := moved + |r.stalled[0].body|;
        r := CommandQueue(r.ready + [r.stalled[0]], r.stalled[1..]);
        n := n + 1;
      }
      assert n == DueCount(cq.stalled, ackClock);
    }

    /** The loop of check_send_command over pending_queues. */
    method ReleaseQueues(ackClock: nat, bgClock: nat) returns (minStalled: nat, minReady: nat)
      requires OutboxOk(sq.out)
      modifies this`sq
      ensures sq == old(sq).(out := ReleaseStalled(old(sq).out, ackClock))
      ensures minStalled == MinStalled(sq.out.order, sq.out.queues)
      ensures minReady == MinReady(sq.out.order, sq.out.queues, bgClock)
    {
      hide Total, MinStalled, MinReady, ReleaseAll, Release, Bytes;
      ghost var o0 := sq.out;
      NoQueues(o0.queues, ackClock, bgClock);
      var order, queues, moved, i := sq.out.order, sq.out.queues, 0, 0;
      minStalled, minReady := MAX_CLOCK, MAX_CLOCK;
      while i < |order|
        invariant 0 <= i <= |order| && sq == old(sq)
        invariant queues == ReleaseAll(order[..i], o0.queues, ackClock)
        invariant moved == Total(StalledBytes, order[..i], o0.queues) - Total(StalledBytes, order[..i], queues)
        invariant minStalled == MinStalled(order[..i], queues)
        invariant minReady == MinReady(order[..i], queues, bgClock)
      {
        ReleaseNext(order, o0.queues, ackClock, i, bgClock);
        var cq, bytes := ReleaseDue(Queue(queues, order[i]), ackClock);
        queues := queues[order[i] := cq];
        moved := moved + bytes;
        MinStalledNext(order, queues, i);
        if cq.stalled != [] && cq.stalled[0].minClock < minStalled {
          minStalled := cq.stalled[0].minClock;
        }
        MinReadyNext(order, queues, i, bgClock);
        if cq.ready != [] {
          var reqClock := if cq.ready[0].reqClock == BACKGROUND_PRIORITY_CLOCK then bgClock else cq.ready[0].reqClock;
          if reqClock < minReady {
            minReady := reqClock;
          }
        }
        i := i + 1;
      }
      assert order[..i] == order;
      assert queues == ReleaseAll(order, o0.queues, ackClock);
      sq := sq.(out := sq.out.(queues := queues, stalledBytes := sq.out.stalledBytes - moved,
                               readyBytes := sq.out.readyBytes + moved));
    }

    method WindowIsFull() returns (full: bool)
      ensures full == WindowFull(sq)
    {
      if sq.sendSeq >= sq.receiveSeq + MAX_PENDING_BLOCKS {
        return true; // need an ack before more can be sent
      }
      if sq.sendSeq > sq.receiveSeq && sq.cfg.receiveWindow != 0 {
        var needAck := sq.needAckBytes + MESSAGE_MAX;
        if sq.lastAckSeq < sq.receiveSeq {
          needAck := needAck + sq.lastAckBytes;
        }
        return needAck > sq.cfg.receiveWindow;
      }
      return false;
    }

    /** The end of check_send_command: when to send, given the least stalled and ready clocks. */
    method DecideWake(pending: nat, ackClock: nat, idle: real, minStalled: nat, minReady: nat) returns (kick: nat, wake: Wake)
      requires minStalled == MinStalled(sq.out.order, sq.out.queues)
      requires minReady == MinReady(sq.out.order, sq.out.queues, BackgroundClock(sq, pending, idle))
      ensures (kick, wake) == Decide(sq, pending, ackClock, idle)
    {
      kick := sq.needKickClock;
      if sq.out.readyBytes >= MESSAGE_PAYLOAD_MAX {
        return kick, Now;
      }
      if sq.cfg.ce.estFreq == 0.0 {
        if sq.out.readyBytes != 0 {
          return kick, Now;
        }
        return MAX_CLOCK, Never;
      }
      var delta := Truncate(MIN_REQTIME_DELTA * sq.cfg.ce.estFreq);
      if minReady <= ackClock + delta {
        return kick, Now;
      }
      var want := minReady - delta;
      if minStalled < want {
        want := minStalled;
      }
      return want, At(idle + (want - ackClock) as real / sq.cfg.ce.estFreq);
    }

    /** check_send_command. */
    method CheckSendCommand(pending: nat, eventtime: real) returns (wake: Wake)
      requires HostOk(sq)
      modifies this`sq
      ensures (sq, wake) == CheckSend(old(sq), pending, eventtime) && HostOk(sq)
    {
      hide HostOk, OutboxOk, ReleaseStalled, Decide, MinStalled, MinReady, IdleAfter, ClockFromTime, WindowFull;
      ChecksOk(sq, pending, eventtime);
      HostOutbox(sq);
      var full := WindowIsFull();
      if full {
        return Never;
      }
      var idle := IdleAfter(sq, pending, eventtime);
      var ackClock := ClockFromTime(sq.cfg.ce, idle);
      var bgClock := BackgroundClock(sq, pending, idle);
      var minStalled, minReady := ReleaseQueues(ackClock, bgClock);
      var kick;
      kick, wake := DecideWake(pending, ackClock, idle, minStalled, minReady);
      sq := sq.(needKickClock := kick);
    }

    method CheckTurn(buflen: nat, eventtime: real) returns (wake: Wake)
      requires HostOk(sq)
      modifies this`sq
      ensures HostOk(sq) && CommandStep(old(sq), sq, eventtime) && SameBlocks(old(sq), sq)
      ensures wake.Now? ==> !WindowFull(sq)
    {
      wake := CheckSendCommand(buflen, eventtime);
      CheckStep(old(sq), sq, buflen, eventtime);
    }

    method BuildTurn(buflen: nat, eventtime: real) returns (len: nat)
      requires HostOk(sq) && !WindowFull(sq)
      modifies this`sq
      ensures HostOk(sq) && CommandStep(old(sq), sq, eventtime)
      ensures sq.sent != [] && sq.sent == old(sq).sent + [sq.sent[|sq.sent| - 1]]
      ensures sq.sendSeq == old(sq).sendSeq + 1 && sq.receiveSeq == old(sq).receiveSeq
      ensures len >= MESSAGE_MIN
    {
      len := BuildAndSendCommand(buflen, eventtime);
      assert WindowOk(sq);
      BuildStep(old(sq), sq, buflen, eventtime);
    }

    method WriteTurn(buf: seq<Block>, buflen: nat, eventtime: real)
      requires HostOk(sq)
      modifies this
      ensures HostOk(sq) && CommandStep(old(sq), sq, eventtime) && SameBlocks(old(sq), sq)
      ensures WindowFull(sq) == WindowFull(old(sq)) && wire == old(wire) + buf
    {
      WriteOut(buf, buflen, eventtime);
      WriteStep(old(sq), sq, buflen, eventtime);
    }

    /** command_event: blocks are built while check_send_command asks for one now, and every block
        built is written.  The event is a sequence of the steps of HostSpec.CommandStep, after
        which the reactor sets the timer. */
    method CommandEvent(eventtime: real) returns (ghost trace: seq<Host>, ghost last: Host)
      requires HostOk(sq)
      modifies this
      ensures !sq.commandTimer.Now?
      ensures Steps(trace, old(sq), last, eventtime) && HostOk(last)
      ensures sq == last.(commandTimer := sq.commandTimer)
      ensures old(sq).sent <= sq.sent && wire == old(wire) + sq.sent[|old(sq).sent|..]
    {
      hide HostOk, CommandStep, Steps;
      StepsStart(sq, eventtime);
      var buflen: nat := 0;
      var buf: seq<Block> := []; // built and not yet written
      ghost var sq0 := sq;
      trace := [sq];
      while true
        invariant HostOk(sq) && Steps(trace, sq0, sq, eventtime)
        invariant sq0.sent <= sq.sent && wire + buf == old(wire) + sq.sent[|sq0.sent|..]
        invariant buflen == 0 ==> buf == []
        decreases sq.receiveSeq + MAX_PENDING_BLOCKS - sq.sendSeq
      {
        ghost var before := sq;
        var wake := CheckTurn(buflen, eventtime);
        trace := StepsSnoc(trace, sq0, before, sq, eventtime);
        if !wake.Now? || buflen + MESSAGE_MAX > MESSAGE_MAX * MAX_PENDING_BLOCKS {
          if buflen != 0 {
            before := sq;
            WriteTurn(buf, buflen, eventtime);
            trace := StepsSnoc(trace, sq0, before, sq, eventtime);
            buflen, buf := 0, [];
          }
          if !wake.Now? {
            last := sq;
            sq := sq.(commandTimer := wake);
            return;
          }
        }
        before := sq;
        var len := BuildTurn(buflen, eventtime);
        trace := StepsSnoc(trace, sq0, before, sq, eventtime);
        NewBlock(old(wire), wire, buf, before.sent, |sq0.sent|, sq.sent[|sq.sent| - 1]);
        buf := buf + [sq.sent[|sq.sent| - 1]];
        buflen := buflen + len;
      }
    }

    /** do_write of the buffer: the line is busy until it is out. */
    method WriteOut(buf: seq<Block>, buflen: nat, eventtime: real)
      requires HostOk(sq)
      modifies this
      ensures sq == Write(old(sq), buflen, eventtime) && HostOk(sq)
      ensures wire == old(wire) + buf
    {
      wire := wire + buf;
      if buflen != 0 {
        assert WindowOk(sq) && TimersOk(sq);
        sq := sq.(idleTime := MaxReal(eventtime, sq.idleTime) + Bittime(sq.cfg, buflen));
        assert WindowOk(sq) && TimersOk(sq);
      }
    }
  }
}
