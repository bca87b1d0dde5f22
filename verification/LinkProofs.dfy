/** Every step of the link keeps LinkOk, and what that means for whole runs. */
module LinkProofs {
  import opened Message
  import opened HostSpec
  import opened HostInvariants
  import opened Link

  // ------------------------------------------------------------------ four bits are enough

  /** Two numbers less than sixteen apart are equal when their low four bits are. */
  lemma NibbleExact(a: nat, b: nat)
    requires -16 < a - b < 16 && a % MESSAGE_SEQ_SPAN == b % MESSAGE_SEQ_SPAN
    ensures a == b
  {
  }

  lemma NextNibble(n: nat)
    ensures (n % MESSAGE_SEQ_SPAN + 1) % MESSAGE_SEQ_SPAN == (n + 1) % MESSAGE_SEQ_SPAN
  {
  }

  /** The host recovers the full acknowledgement number from its low bits. */
  lemma WidenExact(r: nat, a: nat)
    requires r <= a < r + MESSAGE_SEQ_SPAN
    ensures Widen(r, a % MESSAGE_SEQ_SPAN) == a
  {
    NibbleExact(Widen(r, a % MESSAGE_SEQ_SPAN), a);
  }

  // ------------------------------------------------------------------ losses

  lemma LoseDownKeepsOk(l: Link, l': Link, i: nat)
    requires LinkOk(l) && LossStep(l, l', LoseDown(i))
    ensures LinkOk(l')
  {
    DownWithout(l.base, Expected(l), l.built, l.down, i);
  }

  lemma LoseUpKeepsOk(l: Link, l': Link, i: nat)
    requires LinkOk(l) && LossStep(l, l', LoseUp(i))
    ensures LinkOk(l')
  {
    UpWithout(l.host.receiveSeq, Expected(l), l.mcu.dispatching, l.up, i);
    SettledWithout(l.host.received, Expected(l), l.mcu.dispatching, l.up, i);
  }

  lemma DownWithout(base: nat, n: nat, built: seq<Block>, down: seq<Down>, i: nat)
    requires DownOk(base, n, built, down) && i < |down|
    ensures DownOk(base, n, built, Without(down, i))
  {
    var d := Without(down, i);
    assert forall j :: 0 <= j < |d| ==> d[j] == down[if j < i then j else j + 1];
  }

  lemma UpWithout(r: nat, n: nat, dispatching: Option<nat>, up: seq<Up>, i: nat)
    requires UpOk(r, n, dispatching, up) && i < |up|
    ensures UpOk(r, n, dispatching, Without(up, i))
  {
    var u := Without(up, i);
    assert forall j :: 0 <= j < |u| ==> u[j] == up[if j < i then j else j + 1];
  }

  lemma SettledWithout(received: seq<Received>, n: nat, dispatching: Option<nat>, up: seq<Up>, i: nat)
    requires SettledOk(received, n, dispatching, up) && i < |up|
    ensures SettledOk(received, n, dispatching, Without(up, i))
  {
    var u := Without(up, i);
    assert forall j :: 0 <= j < |u| ==> u[j] == up[if j < i then j else j + 1];
    forall m | 0 <= m < |received| && received[m].Notification?
      ensures SettledAt(received[m].blockSeq, n, dispatching, u)
    {
      assert SettledAt(received[m].blockSeq, n, dispatching, up);
    }
  }

  // ------------------------------------------------------------------ the micro-controller

  /** A block in flight is within twelve of the expected number, so it is accepted exactly when it
      is the expected one. */
  lemma AcceptsExpected(l: Link, i: nat)
    requires LinkOk(l) && i < |l.down|
    ensures -MAX_PENDING_BLOCKS <= l.down[i].seqNo - Expected(l) < MAX_PENDING_BLOCKS
    ensures l.down[i].nibble == l.mcu.nextSequence <==> l.down[i].seqNo == Expected(l)
    ensures 0 <= l.down[i].seqNo - l.base < |l.built| && l.down[i].cmds == l.built[l.down[i].seqNo - l.base].cmds
  {
    hide HostOk, UpOk, DeliveredOk, SettledOk, ConservedOk, TimesOk;
    if l.down[i].nibble == l.mcu.nextSequence {
      NibbleExact(l.down[i].seqNo, Expected(l));
    }
  }

  lemma AcceptDown(base: nat, n: nat, built: seq<Block>, down: seq<Down>)
    requires DownOk(base, n, built, down) && down != [] && down[0].seqNo == n
    ensures DownOk(base, n + 1, built, down[1..])
  {
    forall j | 0 <= j < |down| - 1
      ensures n + 1 - MAX_PENDING_BLOCKS <= down[1..][j].seqNo
    {
      assert down[1..][j] == down[j + 1];
      assert down[0].seqNo - (MAX_PENDING_BLOCKS - 1) <= down[j + 1].seqNo;
    }
  }

  lemma DropDown(base: nat, n: nat, built: seq<Block>, down: seq<Down>)
    requires DownOk(base, n, built, down) && down != []
    ensures DownOk(base, n, built, down[1..])
  {
    assert forall j :: 0 <= j < |down| - 1 ==> down[1..][j] == down[j + 1];
  }

  lemma UpAppend(r: nat, n: nat, dispatching: Option<nat>, up: seq<Up>, reply: Reply)
    requires UpOk(r, n, dispatching, up) && r <= n
    requires dispatching.Some? ==> n == dispatching.value + 1
    requires SentBy(reply).Some? ==> SentBy(reply) == dispatching
    requires reply.AckNak? ==> dispatching.None?
    ensures UpOk(r, n, dispatching, up + [Up(n % MESSAGE_SEQ_SPAN, n, reply)])
  {
    var u := up + [Up(n % MESSAGE_SEQ_SPAN, n, reply)];
    forall i, j | 0 <= i < j < |u|
      ensures u[i].ackNo <= u[j].ackNo
      ensures u[i].reply.AckNak? && SentBy(u[j].reply).Some? ==> u[i].ackNo <= SentBy(u[j].reply).value
    {
      if j < |up| {
        assert u[i] == up[i] && u[j] == up[j];
      } else {
        assert u[i] == up[i];
      }
    }
  }

  lemma SettledAppend(received: seq<Received>, n: nat, dispatching: Option<nat>, up: seq<Up>, u: Up)
    requires SettledOk(received, n, dispatching, up)
    requires SentBy(u.reply).Some? ==> SentBy(u.reply) == dispatching
    ensures SettledOk(received, n, dispatching, up + [u])
  {
    forall m | 0 <= m < |received| && received[m].Notification?
      ensures SettledAt(received[m].blockSeq, n, dispatching, up + [u])
    {
      assert SettledAt(received[m].blockSeq, n, dispatching, up);
    }
  }

  lemma SettledAccept(received: seq<Received>, n: nat, up: seq<Up>)
    requires SettledOk(received, n, None, up)
    ensures SettledOk(received, n + 1, Some(n), up)
  {
    forall m | 0 <= m < |received| && received[m].Notification?
      ensures SettledAt(received[m].blockSeq, n + 1, Some(n), up)
    {
      assert SettledAt(received[m].blockSeq, n, None, up);
    }
  }

  lemma SettledDone(received: seq<Received>, n: nat, dispatching: Option<nat>, up: seq<Up>)
    requires SettledOk(received, n, dispatching, up)
    ensures SettledOk(received, n, None, up)
  {
    forall m | 0 <= m < |received| && received[m].Notification?
      ensures SettledAt(received[m].blockSeq, n, None, up)
    {
      assert SettledAt(received[m].blockSeq, n, dispatching, up);
    }
  }

  lemma RespondKeepsOk(l: Link, l': Link, reply: Reply)
    requires LinkOk(l)
    requires SentBy(reply).Some? ==> SentBy(reply) == l.mcu.dispatching
    requires reply.AckNak? ==> l.mcu.dispatching.None?
    requires l' == l.(up := l.up + [Up(l.mcu.nextSequence, Expected(l), reply)])
    ensures LinkOk(l')
  {
    UpAppend(l.host.receiveSeq, Expected(l), l.mcu.dispatching, l.up, reply);
    SettledAppend(l.host.received, Expected(l), l.mcu.dispatching, l.up, Up(l.mcu.nextSequence, Expected(l), reply));
  }

  lemma AckKeepsOk(l: Link, l': Link)
    requires LinkOk(l) && McuStep(l, l', McuAck)
    ensures LinkOk(l')
  {
    SettledDone(l.host.received, Expected(l), l.mcu.dispatching, l.up);
    var idle := l.(mcu := l.mcu.(dispatching := None));
    assert LinkOk(idle);
    RespondKeepsOk(idle, l', AckNak);
  }

  lemma AcceptKeepsOk(l: Link, l': Link)
    requires LinkOk(l) && l.down != [] && l.mcu.dispatching.None? && l' == Arriving(l) && l.down[0].seqNo == Expected(l)
    requires l.down[0].nibble == l.mcu.nextSequence
    ensures LinkOk(l')
  {
    hide HostOk, ConservedOk, TimesOk, SettledOk;
    var n := Expected(l);
    AcceptDown(l.base, n, l.built, l.down);
    SettledAccept(l.host.received, n, l.up);
    assert Expected(l') == n + 1;
    NextNibble(n);
    assert l.down[0].cmds == l.built[n - l.base].cmds;
    assert DeliveredOk(l.base, l.built, l'.mcu.accepted);
    assert UpOk(l.host.receiveSeq, n + 1, Some(n), l.up);
  }

  lemma RejectKeepsOk(l: Link, l': Link)
    requires LinkOk(l) && l.down != [] && l.mcu.dispatching.None? && l' == Arriving(l) && l.down[0].nibble != l.mcu.nextSequence
    ensures LinkOk(l')
  {
    hide HostOk, SeqOk, DownOk, UpOk, DeliveredOk, SettledOk, ConservedOk, TimesOk;
    DropDown(l.base, Expected(l), l.built, l.down);
    var dropped := l.(down := l.down[1..]);
    assert LinkOk(dropped);
    RespondKeepsOk(dropped, l', AckNak);
  }

  lemma McuReceiveKeepsOk(l: Link, l': Link)
    requires LinkOk(l) && McuStep(l, l', McuReceive)
    ensures LinkOk(l')
  {
    AcceptsExpected(l, 0);
    if l.down[0].nibble == l.mcu.nextSequence {
      AcceptKeepsOk(l, l');
    } else {
      RejectKeepsOk(l, l');
    }
  }

  lemma McuKeepsOk(l: Link, l': Link, a: Action)
    requires LinkOk(l) && McuStep(l, l', a)
    ensures LinkOk(l')
  {
    match a
    case McuReceive => McuReceiveKeepsOk(l, l');
    case McuRespond(len, inDispatch) =>
      RespondKeepsOk(l, l', Data(len, if inDispatch then l.mcu.dispatching else None));
    case McuAck => AckKeepsOk(l, l');
    case McuNak => RespondKeepsOk(l, l', AckNak);
  }

  // ------------------------------------------------------------------ the host: queues

  lemma SubmitConserved(queues: map<nat, CommandQueue>, q: nat, msgs: seq<Command>, built: seq<Block>, submitted: map<nat, seq<Command>>)
    requires ConservedOk(queues, built, submitted)
    ensures var cq := Queue(queues, q);
      ConservedOk(queues[q := CommandQueue(cq.ready, cq.stalled + msgs)], built,
                  submitted[q := SubmittedTo(submitted, q) + msgs])
  {
    var cq := Queue(queues, q);
    var queues' := queues[q := CommandQueue(cq.ready, cq.stalled + msgs)];
    var submitted' := submitted[q := SubmittedTo(submitted, q) + msgs];
    forall p: nat
      ensures ConservedAt(p, Queue(queues', p), OfQueue(p, Flat(built)), SubmittedTo(submitted', p))
    {
      assert ConservedAt(p, Queue(queues, p), OfQueue(p, Flat(built)), SubmittedTo(submitted, p));
      SubmitConservedAt(q, cq, OfQueue(q, Flat(built)), SubmittedTo(submitted, q), msgs);
    }
  }

  lemma SubmitConservedAt(q: nat, cq: CommandQueue, built: seq<Command>, submitted: seq<Command>, msgs: seq<Command>)
    ensures ConservedAt(q, cq, built, submitted) ==>
      ConservedAt(q, CommandQueue(cq.ready, cq.stalled + msgs), built, submitted + msgs)
  {
    assert built + cq.ready + (cq.stalled + msgs) == (built + cq.ready + cq.stalled) + msgs;
  }

  lemma {:induction false} NoBytesNoCommands(q: nat, cmds: seq<Command>)
    requires TaggedFor(q, cmds) && Bytes(cmds) == 0
    ensures cmds == []
  {
    if cmds != [] {
      BytesPositive(q, cmds);
    }
  }

  lemma ConservedCong(queues: map<nat, CommandQueue>, built: seq<Block>, a: map<nat, seq<Command>>, b: map<nat, seq<Command>>)
    requires ConservedOk(queues, built, a)
    requires forall q: nat :: SubmittedTo(a, q) == SubmittedTo(b, q)
    ensures ConservedOk(queues, built, b)
  {
    forall q: nat
      ensures ConservedAt(q, Queue(queues, q), OfQueue(q, Flat(built)), SubmittedTo(b, q))
    {
      assert ConservedAt(q, Queue(queues, q), OfQueue(q, Flat(built)), SubmittedTo(a, q));
    }
  }

  /** Changes of the host that touch only the waiting commands, the timer of command_event, the
      line's idle time and the kick clock leave the rest of the link alone. */
  predicate SameSession(h: Host, h': Host) {
    && h'.sendSeq == h.sendSeq && h'.receiveSeq == h.receiveSeq && h'.sent == h.sent
    && h'.retransmitSeq == h.retransmitSeq && h'.rttSampleSeq == h.rttSampleSeq
    && h'.lastReceiveSentTime == h.lastReceiveSentTime
    && h'.samples == h.samples && h'.received == h.received
  }

  lemma SameSessionOk(l: Link, l': Link)
    requires LinkOk(l) && SameSession(l.host, l'.host) && HostOk(l'.host)
    requires l' == l.(host := l'.host, submitted := l'.submitted)
    requires ConservedOk(l'.host.out.queues, l.built, l'.submitted)
    ensures LinkOk(l')
  {
    assert TimesOk(l.base, l.built, l.tx, l.host);
    assert TimesOk(l'.base, l'.built, l'.tx, l'.host);
  }

  lemma SubmittingConserved(l: Link, q: nat, batch: seq<Command>)
    requires ConservedOk(l.host.out.queues, l.built, l.submitted) && TaggedFor(q, batch)
    ensures var l' := Submitting(l, q, batch);
      ConservedOk(l'.host.out.queues, l.built, l'.submitted)
  {
    var l' := Submitting(l, q, batch);
    if Bytes(batch) == 0 {
      NoBytesNoCommands(q, batch);
      assert forall p: nat :: SubmittedTo(l'.submitted, p) == SubmittedTo(l.submitted, p);
      ConservedCong(l.host.out.queues, l.built, l.submitted, l'.submitted);
    } else {
      SubmitConserved(l.host.out.queues, q, WithMinClocks(batch), l.built, l.submitted);
    }
  }

  lemma SubmitKeepsOk(l: Link, q: nat, batch: seq<Command>)
    requires LinkOk(l) && TaggedFor(q, batch)
    ensures LinkOk(Submitting(l, q, batch))
  {
    SendBatchOk(l.host, q, batch);
    SubmittingConserved(l, q, batch);
    SameSessionOk(l, Submitting(l, q, batch));
  }

  lemma ReleaseConserved(order: seq<nat>, queues: map<nat, CommandQueue>, ackClock: nat, built: seq<Block>, submitted: map<nat, seq<Command>>)
    requires ConservedOk(queues, built, submitted) && Distinct(order)
    ensures ConservedOk(ReleaseAll(order, queues, ackClock), built, submitted)
  {
    var queues' := ReleaseAll(order, queues, ackClock);
    forall p: nat
      ensures ConservedAt(p, Queue(queues', p), OfQueue(p, Flat(built)), SubmittedTo(submitted, p))
    {
      ReleaseAllAt(order, queues, ackClock, p);
      ReleaseConservedAt(p, Queue(queues, p), ackClock, OfQueue(p, Flat(built)), SubmittedTo(submitted, p));
    }
  }

  lemma ReleaseConservedAt(q: nat, cq: CommandQueue, ackClock: nat, built: seq<Command>, submitted: seq<Command>)
    requires ConservedAt(q, cq, built, submitted)
    ensures ConservedAt(q, Release(cq, ackClock), built, submitted)
  {
    var n := DueCount(cq.stalled, ackClock);
    assert built + (cq.ready + cq.stalled[..n]) + cq.stalled[n..] == built + cq.ready + cq.stalled;
  }

  lemma CheckKeepsOk(l: Link, l': Link, pending: nat, time: real)
    requires LinkOk(l) && l' == l.(host := CheckSend(l.host, pending, time).0)
    ensures LinkOk(l')
  {
    ChecksOk(l.host, pending, time);
    assert SameSession(l.host, l'.host);
    if !WindowFull(l.host) {
      var ackClock := ClockFromTime(l.host.cfg.ce, IdleAfter(l.host, pending, time));
      ReleaseConserved(l.host.out.order, l.host.out.queues, ackClock, l.built, l.submitted);
    }
    SameSessionOk(l, l');
  }

  lemma LocalKeepsOk(l: Link, l': Link, a: Action)
    requires LinkOk(l) && HostStep(l, l', a) && (a.WriteOut? || a.Configure? || a.SetCommandTimer?)
    ensures LinkOk(l')
  {
    hide Building, Retransmitting, Receiving, Submitting, CheckSend, Bittime;
    hide DownOk, UpOk, SettledOk, ConservedOk, TimesOk, DeliveredOk, OutboxOk, QueuesOk;
    assert SameSession(l.host, l'.host);
    assert HostOk(l'.host) by {
      assert OutboxOk(l.host.out) && WindowOk(l.host) && TimersOk(l.host);
      assert WindowOk(l'.host) && TimersOk(l'.host);
    }
    SameSessionOk(l, l');
  }

  // ------------------------------------------------------------------ the host: a new block

  lemma BuildConserved(queues: map<nat, CommandQueue>, queues': map<nat, CommandQueue>, b: Block, built: seq<Block>, submitted: map<nat, seq<Command>>)
    requires ConservedOk(queues, built, submitted)
    requires TakenFromFront(queues, queues', b.cmds)
    ensures ConservedOk(queues', built + [b], submitted)
  {
    assert (built + [b])[..|built|] == built;
    forall p: nat
      ensures ConservedAt(p, Queue(queues', p), OfQueue(p, Flat(built + [b])), SubmittedTo(submitted, p))
    {
      assert ConservedAt(p, Queue(queues, p), OfQueue(p, Flat(built)), SubmittedTo(submitted, p));
      OfQueueAppend(p, Flat(built), b.cmds);
      assert OfQueue(p, Flat(built)) + OfQueue(p, b.cmds) + Queue(queues', p).ready
          == OfQueue(p, Flat(built)) + (OfQueue(p, b.cmds) + Queue(queues', p).ready);
    }
  }

  lemma DownAppend(base: nat, n: nat, built: seq<Block>, down: seq<Down>, b: Block)
    requires DownOk(base, n, built, down) && n <= base + |built|
    ensures var s := base + |built|;
      DownOk(base, n, built + [b], down + [Down(s % MESSAGE_SEQ_SPAN, s, b.cmds)])
  {
  }

  lemma ResponsesAppend(base: nat, built: seq<Block>, tx: seq<nat>, r: nat, received: seq<Received>, b: Block)
    requires ResponseTimesOk(base, built, tx, r, received)
    ensures ResponseTimesOk(base, built + [b], tx + [1], r, received)
  {
    forall i | 0 <= i < |received|
      ensures ResponseTimeOk(base, built + [b], tx + [1], r, received[i])
    {
      assert ResponseTimeOk(base, built, tx, r, received[i]);
    }
  }

  lemma BuildTimes(base: nat, built: seq<Block>, tx: seq<nat>, h: Host, h': Host, b: Block)
    requires TimesOk(base, built, tx, h) && |tx| == |built| && h.sendSeq == base + |built|
    requires h'.received == h.received && h'.samples == h.samples && h'.receiveSeq == h.receiveSeq
    requires h'.lastReceiveSentTime == h.lastReceiveSentTime && h'.retransmitSeq == h.retransmitSeq
    requires h'.rttSampleSeq == if h.rttSampleSeq == 0 then h.sendSeq else h.rttSampleSeq
    ensures TimesOk(base, built + [b], tx + [1], h')
  {
    ResponsesAppend(base, built, tx, h.receiveSeq, h.received, b);
    assert OnceFrom(base, tx + [1], h.retransmitSeq);
    assert OnceFrom(base, tx + [1], h'.rttSampleSeq);
  }

  /** What a new block leaves alone. */
  lemma BuildingFrame(l: Link, l': Link, pending: nat, time: real)
    requires Building(l, l', pending, time)
    ensures var b := l'.host.sent[|l'.host.sent| - 1];
      && l'.host.sent == l.host.sent + [b] && l'.host.sendSeq == l.host.sendSeq + 1
      && l'.host.receiveSeq == l.host.receiveSeq && l'.host.received == l.host.received
      && l'.host.samples == l.host.samples && l'.host.lastReceiveSentTime == l.host.lastReceiveSentTime
      && l'.host.retransmitSeq == l.host.retransmitSeq
      && l'.host.rttSampleSeq == (if l.host.rttSampleSeq == 0 then l.host.sendSeq else l.host.rttSampleSeq)
      && Packs(l.host.out, l'.host.out, b.cmds, l.host.sendSeq)
  {
  }

  lemma BuildQueues(l: Link, l': Link, pending: nat, time: real)
    requires ConservedOk(l.host.out.queues, l.built, l.submitted) && Building(l, l', pending, time)
    ensures ConservedOk(l'.host.out.queues, l'.built, l'.submitted)
  {
    var b := l'.host.sent[|l'.host.sent| - 1];
    BuildingFrame(l, l', pending, time);
    BuildConserved(l.host.out.queues, l'.host.out.queues, b, l.built, l.submitted);
  }

  lemma DeliveredAppend(base: nat, built: seq<Block>, accepted: seq<seq<Command>>, b: Block)
    requires DeliveredOk(base, built, accepted)
    ensures DeliveredOk(base, built + [b], accepted)
  {
  }

  lemma BuildTimesStep(l: Link, l': Link, pending: nat, time: real)
    requires |l.tx| == |l.built| && l.host.sendSeq == l.base + |l.built|
    requires TimesOk(l.base, l.built, l.tx, l.host) && Building(l, l', pending, time)
    ensures TimesOk(l'.base, l'.built, l'.tx, l'.host)
  {
    BuildingFrame(l, l', pending, time);
    BuildTimes(l.base, l.built, l.tx, l.host, l'.host, l'.host.sent[|l'.host.sent| - 1]);
  }

  lemma BuildKeepsOk(l: Link, l': Link, pending: nat, time: real)
    requires LinkOk(l) && Building(l, l', pending, time)
    ensures LinkOk(l')
  {
    hide Builds, HostOk, TimesOk, ConservedOk, SettledOk, UpOk, DownOk, DeliveredOk;
    BuildingFrame(l, l', pending, time);
    BuildsOk(l.host, l'.host, pending, time);
    BuildQueues(l, l', pending, time);
    BuildTimesStep(l, l', pending, time);
    DownAppend(l.base, Expected(l), l.built, l.down, l'.host.sent[|l'.host.sent| - 1]);
    DeliveredAppend(l.base, l.built, l.mcu.accepted, l'.host.sent[|l'.host.sent| - 1]);
  }

  // ------------------------------------------------------------------ the host: retransmission

  lemma RetransmitDown(base: nat, n: nat, r: nat, built: seq<Block>, down: seq<Down>)
    requires DownOk(base, n, built, down) && base <= r <= base + |built|
    requires n <= base + |built| <= r + MAX_PENDING_BLOCKS
    ensures DownOk(base, n, built, down + Frames(r, built[r - base..]))
  {
    var fs := Frames(r, built[r - base..]);
    var d := down + fs;
    forall i | 0 <= i < |d|
      ensures && base <= d[i].seqNo < base + |built|
              && d[i].nibble == d[i].seqNo % MESSAGE_SEQ_SPAN
              && d[i].cmds == built[d[i].seqNo - base].cmds
              && n - MAX_PENDING_BLOCKS <= d[i].seqNo
    {
      if i >= |down| {
        assert d[i] == fs[i - |down|];
      }
    }
    forall i, j | 0 <= i < j < |d|
      ensures d[i].seqNo - (MAX_PENDING_BLOCKS - 1) <= d[j].seqNo
    {
      if j >= |down| {
        assert d[j] == fs[j - |down|];
        if i >= |down| {
          assert d[i] == fs[i - |down|];
        }
      }
    }
  }

  lemma RetransmitResponses(base: nat, built: seq<Block>, tx: seq<nat>, r: nat, received: seq<Received>)
    requires ResponseTimesOk(base, built, tx, r, received) && base <= r
    ensures ResponseTimesOk(base, built, CountTx(tx, r - base), r, received)
  {
    forall i | 0 <= i < |received|
      ensures ResponseTimeOk(base, built, CountTx(tx, r - base), r, received[i])
    {
      assert ResponseTimeOk(base, built, tx, r, received[i]);
    }
  }

  lemma RetransmitTimes(base: nat, built: seq<Block>, tx: seq<nat>, h: Host, h': Host)
    requires TimesOk(base, built, tx, h) && |tx| == |built| && h.sendSeq == base + |built| && base <= h.receiveSeq
    requires h'.received == h.received && h'.samples == h.samples && h'.receiveSeq == h.receiveSeq
    requires h'.lastReceiveSentTime == h.lastReceiveSentTime
    requires h'.retransmitSeq == h.sendSeq && h'.rttSampleSeq == 0
    ensures TimesOk(base, built, CountTx(tx, h.receiveSeq - base), h')
  {
    RetransmitResponses(base, built, tx, h.receiveSeq, h.received);
  }

  lemma RetransmitKeepsOk(l: Link, time: real)
    requires LinkOk(l) && !l.host.retransmitTimer.Never? && l.host.receiveSeq >= l.base
    ensures LinkOk(Retransmitting(l, time))
  {
    hide HostOk, UpOk, DeliveredOk, SettledOk, ConservedOk, TimesOk, DownOk;
    var l' := Retransmitting(l, time);
    RetransmitOk(l.host, time);
    RetransmitDown(l.base, Expected(l), l.host.receiveSeq, l.built, l.down);
    RetransmitTimes(l.base, l.built, l.tx, l.host, l'.host);
  }

  // ------------------------------------------------------------------ the host: a reply

  lemma UpPop(r: nat, n: nat, dispatching: Option<nat>, up: seq<Up>)
    requires UpOk(r, n, dispatching, up) && up != []
    ensures UpOk(up[0].ackNo, n, dispatching, up[1..])
  {
    assert forall j :: 0 <= j < |up| - 1 ==> up[1..][j] == up[j + 1];
  }

  /** A notification released by the next reply is settled. */
  lemma ReleasedSettled(r: nat, n: nat, dispatching: Option<nat>, up: seq<Up>, k: nat)
    requires UpOk(r, n, dispatching, up) && up != []
    requires dispatching.Some? ==> n == dispatching.value + 1
    requires k <= WakeSeq(up[0].ackNo, up[0].reply)
    ensures SettledAt(k, n, dispatching, up[1..])
    ensures SentBy(up[0].reply).Some? ==> k < SentBy(up[0].reply).value
  {
    forall j | 0 <= j < |up[1..]| && SentBy(up[1..][j].reply).Some?
      ensures k < SentBy(up[1..][j].reply).value
    {
      assert up[1..][j] == up[j + 1];
    }
  }

  lemma SettledPop(k: nat, n: nat, dispatching: Option<nat>, up: seq<Up>)
    requires SettledAt(k, n, dispatching, up) && up != []
    ensures SettledAt(k, n, dispatching, up[1..])
    ensures SentBy(up[0].reply).Some? ==> k < SentBy(up[0].reply).value
  {
    assert forall j :: 0 <= j < |up| - 1 ==> up[1..][j] == up[j + 1];
  }

  /** Receiving a reply appends settled notifications and then, for a data message, the response. */
  lemma SettledReceive(r: nat, n: nat, dispatching: Option<nat>, up: seq<Up>,
                       received: seq<Received>, notes: seq<Received>, responses: seq<Received>)
    requires UpOk(r, n, dispatching, up) && up != []
    requires dispatching.Some? ==> n == dispatching.value + 1
    requires SettledOk(received, n, dispatching, up)
    requires forall i :: 0 <= i < |notes| ==>
      notes[i].Notification? && notes[i].blockSeq <= WakeSeq(up[0].ackNo, up[0].reply)
    requires forall i :: 0 <= i < |responses| ==> responses[i].Response? && responses[i].reply == up[0].reply
    ensures SettledOk(received + notes + responses, n, dispatching, up[1..])
  {
    forall i | 0 <= i < |received| && received[i].Notification?
      ensures SettledAt(received[i].blockSeq, n, dispatching, up[1..])
      ensures SentBy(up[0].reply).Some? ==> received[i].blockSeq < SentBy(up[0].reply).value
    {
      SettledPop(received[i].blockSeq, n, dispatching, up);
    }
    forall i | 0 <= i < |notes|
      ensures SettledAt(notes[i].blockSeq, n, dispatching, up[1..])
      ensures SentBy(up[0].reply).Some? ==> notes[i].blockSeq < SentBy(up[0].reply).value
    {
      ReleasedSettled(r, n, dispatching, up, notes[i].blockSeq);
    }
  }

  /** The responses a reply adds to receive_queue. */
  function ResponsesOf(h: Host, readTime: real, rseq: nat, reply: Reply): seq<Received> {
    match reply
    case AckNak => []
    case Data(len, _) =>
      [Response(reply, rseq, if rseq > h.retransmitSeq then h.lastReceiveSentTime else 0.0,
                readTime - Bittime(h.cfg, len))]
  }

  /** The host after update_receive_seq, if the reply acknowledges anything new. */
  function Acked(h: Host, time: real, rseq: nat): Host
    requires h.receiveSeq <= rseq <= h.receiveSeq + |h.sent|
  {
    if rseq != h.receiveSeq then UpdateReceiveSeq(h, time, rseq) else h
  }

  lemma AckedShape(h: Host, time: real, rseq: nat)
    requires h.receiveSeq <= rseq <= h.receiveSeq + |h.sent|
    ensures var h1 := Acked(h, time, rseq);
      && h1.receiveSeq == rseq && h1.sendSeq == h.sendSeq && h1.sent == h.sent[rseq - h.receiveSeq..]
      && h1.retransmitSeq == h.retransmitSeq && h1.out == h.out && h1.received == h.received && h1.cfg == h.cfg
      && (h1.rttSampleSeq == h.rttSampleSeq || h1.rttSampleSeq == 0)
      && h1.lastReceiveSentTime == (if rseq == h.receiveSeq then h.lastReceiveSentTime
                                    else h.sent[rseq - h.receiveSeq - 1].receiveTime)
      && (h1.samples == h.samples
          || (h1.samples == h.samples + [rseq - 1] && h.rttSampleSeq != 0 && rseq > h.rttSampleSeq && rseq > h.receiveSeq))
  {
  }

  /** Inside the window the reply is taken for what it acknowledges. */
  lemma HandleExact(h: Host, time: real, readTime: real, a: nat, reply: Reply)
    requires h.sendSeq == h.receiveSeq + |h.sent| && |h.sent| <= MAX_PENDING_BLOCKS
    requires h.receiveSeq <= a <= h.sendSeq
    ensures HandleMessage(h, time, readTime, a % MESSAGE_SEQ_SPAN, reply)
         == ProcessReply(ReleaseNotify(Acked(h, time, a), time, a, reply), readTime, a, reply)
  {
    WidenExact(h.receiveSeq, a);
  }

  lemma ReleaseShape(h: Host, time: real, a: nat, reply: Reply)
    ensures var h2 := ReleaseNotify(h, time, a, reply);
      var n := NotifyCount(h.out.notify, WakeSeq(a, reply));
      && h2 == h.(out := h2.out, received := h2.received)
      && h2.out.queues == h.out.queues
      && h2.received == h.received + Notifications(h.out.notify[..n], h.lastReceiveSentTime, time)
  {
  }

  lemma ProcessShape(h: Host, readTime: real, a: nat, reply: Reply)
    ensures var h3 := ProcessReply(h, readTime, a, reply);
      && h3 == h.(received := h3.received, lastAckSeq := h3.lastAckSeq, retransmitTimer := h3.retransmitTimer)
      && h3.received == h.received + ResponsesOf(h, readTime, a, reply)
  {
  }

  /** What handling a reply that acknowledges up to `a` does, with h1 the host after the ack. */
  predicate ReceiveShape(h: Host, h1: Host, h': Host, time: real, readTime: real, a: nat, reply: Reply) {
    var n := NotifyCount(h.out.notify, WakeSeq(a, reply));
    && h'.receiveSeq == a && h'.sendSeq == h.sendSeq && h'.sent == h1.sent
    && h'.retransmitSeq == h.retransmitSeq && h'.rttSampleSeq == h1.rttSampleSeq
    && h'.samples == h1.samples && h'.lastReceiveSentTime == h1.lastReceiveSentTime
    && h'.out.queues == h.out.queues
    && h'.received == h.received + Notifications(h.out.notify[..n], h1.lastReceiveSentTime, time)
                      + ResponsesOf(h1, readTime, a, reply)
  }

  lemma ReceivingShape(h: Host, time: real, readTime: real, a: nat, reply: Reply)
    requires h.sendSeq == h.receiveSeq + |h.sent| && |h.sent| <= MAX_PENDING_BLOCKS
    requires h.receiveSeq <= a <= h.sendSeq
    ensures ReceiveShape(h, Acked(h, time, a), HandleMessage(h, time, readTime, a % MESSAGE_SEQ_SPAN, reply),
                         time, readTime, a, reply)
  {
    hide HandleMessage, Acked, ReleaseNotify, ProcessReply, NotifyCount, Notifications;
    HandleExact(h, time, readTime, a, reply);
    AckedShape(h, time, a);
    var h1 := Acked(h, time, a);
    ReleaseShape(h1, time, a, reply);
    var h2 := ReleaseNotify(h1, time, a, reply);
    ProcessShape(h2, readTime, a, reply);
    assert ResponsesOf(h2, readTime, a, reply) == ResponsesOf(h1, readTime, a, reply);
  }

  lemma AckedTimes(base: nat, built: seq<Block>, tx: seq<nat>, h: Host, time: real, a: nat)
    requires TimesOk(base, built, tx, h) && |tx| == |built| && h.sendSeq == base + |built|
    requires base <= h.receiveSeq <= a <= h.sendSeq && h.sent == built[h.receiveSeq - base..]
    ensures var h1 := Acked(h, time, a);
      && LastSentOk(base, built, a, h1.lastReceiveSentTime)
      && SamplesOk(base, tx, a, h1.samples)
      && (h1.rttSampleSeq != 0 ==> OnceFrom(base, tx, h1.rttSampleSeq))
      && ResponseTimesOk(base, built, tx, a, h1.received)
  {
    AckedShape(h, time, a);
    var h1 := Acked(h, time, a);
    if h1.samples != h.samples {
      assert OnceFrom(base, tx, h.rttSampleSeq);
      assert tx[a - 1 - base] == 1;
    }
    forall i | 0 <= i < |h.received| ensures ResponseTimeOk(base, built, tx, a, h.received[i]) {
      assert ResponseTimeOk(base, built, tx, h.receiveSeq, h.received[i]);
    }
  }

  lemma ResponsesTimes(base: nat, built: seq<Block>, tx: seq<nat>, h: Host, readTime: real, a: nat, reply: Reply)
    requires OnceFrom(base, tx, h.retransmitSeq) && |tx| == |built| && base <= a
    requires LastSentOk(base, built, a, h.lastReceiveSentTime)
    ensures ResponseTimesOk(base, built, tx, a, ResponsesOf(h, readTime, a, reply))
  {
    if a > base && a > h.retransmitSeq {
      assert tx[a - 1 - base] == 1;
    }
  }

  lemma ResponseTimesConcat(base: nat, built: seq<Block>, tx: seq<nat>, r: nat, x: seq<Received>, notes: seq<Received>, y: seq<Received>)
    requires ResponseTimesOk(base, built, tx, r, x) && ResponseTimesOk(base, built, tx, r, y)
    requires forall i :: 0 <= i < |notes| ==> notes[i].Notification?
    ensures ResponseTimesOk(base, built, tx, r, x + notes + y)
  {
    var all := x + notes + y;
    forall i | 0 <= i < |all| ensures ResponseTimeOk(base, built, tx, r, all[i]) {
      if i < |x| {
        assert all[i] == x[i];
      } else if i < |x| + |notes| {
        assert all[i] == notes[i - |x|];
      } else {
        assert all[i] == y[i - |x| - |notes|];
      }
    }
  }

  lemma ReceiveTimes(base: nat, built: seq<Block>, tx: seq<nat>, h: Host, h': Host,
                     time: real, readTime: real, a: nat, reply: Reply)
    requires TimesOk(base, built, tx, h) && |tx| == |built| && h.sendSeq == base + |built|
    requires base <= h.receiveSeq <= a <= h.sendSeq && h.sent == built[h.receiveSeq - base..]
    requires ReceiveShape(h, Acked(h, time, a), h', time, readTime, a, reply)
    ensures TimesOk(base, built, tx, h')
  {
    AckedShape(h, time, a);
    AckedTimes(base, built, tx, h, time, a);
    var h1 := Acked(h, time, a);
    ResponsesTimes(base, built, tx, h1, readTime, a, reply);
    var n := NotifyCount(h.out.notify, WakeSeq(a, reply));
    ResponseTimesConcat(base, built, tx, a, h.received,
                        Notifications(h.out.notify[..n], h1.lastReceiveSentTime, time),
                        ResponsesOf(h1, readTime, a, reply));
  }

  lemma ReceiveSettled(n: nat, dispatching: Option<nat>, up: seq<Up>, h: Host, h1: Host, h': Host, time: real, readTime: real)
    requires UpOk(h.receiveSeq, n, dispatching, up) && up != []
    requires dispatching.Some? ==> n == dispatching.value + 1
    requires SettledOk(h.received, n, dispatching, up)
    requires ReceiveShape(h, h1, h', time, readTime, up[0].ackNo, up[0].reply)
    ensures SettledOk(h'.received, n, dispatching, up[1..])
  {
    var a, reply := up[0].ackNo, up[0].reply;
    var k := NotifyCount(h.out.notify, WakeSeq(a, reply));
    SettledReceive(h.receiveSeq, n, dispatching, up, h.received,
                   Notifications(h.out.notify[..k], h1.lastReceiveSentTime, time),
                   ResponsesOf(h1, readTime, a, reply));
  }

  lemma ReceiveKeepsOk(l: Link, l': Link, h1: Host, time: real, readTime: real)
    requires LinkOk(l) && CanReceive(l) && HostOk(l'.host) && l' == l.(host := l'.host, up := l.up[1..])
    requires ReceiveShape(l.host, h1, l'.host, time, readTime, l.up[0].ackNo, l.up[0].reply)
    requires h1.sent == l.host.sent[l.up[0].ackNo - l.host.receiveSeq..]
    requires TimesOk(l.base, l.built, l.tx, l'.host)
    ensures LinkOk(l')
  {
    hide HostOk, DownOk, DeliveredOk, ConservedOk, TimesOk;
    UpPop(l.host.receiveSeq, Expected(l), l.mcu.dispatching, l.up);
    ReceiveFacts(l);
    ReceiveSettled(Expected(l), l.mcu.dispatching, l.up, l.host, h1, l'.host, time, readTime);
  }

  /** A reply is never refused, and the number the host reads from it is the one that was sent. */
  lemma AckExact(l: Link)
    requires LinkOk(l) && l.up != []
    ensures CanReceive(l)
    ensures Widen(l.host.receiveSeq, l.up[0].nibble) == l.up[0].ackNo <= l.host.sendSeq
    ensures !Refused(l.host, l.up[0].nibble)
  {
    assert WindowOk(l.host);
    WidenExact(l.host.receiveSeq, l.up[0].ackNo);
  }

  /** What the invariant says about the reply that comes next. */
  lemma ReceiveFacts(l: Link)
    requires LinkOk(l) && l.up != []
    ensures var h := l.host;
      && HostOk(h) && h.sendSeq == h.receiveSeq + |h.sent| == l.base + |l.built| && |h.sent| <= MAX_PENDING_BLOCKS
      && l.base <= h.receiveSeq <= l.up[0].ackNo <= h.sendSeq && l.up[0].nibble == l.up[0].ackNo % MESSAGE_SEQ_SPAN
      && |l.tx| == |l.built| && h.sent == l.built[h.receiveSeq - l.base..]
      && TimesOk(l.base, l.built, l.tx, h)
  {
    hide DownOk, DeliveredOk, SettledOk, ConservedOk, TimesOk, OutboxOk;
    assert WindowOk(l.host);
  }

  lemma HostReceiveKeepsOk(l: Link, time: real, readTime: real)
    requires LinkOk(l) && CanReceive(l)
    ensures LinkOk(Receiving(l, time, readTime))
  {
    hide LinkOk, HostOk, TimesOk, HandleMessage, Acked, ReceiveShape, Widen, Refused;
    AckExact(l);
    ReceiveFacts(l);
    HandleMessageOk(l.host, time, readTime, l.up[0].nibble, l.up[0].reply);
    var l', a := Receiving(l, time, readTime), l.up[0].ackNo;
    ReceivingShape(l.host, time, readTime, a, l.up[0].reply);
    AckedShape(l.host, time, a);
    ReceiveTimes(l.base, l.built, l.tx, l.host, l'.host, time, readTime, a, l.up[0].reply);
    ReceiveKeepsOk(l, l', Acked(l.host, time, a), time, readTime);
  }

  lemma HostKeepsOk(l: Link, l': Link, a: Action)
    requires LinkOk(l) && HostStep(l, l', a)
    ensures LinkOk(l')
  {
    match a
    case Submit(q, batch) => SubmitKeepsOk(l, q, batch);
    case Check(pending, time) => CheckKeepsOk(l, l', pending, time);
    case BuildBlock(pending, time) => BuildKeepsOk(l, l', pending, time);
    case WriteOut(_, _) => LocalKeepsOk(l, l', a);
    case Configure(_) => LocalKeepsOk(l, l', a);
    case SetCommandTimer(_) => LocalKeepsOk(l, l', a);
    case Retransmit(time) => RetransmitKeepsOk(l, time);
    case HostReceive(time, readTime) => HostReceiveKeepsOk(l, time, readTime);
  }

  // ------------------------------------------------------------------ whole runs

  lemma NextKeepsOk(l: Link, l': Link, a: Action)
    requires LinkOk(l) && Next(l, l', a)
    ensures LinkOk(l')
  {
    if HostStep(l, l', a) {
      HostKeepsOk(l, l', a);
    } else if McuStep(l, l', a) {
      McuKeepsOk(l, l', a);
    } else {
      match a
      case LoseDown(i) => LoseDownKeepsOk(l, l', i);
      case LoseUp(i) => LoseUpKeepsOk(l, l', i);
    }
  }

  lemma InitOk(l: Link)
    requires Init(l)
    ensures LinkOk(l)
  {
    forall q: nat
      ensures ConservedAt(q, Queue(l.host.out.queues, q), OfQueue(q, Flat(l.built)), SubmittedTo(l.submitted, q))
    {
      assert OfQueue(q, Flat(l.built)) == [];
    }
    assert TimesOk(l.base, l.built, l.tx, l.host);
  }

  /** A run: a synchronised start and any number of steps of either party or of the channels. */
  datatype Run = Start(last: Link) | Then(prev: Run, action: Action, last: Link)

  ghost predicate ValidRun(run: Run) {
    match run
    case Start(l) => Init(l)
    case Then(prev, action, l) => ValidRun(prev) && Next(prev.last, l, action)
  }

  lemma {:induction false} RunOk(run: Run)
    requires ValidRun(run)
    ensures LinkOk(run.last)
  {
    match run
    case Start(l) => InitOk(l);
    case Then(prev, action, l) =>
      RunOk(prev);
      NextKeepsOk(prev.last, l, action);
  }
}
