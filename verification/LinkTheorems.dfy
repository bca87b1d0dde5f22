/** The guarantees of the serial link, for every run over lossy first-in first-out channels. */
module LinkTheorems {
  import opened Message
  import opened HostSpec
  import opened HostInvariants
  import opened Link
  import opened LinkProofs

  /** The blocks the micro-controller accepts are, in order and without repetition, a prefix of the
      blocks the host built. */
  lemma AcceptedIsPrefixOfBuilt(run: Run)
    requires ValidRun(run)
    ensures var l := run.last;
      && |l.mcu.accepted| <= |l.built|
      && forall i :: 0 <= i < |l.mcu.accepted| ==> l.mcu.accepted[i] == l.built[i].cmds
  {
    RunOk(run);
  }

  /** Every block in flight is within the window of the expected one, so comparing four bits is
      comparing whole numbers. */
  lemma FourBitsSuffice(run: Run, i: nat)
    requires ValidRun(run) && i < |run.last.down|
    ensures var l := run.last;
      && -MAX_PENDING_BLOCKS <= l.down[i].seqNo - Expected(l) <= MAX_PENDING_BLOCKS
      && (l.down[i].nibble == l.mcu.nextSequence <==> l.down[i].seqNo == Expected(l))
      && 0 <= l.down[i].seqNo - l.base < |l.built|
      && l.down[i].cmds == l.built[l.down[i].seqNo - l.base].cmds
  {
    hide LinkOk, ValidRun;
    RunOk(run);
    AcceptsExpected(run.last, i);
  }

  /** The host never refuses a reply and widens its sequence number to exactly the number of blocks
      the micro-controller had accepted when it sent it. */
  lemma AcksAreExact(run: Run)
    requires ValidRun(run) && run.last.up != []
    ensures var l := run.last;
      && CanReceive(l)
      && !Refused(l.host, l.up[0].nibble)
      && Widen(l.host.receiveSeq, l.up[0].nibble) == l.up[0].ackNo
      && l.host.receiveSeq <= l.up[0].ackNo <= Expected(l) <= l.host.sendSeq
  {
    hide ValidRun, HostOk;
    RunOk(run);
    AckExact(run.last);
  }

  function Commands(blocks: seq<seq<Command>>): seq<Command> {
    if blocks == [] then [] else Commands(blocks[..|blocks| - 1]) + blocks[|blocks| - 1]
  }

  lemma {:induction false} CommandsOfPrefix(accepted: seq<seq<Command>>, built: seq<Block>)
    requires |accepted| <= |built| && forall i :: 0 <= i < |accepted| ==> accepted[i] == built[i].cmds
    ensures Commands(accepted) == Flat(built[..|accepted|])
  {
    if accepted != [] {
      var k := |accepted| - 1;
      CommandsOfPrefix(accepted[..k], built);
      assert built[..|accepted|][..k] == built[..k];
    } else {
      assert built[..0] == [];
    }
  }

  lemma {:induction false} FlatPrefix(built: seq<Block>, k: nat)
    requires k <= |built|
    ensures Flat(built[..k]) <= Flat(built)
  {
    if k == |built| {
      assert built[..k] == built;
    } else {
      var m := |built| - 1;
      FlatPrefix(built[..m], k);
      assert built[..m][..k] == built[..k];
    }
  }

  lemma OfQueuePrefix(q: nat, a: seq<Command>, b: seq<Command>)
    requires a <= b
    ensures OfQueue(q, a) <= OfQueue(q, b)
  {
    OfQueueAppend(q, a, b[|a|..]);
    assert b == a + b[|a|..];
  }

  /** For each command queue, what was built, is ready and is stalled is what was submitted, in
      order; so what the micro-controller dispatches from it is a prefix of what was submitted. */
  lemma QueueOrderPreserved(run: Run, q: nat)
    requires ValidRun(run)
    ensures var l := run.last;
      && OfQueue(q, Flat(l.built)) + Queue(l.host.out.queues, q).ready + Queue(l.host.out.queues, q).stalled
         == Submitted(l, q)
      && OfQueue(q, Commands(l.mcu.accepted)) <= Submitted(l, q)
  {
    RunOk(run);
    var l := run.last;
    assert ConservedAt(q, Queue(l.host.out.queues, q), OfQueue(q, Flat(l.built)), SubmittedTo(l.submitted, q));
    assert DeliveredOk(l.base, l.built, l.mcu.accepted);
    CommandsOfPrefix(l.mcu.accepted, l.built);
    FlatPrefix(l.built, |l.mcu.accepted|);
    OfQueuePrefix(q, Commands(l.mcu.accepted), Flat(l.built));
  }

  /** Completion is never reported early: when the notification of block k is on receive_queue,
      the micro-controller has finished block k, and no response it sent while dispatching k is
      queued later or still in flight. */
  lemma NotificationsAreNotEarly(run: Run, i: nat)
    requires ValidRun(run) && i < |run.last.host.received| && run.last.host.received[i].Notification?
    ensures var l := run.last;
      var k := l.host.received[i].blockSeq;
      && k < Expected(l)
      && l.mcu.dispatching != Some(k)
      && (forall j :: i < j < |l.host.received| ==> ResponseOf(l.host.received[j]) != Some(k))
      && (forall j :: 0 <= j < |l.up| ==> SentBy(l.up[j].reply) != Some(k))
  {
    RunOk(run);
    var l := run.last;
    assert SettledOk(l.host.received, Expected(l), l.mcu.dispatching, l.up);
    assert SettledAt(l.host.received[i].blockSeq, Expected(l), l.mcu.dispatching, l.up);
  }

  /** Round-trip samples only come from blocks that were transmitted exactly once: Karn's algorithm,
      section 3 of RFC 6298. */
  lemma SamplesAreUnambiguous(run: Run, i: nat)
    requires ValidRun(run) && i < |run.last.host.samples|
    ensures var l := run.last;
      && l.base <= l.host.samples[i] < l.base + |l.tx|
      && l.tx[l.host.samples[i] - l.base] == 1
  {
    hide LinkOk, ValidRun;
    RunOk(run);
    SampleOk(run.last, i);
  }

  lemma SampleOk(l: Link, i: nat)
    requires LinkOk(l) && i < |l.host.samples|
    ensures l.base <= l.host.samples[i] < l.base + |l.tx|
    ensures l.tx[l.host.samples[i] - l.base] == 1
  {
    hide HostOk, UpOk, DownOk, DeliveredOk, SettledOk, ConservedOk;
    assert SamplesOk(l.base, l.tx, l.host.receiveSeq, l.host.samples);
  }

  /** The send time attached to a response is that of a block transmitted exactly once. */
  lemma ResponseTimesAreUnambiguous(run: Run, i: nat)
    requires ValidRun(run) && i < |run.last.host.received| && run.last.host.received[i].Response?
    ensures var l := run.last;
      var e := l.host.received[i];
      e.sentTime != 0.0 ==> SentOnce(l.base, l.built, l.tx, e.rseq - 1, e.sentTime)
  {
    hide LinkOk, ValidRun, SentOnce;
    RunOk(run);
    ResponseOk(run.last, i);
  }

  lemma ResponseOk(l: Link, i: nat)
    requires LinkOk(l) && i < |l.host.received| && l.host.received[i].Response?
    ensures var e := l.host.received[i]; e.sentTime != 0.0 ==> SentOnce(l.base, l.built, l.tx, e.rseq - 1, e.sentTime)
  {
    hide HostOk, SeqOk, DownOk, UpOk, DeliveredOk, SettledOk, ConservedOk, SentOnce, LastSentOk, SamplesOk, OnceFrom;
    assert ResponseTimeOk(l.base, l.built, l.tx, l.host.receiveSeq, l.host.received[i]);
  }

  /** The sender's books are right in every reachable state: the window, the byte counts, the
      retransmit timer armed exactly while something is unacknowledged, its image within the
      buffer, and the rto between its bounds. */
  lemma BooksAreRight(run: Run)
    requires ValidRun(run)
    ensures var h := run.last.host;
      && |h.sent| == h.sendSeq - h.receiveSeq <= MAX_PENDING_BLOCKS
      && h.needAckBytes == BlockSum(h.sent)
      && h.out.readyBytes == Total(ReadyBytes, h.out.order, h.out.queues)
      && h.out.stalledBytes == Total(StalledBytes, h.out.order, h.out.queues)
      && (h.retransmitTimer.Never? <==> h.sent == [])
      && RetransmitBytes(h.sent) <= MESSAGE_MAX * MAX_PENDING_BLOCKS + 1
      && MIN_RTO <= h.rto <= MAX_RTO
      && h.ignoreNakSeq <= h.sendSeq
  {
    RunOk(run);
    var h := run.last.host;
    assert HostOk(h) && WindowOk(h) && OutboxOk(h.out) && TimersOk(h);
    BlockSumBound(h.sent);
  }

  /** A retransmission caused by a nak strictly raises ignore_nak_seq, so one nak is answered once. */
  lemma NakRetransmitsRaiseIgnore(run: Run, time: real)
    requires ValidRun(run) && run.last.host.retransmitTimer.Now?
    ensures var h := run.last.host;
      h.ignoreNakSeq < RetransmitEvent(h, time).ignoreNakSeq <= h.sendSeq
  {
    RunOk(run);
    assert HostOk(run.last.host);
    RetransmitOk(run.last.host, time);
    assert TimersOk(RetransmitEvent(run.last.host, time));
  }
}
