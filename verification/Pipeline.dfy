/** The toolhead, the trapezoid queue and a stepper together: whatever the toolhead does, the step
    solver is given all the time in which the stepper may move. */
module Pipeline {
  import opened Moves
  import opened StepCover
  import opened Trapq
  import opened ToolHead

  /** The time the reactor uses for "never", to which an aborted move's queue is emptied. */
  const NEVER := 9999999999999999.0

  /** An event of the toolhead, with the moves of a batch. */
  datatype Input = Input(event: Event, moves: seq<Move>)

  /** The moves of a batch follow each other inside it. */
  predicate Within(moves: seq<Move>, start: real, end: real) {
    && (forall i :: 0 <= i < |moves| ==> start <= moves[i].printTime && End(moves[i]) <= end && moves[i].moveT > 0.0)
    && (forall i, j :: 0 <= i < j < |moves| ==> End(moves[i]) <= moves[j].printTime)
  }

  predicate InputOk(w: Window, input: Input) {
    match input.event
    case Batch(start, end, delay) => Within(input.moves, start, end) && end <= NEVER && w.pre <= delay && w.post <= delay
    case Flush(time) => time + w.pre <= NEVER
    case Free(_, delay) => w.post <= delay
    case Drop => true
  }

  function Events(inputs: seq<Input>): seq<Event> { seq(|inputs|, i requires 0 <= i < |inputs| => inputs[i].event) }

  // ------------------------------------------------------------------ what the queue looks like

  /** Active moves have a length and start inside the span; all moves are over by its end. */
  predicate InSpan(w: Window, moves: seq<Move>, lo: real, hi: real) {
    && (forall i :: 0 <= i < |moves| ==> End(moves[i]) <= hi)
    && (forall i :: 0 <= i < |moves| && Active(w, moves[i]) ==> lo <= moves[i].printTime && moves[i].moveT > 0.0)
  }

  /** The list reaches back to the last flush, or else begins with an inactive move that is longer than
      the look-ahead. */
  predicate Padded(w: Window, moves: seq<Move>, from: real)
    requires |moves| > 0
  {
    moves[0].printTime <= from || (!Active(w, moves[0]) && moves[0].moveT >= w.pre)
  }

  /** Such a list starts in time for any flush. */
  lemma PaddedStarts(w: Window, moves: seq<Move>, from: real, flush: real)
    requires |moves| > 0 && GapFree(moves) && Padded(w, moves, from)
    ensures StartsInTime(w, moves, from, flush)
  {
    forall i | 0 < i < |moves| ensures End(moves[0]) <= moves[i].printTime {
      StartsGrow(moves, 0, i);
    }
  }

  predicate QueueOk(w: Window, moves: seq<Move>, c: Clock) {
    && GapFree(moves) && 0.0 <= c.flushed
    && (|moves| > 0 ==> Last(moves).printTime > 0.0 && Padded(w, moves, c.flushed))
    && (if c.live.Span? then c.live.lo <= c.live.hi <= NEVER && InSpan(w, moves, c.live.lo, c.live.hi) else |moves| == 0)
  }

  /** The state while a batch is added: the moves so far end by `reached`. */
  predicate Filling(w: Window, moves: seq<Move>, flushed: real, lo: real, reached: real) {
    && GapFree(moves) && 0.0 <= flushed && InSpan(w, moves, lo, reached)
    && (|moves| > 0 ==> Last(moves).printTime > 0.0 && Padded(w, moves, flushed))
  }

  lemma SpanGrows(w: Window, moves: seq<Move>, m: Move, lo: real, reached: real, hi: real)
    requires InSpan(w, moves, lo, reached) && reached <= hi && End(m) <= hi
    requires Active(w, m) ==> lo <= m.printTime && m.moveT > 0.0
    ensures InSpan(w, moves + [m], lo, hi)
  {
  }

  lemma SpanAdded(w: Window, moves: seq<Move>, m: Move, lo: real, reached: real)
    requires InSpan(w, moves, lo, reached) && reached <= m.printTime && lo <= m.printTime && m.moveT > 0.0
    ensures InSpan(w, Added(moves, m), lo, End(m))
  {
    var filler := Filler(Last(moves), m);
    if |filler| == 0 {
      assert moves + filler == moves;
      SpanGrows(w, moves, m, lo, reached, End(m));
    } else {
      assert filler == [filler[0]];
      SpanGrows(w, moves, filler[0], lo, reached, m.printTime);
      SpanGrows(w, moves + filler, m, lo, m.printTime, End(m));
    }
  }

  /** The first move of a list decides whether it starts in time. */
  lemma StartAdded(w: Window, moves: seq<Move>, m: Move, flushed: real)
    requires 0.0 <= flushed && w.pre <= MAX_NULL_MOVE && m.printTime > 0.0
    requires |moves| > 0 ==> Padded(w, moves, flushed)
    ensures Padded(w, Added(moves, m), flushed) && Last(Added(moves, m)) == m
  {
    hide Active;
    var filler, all := Filler(Last(moves), m), Added(moves, m);
    assert all[|all| - 1] == m;
    if |moves| > 0 {
      assert all[0] == moves[0];
    } else {
      assert moves + filler == filler && all[0] == filler[0] && !Active(w, filler[0]) by { FillerInactive(w, Last(moves), m); }
    }
  }

  lemma FillingTo(w: Window, moves: seq<Move>, flushed: real, lo: real, reached: real, end: real)
    requires Filling(w, moves, flushed, lo, reached) && reached <= end
    ensures Filling(w, moves, flushed, lo, end)
  {
  }

  lemma FillerInactive(w: Window, prev: Move, m: Move)
    ensures forall f <- Filler(prev, m) :: !Active(w, f)
  {
  }

  lemma FillerOk(w: Window, moves: seq<Move>, m: Move, flushed: real, lo: real, reached: real)
    requires Filling(w, moves, flushed, lo, reached) && w.pre <= MAX_NULL_MOVE
    requires reached <= m.printTime && lo <= m.printTime && m.moveT > 0.0 && m.printTime > 0.0
    ensures Filling(w, Added(moves, m), flushed, lo, End(m))
  {
    AddedGapFree(moves, m);
    SpanAdded(w, moves, m, lo, reached);
    StartAdded(w, moves, m, flushed);
  }

  // ------------------------------------------------------------------ what the stepper has been given

  /** All that any move of `all` needs up to the last flush was handed over, in order.  An active
      move of `all` that has left the queue needs nothing more. */
  ghost predicate Followed(w: Window, moves: seq<Move>, all: seq<Move>, handed: seq<Interval>, lastMove: real,
                           origin: real, flushed: real)
  {
    && var complete, order, remembers := Complete(w, all, handed, origin, flushed), InOrder(handed, flushed),
                                         Remembers(w, moves, lastMove, flushed);
    && complete && order && remembers && origin <= flushed
    && (forall a <- moves :: Active(w, a) ==> a in all)
    && (forall a <- all :: Active(w, a) && a !in moves ==> End(a) + w.post <= flushed)
  }

  /** The queue with more moves, and null moves between them. */
  ghost predicate Grown(w: Window, moves: seq<Move>, more: seq<Move>, moves': seq<Move>) {
    && (forall m <- moves' :: Active(w, m) ==> m in moves || m in more)
    && (forall m <- moves :: m in moves') && (forall m <- more :: m in moves')
  }

  lemma GrownFrom(w: Window, moves: seq<Move>, none: seq<Move>)
    requires none == []
    ensures Grown(w, moves, none, moves)
  {
  }

  lemma GrownBy(w: Window, moves: seq<Move>, more: seq<Move>, i: nat, moves': seq<Move>)
    requires i < |more| && Grown(w, moves, more[..i], moves')
    ensures Grown(w, moves, more[..i + 1], Added(moves', more[i]))
  {
    assert more[..i + 1] == more[..i] + [more[i]];
  }

  /** New moves that start a scan window after the last flush need nothing yet. */
  lemma BatchFollowed(w: Window, moves: seq<Move>, moves': seq<Move>, more: seq<Move>, all: seq<Move>,
                      handed: seq<Interval>, lastMove: real, origin: real, flushed: real)
    requires Followed(w, moves, all, handed, lastMove, origin, flushed) && w.pre >= 0.0
    requires forall m <- more :: flushed + w.pre <= m.printTime && m.moveT > 0.0
    requires Grown(w, moves, more, moves')
    ensures Followed(w, moves', all + more, handed, lastMove, origin, flushed)
  {
    forall i, t: real | 0 <= i < |all + more| && Active(w, (all + more)[i]) && Near(w, (all + more)[i], t) && origin <= t < flushed
      ensures Covered(handed, t)
    {
      var m := (all + more)[i];
      assert m in all || m in more;
    }
    forall i | 0 <= i < |moves'| && Active(w, moves'[i]) && End(moves'[i]) <= flushed
      ensures End(moves'[i]) <= lastMove
    {
      assert moves'[i] in moves;
    }
  }

  /** Flushing to a later time serves the moves of the queue; the others need nothing more. */
  lemma FlushFollowed(w: Window, moves: seq<Move>, list: seq<Move>, all: seq<Move>, handed: seq<Interval>, handed': seq<Interval>,
                      lastMove: real, lastMove': real, origin: real, flushed: real, flushed': real)
    requires Followed(w, moves, all, handed, lastMove, origin, flushed) && flushed <= flushed' && handed <= handed'
    requires moves <= list && InOrder(handed', flushed')
    requires Complete(w, list, handed', origin, flushed') && Remembers(w, list, lastMove', flushed')
    ensures Followed(w, moves, all, handed', lastMove', origin, flushed')
  {
    forall i, t: real | 0 <= i < |all| && Active(w, all[i]) && Near(w, all[i], t) && origin <= t < flushed'
      ensures Covered(handed', t)
    {
      if all[i] in moves {
        var k :| 0 <= k < |moves| && moves[k] == all[i];
        assert list[k] == all[i];
      } else {
        assert Covered(handed, t);
        CoveredGrows(handed, handed'[|handed|..], t);
        assert handed + handed'[|handed|..] == handed';
      }
    }
    forall i | 0 <= i < |moves| && Active(w, moves[i]) && End(moves[i]) <= flushed'
      ensures End(moves[i]) <= lastMove'
    {
      assert list[i] == moves[i];
    }
  }

  /** A stepper's list may be walked, and is served, as far as its moves are. */
  lemma ListFollowed(w: Window, moves: seq<Move>, tail: Move, all: seq<Move>, handed: seq<Interval>, lastMove: real,
                     origin: real, flushed: real)
    requires Followed(w, moves, all, handed, lastMove, origin, flushed) && !Active(w, tail)
    ensures Complete(w, moves + [tail], handed, origin, flushed) && Remembers(w, moves + [tail], lastMove, flushed)
  {
    var list := moves + [tail];
    forall i, t: real | 0 <= i < |list| && Active(w, list[i]) && Near(w, list[i], t) && origin <= t < flushed
      ensures Covered(handed, t)
    {
      assert list[i] in moves;
      var k :| 0 <= k < |all| && all[k] == list[i];
      assert Near(w, all[k], t);
    }
    forall i | 0 <= i < |list| && Active(w, list[i]) && End(list[i]) <= flushed ensures End(list[i]) <= lastMove {
      assert list[i] == moves[i];
    }
  }

  lemma ListWalkable(w: Window, moves: seq<Move>, tail: Move, c: Clock, flush: real)
    requires QueueOk(w, moves, c) && w.pre >= 0.0 && w.post >= 0.0 && c.flushed <= flush && flush + w.pre <= NEVER
    requires tail.moveT == NEVER_TIME && tail.axesR == ORIGIN && tail.printTime >= 0.0
    requires |moves| == 0 || GapFree(moves + [tail])
    ensures Walkable(w, moves + [tail], flush) && StartsInTime(w, moves + [tail], c.flushed, flush)
  {
    var list := moves + [tail];
    forall i | 0 <= i < |list| && Active(w, list[i]) ensures list[i].moveT > 0.0 {
      assert list[i] == moves[i];
    }
    PaddedStarts(w, list, c.flushed, flush);
  }

  /** A move that leaves the queue needs nothing more. */
  lemma FreeFollowed(w: Window, moves: seq<Move>, k: nat, all: seq<Move>, handed: seq<Interval>, lastMove: real,
                     origin: real, c: Clock, time: real, delay: real)
    requires Followed(w, moves, all, handed, lastMove, origin, c.flushed) && QueueOk(w, moves, c)
    requires Legal(c, Free(time, delay)) && w.post <= delay && k <= |moves| && Divides(moves, k, time)
    ensures Followed(w, moves[k..], all, handed, lastMove, origin, c.flushed)
  {
    hide Complete, InOrder, Padded;
    forall a <- all | Active(w, a) && a !in moves[k..] ensures End(a) + w.post <= c.flushed {
      assert moves == moves[..k] + moves[k..];
      if a in moves {
        var i :| 0 <= i < k && moves[..k][i] == a;
      }
    }
    forall i | 0 <= i < |moves| - k && Active(w, moves[k..][i]) && End(moves[k..][i]) <= c.flushed
      ensures End(moves[k..][i]) <= lastMove
    {
      assert moves[k + i] == moves[k..][i];
    }
  }

  lemma FreeQueueOk(w: Window, moves: seq<Move>, k: nat, c: Clock, time: real, delay: real)
    requires QueueOk(w, moves, c) && Legal(c, Free(time, delay)) && k <= |moves| && Divides(moves, k, time)
    ensures QueueOk(w, moves[k..], After(c, Free(time, delay)))
  {
    DropGapFree(moves, k);
    if 0 < k < |moves| {
      assert End(moves[k - 1]) == moves[k].printTime;
    }
    assert c.live.Span? && k < |moves| ==> time < End(moves[k]) <= c.live.hi;
  }

  // ------------------------------------------------------------------ what is owed to whom

  /** A move that was dropped before its end, and the flush time at which it was. */
  datatype Aborted = Aborted(move: Move, until: real)

  /** The moves that are owed all their time, those of them still in the queue, and the aborted ones. */
  datatype Ledger = Ledger(all: seq<Move>, pending: seq<Move>, cut: seq<Aborted>)

  /** What an event does to the ledger, after a flush to `flushed`. */
  function Posted(l: Ledger, input: Input, flushed: real): Ledger {
    match input.event
    case Batch(_, _, _) => l.(all := l.all + input.moves, pending := l.pending + input.moves)
    case Flush(_) => l
    case Free(time, _) => l.(pending := Later(l.pending, time))
    case Drop => Ledger(Except(l.all, l.pending), [], l.cut + Cut(l.pending, flushed))
  }

  function LedgerOf(inputs: seq<Input>): Ledger {
    if |inputs| == 0 then Ledger([], [], [])
    else
      var before := inputs[..|inputs| - 1];
      Posted(LedgerOf(before), inputs[|inputs| - 1], ClockOf(Events(before)).flushed)
  }

  /** The moves that last beyond a time. */
  function Later(moves: seq<Move>, time: real): (r: seq<Move>)
    ensures forall m :: m in r <==> m in moves && End(m) > time
  {
    if |moves| == 0 then []
    else
      assert moves == [moves[0]] + moves[1..];
      (if End(moves[0]) > time then [moves[0]] else []) + Later(moves[1..], time)
  }

  function Cut(moves: seq<Move>, until: real): (r: seq<Aborted>)
    ensures |r| == |moves| && forall i :: 0 <= i < |r| ==> r[i] == Aborted(moves[i], until)
  {
    if |moves| == 0 then [] else [Aborted(moves[0], until)] + Cut(moves[1..], until)
  }

  /** Every move ever queued is owed all its time, or was aborted. */
  lemma {:induction false} AllAccounted(inputs: seq<Input>, m: Move)
    requires m in Queued(inputs)
    ensures m in LedgerOf(inputs).all || exists x :: x in LedgerOf(inputs).cut && x.move == m
    decreases |inputs|
  {
    var n := |inputs| - 1;
    var before, last := inputs[..n], inputs[n];
    var l, flushed := LedgerOf(before), ClockOf(Events(before)).flushed;
    if m in Queued(before) {
      AllAccounted(before, m);
      if m in l.all && last.event.Drop? && m in l.pending {
        var i :| 0 <= i < |l.pending| && l.pending[i] == m;
        assert Cut(l.pending, flushed)[i] == Aborted(m, flushed);
        assert Aborted(m, flushed) in LedgerOf(inputs).cut;
      } else if m !in l.all {
        var x :| x in l.cut && x.move == m;
        assert x in LedgerOf(inputs).cut;
      }
    }
  }

  /** The queue's active moves are pending, the pending moves are owed their time, and each aborted move got
      its time up to the flush at which it was dropped. */
  ghost predicate LedgerOk(w: Window, moves: seq<Move>, l: Ledger, handed: seq<Interval>) {
    && (forall m <- moves :: Active(w, m) ==> m in l.pending)
    && (forall m <- l.pending :: m in l.all)
    && (forall x <- l.cut :: Complete(w, [x.move], handed, 0.0, x.until))
  }

  lemma ServedStays(w: Window, x: Aborted, handed: seq<Interval>, handed': seq<Interval>)
    requires Complete(w, [x.move], handed, 0.0, x.until) && handed <= handed'
    ensures Complete(w, [x.move], handed', 0.0, x.until)
  {
    forall i, t: real | 0 <= i < 1 && Active(w, [x.move][i]) && Near(w, [x.move][i], t) && 0.0 <= t < x.until
      ensures Covered(handed', t)
    {
      CoveredGrows(handed, handed'[|handed|..], t);
      assert handed + handed'[|handed|..] == handed';
    }
  }

  lemma ServedSoFar(w: Window, all: seq<Move>, m: Move, handed: seq<Interval>, flushed: real)
    requires Complete(w, all, handed, 0.0, flushed) && m in all
    ensures Complete(w, [m], handed, 0.0, flushed)
  {
    var k :| 0 <= k < |all| && all[k] == m;
    forall i, t: real | 0 <= i < 1 && Active(w, [m][i]) && Near(w, [m][i], t) && 0.0 <= t < flushed
      ensures Covered(handed, t)
    {
      assert Near(w, all[k], t);
    }
  }

  lemma LedgerFlush(w: Window, moves: seq<Move>, l: Ledger, handed: seq<Interval>, handed': seq<Interval>)
    requires LedgerOk(w, moves, l, handed) && handed <= handed'
    ensures LedgerOk(w, moves, l, handed')
  {
    forall x <- l.cut ensures Complete(w, [x.move], handed', 0.0, x.until) {
      ServedStays(w, x, handed, handed');
    }
  }

  lemma LedgerDrop(w: Window, moves: seq<Move>, l: Ledger, handed: seq<Interval>, flushed: real)
    requires LedgerOk(w, moves, l, handed) && Complete(w, l.all, handed, 0.0, flushed)
    ensures LedgerOk(w, [], Posted(l, Input(Drop, []), flushed), handed)
  {
    var l' := Posted(l, Input(Drop, []), flushed);
    forall x <- l'.cut ensures Complete(w, [x.move], handed, 0.0, x.until) {
      if x !in l.cut {
        ServedSoFar(w, l.all, x.move, handed, flushed);
      }
    }
  }

  lemma LedgerFree(w: Window, moves: seq<Move>, l: Ledger, handed: seq<Interval>, k: nat, time: real)
    requires LedgerOk(w, moves, l, handed) && k <= |moves| && Divides(moves, k, time)
    ensures LedgerOk(w, moves[k..], l.(pending := Later(l.pending, time)), handed)
  {
    forall m <- moves[k..] | Active(w, m) ensures m in Later(l.pending, time) {
      var i :| 0 <= i < |moves| - k && moves[k..][i] == m;
      assert moves[k + i] == m;
    }
  }

  // ------------------------------------------------------------------ running it

  class Machine {
    const tq: TrapQueue
    const sk: StepperKinematics
    ghost var book: Ledger // what is owed to the moves queued so far

    constructor (w: Window)
      ensures fresh(tq) && fresh(sk) && sk.w == w && Valid(Clock(0.0, Idle)) && sk.origin == 0.0 && book == Ledger([], [], [])
    {
      tq := new TrapQueue();
      sk := new StepperKinematics(w, 0.0);
      book := Ledger([], [], []);
    }

    ghost predicate Valid(c: Clock)
      reads this, tq, sk
    {
      && tq.TailOk() && QueueOk(sk.w, tq.moves, c)
      && Followed(sk.w, tq.moves, book.all, sk.handed, sk.lastMoveTime, sk.origin, c.flushed)
      && sk.lastFlushTime == c.flushed && sk.origin == 0.0 && LedgerOk(sk.w, tq.moves, book, sk.handed)
    }

    /** All moves of a batch are appended. */
    method AddAll(moves: seq<Move>, ghost flushed: real, ghost lo: real, ghost start: real, end: real)
      requires tq.TailOk() && sk.w.pre <= MAX_NULL_MOVE && Within(moves, start, end) && lo <= start && 0.0 < start <= end
      requires Filling(sk.w, tq.moves, flushed, lo, start)
      modifies tq
      ensures tq.TailOk() && Filling(sk.w, tq.moves, flushed, lo, end)
      ensures Grown(sk.w, old(tq.moves), moves, tq.moves)
    {
      hide Filling, Grown, InSpan, Padded, GapFree, Added, Active;
      ghost var reached := start;
      GrownFrom(sk.w, tq.moves, moves[..0]);
      for i := 0 to |moves|
        invariant tq.TailOk() && Filling(sk.w, tq.moves, flushed, lo, reached) && start <= reached <= end
        invariant i < |moves| ==> reached <= moves[i].printTime
        invariant Grown(sk.w, old(tq.moves), moves[..i], tq.moves)
      {
        FillerOk(sk.w, tq.moves, moves[i], flushed, lo, reached);
        GrownBy(sk.w, old(tq.moves), moves, i, tq.moves);
        tq.AddMove(moves[i]);
        reached := End(moves[i]);
      }
      assert moves[..|moves|] == moves;
      FillingTo(sk.w, tq.moves, flushed, lo, reached, end);
    }

    /** A batch of moves from the toolhead. */
    method QueueBatch(input: Input, ghost c: Clock)
      requires Valid(c) && Suits(sk.w) && input.event.Batch? && Legal(c, input.event) && InputOk(sk.w, input)
      modifies tq, this
      ensures Valid(After(c, input.event)) && book == Posted(old(book), input, c.flushed) && sk.handed == old(sk.handed)
    {
      var start, end := input.event.start, input.event.end;
      ghost var c' := After(c, input.event);
      if input.moves == [] {
        QueueLasts(sk.w, tq.moves, c, input.event);
        assert book.all + [] == book.all && book.pending + [] == book.pending;
        return;
      }
      QueueFilling(sk.w, tq.moves, c, input.event);
      ghost var before := tq.moves;
      AddAll(input.moves, c.flushed, c'.live.lo, start, end);
      BatchFollowed(sk.w, before, tq.moves, input.moves, book.all, sk.handed, sk.lastMoveTime, sk.origin, c.flushed);
      book := Posted(book, input, c.flushed);
    }

    /** All generators are flushed to a time. */
    method FlushGenerators(time: real, ghost c: Clock) returns (ret: int)
      requires Valid(c) && Suits(sk.w) && Legal(c, Flush(time)) && time + sk.w.pre <= NEVER
      modifies tq, sk
      ensures old(sk.handed) <= sk.handed && InOrder(sk.handed, time)
      ensures ret == 0 ==> Valid(After(c, Flush(time)))
    {
      ghost var handed, lastMove := sk.handed, sk.lastMoveTime;
      tq.CheckSentinels();
      ListWalkable(sk.w, tq.moves, tq.tail, c, time);
      ListFollowed(sk.w, tq.moves, tq.tail, book.all, sk.handed, sk.lastMoveTime, sk.origin, c.flushed);
      ret := sk.GenerateSteps(tq.moves + [tq.tail], time);
      if ret == 0 {
        LedgerFlush(sk.w, tq.moves, book, handed, sk.handed);
        FlushFollowed(sk.w, tq.moves, tq.moves + [tq.tail], book.all, handed, sk.handed, lastMove, sk.lastMoveTime,
                      sk.origin, c.flushed, time);
      }
    }

    /** Moves that are over leave the queue. */
    method Forget(time: real, ghost delay: real, ghost c: Clock)
      requires Valid(c) && Legal(c, Free(time, delay)) && sk.w.post <= delay
      modifies tq, this
      ensures Valid(After(c, Free(time, delay))) && book == old(book).(pending := Later(old(book).pending, time))
      ensures sk.handed == old(sk.handed)
    {
      ghost var moves := tq.moves;
      ghost var k := tq.FinalizeMoves(time);
      LedgerFree(sk.w, moves, book, sk.handed, k, time);
      book := book.(pending := Later(book.pending, time));
      FreeFollowed(sk.w, moves, k, book.all, sk.handed, sk.lastMoveTime, sk.origin, c, time, delay);
      FreeQueueOk(sk.w, moves, k, c, time, delay);
    }

    /** A homing move has ended early: what is left of it leaves the queue at once. */
    method Abort(ghost c: Clock)
      requires Valid(c)
      modifies tq, this
      ensures Valid(After(c, Drop)) && tq.moves == [] && sk.handed == old(sk.handed)
      ensures book == Posted(old(book), Input(Drop, []), c.flushed)
    {
      hide Complete, Divides, QueueOk, Followed, LedgerOk, Posted, GapFree, After;
      ghost var moves := tq.moves;
      AbortOk(sk.w, moves, book, sk.handed, sk.lastMoveTime, sk.origin, c);
      ghost var k := tq.FinalizeMoves(NEVER);
      AllRetired(sk.w, moves, c, k);
      book := Posted(book, Input(Drop, []), c.flushed);
    }

    /** One event of the toolhead. */
    method Step(input: Input, ghost c: Clock) returns (ret: int)
      requires Valid(c) && Suits(sk.w) && Legal(c, input.event) && InputOk(sk.w, input)
      modifies tq, sk, this
      ensures old(sk.handed) <= sk.handed
      ensures ret == 0 ==> Valid(After(c, input.event)) && book == Posted(old(book), input, c.flushed)
    {
      ret := 0;
      match input.event
      case Batch(_, _, _) => QueueBatch(input, c);
      case Flush(time) => ret := FlushGenerators(time, c);
      case Free(time, delay) => Forget(time, delay, c);
      case Drop => Abort(c);
    }

    /** Any legal run of the toolhead: as long as the solver does not fail, everything that the moves owed
        their time need up to the last flush has been handed to it, in order and without overlap, and every
        aborted move was served up to the flush at which it was dropped. */
    method Play(inputs: seq<Input>) returns (ret: int)
      requires Valid(Clock(0.0, Idle)) && Suits(sk.w) && book == Ledger([], [], [])
      requires LegalTrace(Events(inputs)) && forall input <- inputs :: InputOk(sk.w, input)
      modifies tq, sk, this
      ensures ret == 0 ==>
        var flushed, owed := ClockOf(Events(inputs)).flushed, LedgerOf(inputs);
        && Complete(sk.w, owed.all, sk.handed, 0.0, flushed) && InOrder(sk.handed, flushed)
        && forall x <- owed.cut :: Complete(sk.w, [x.move], sk.handed, 0.0, x.until)
    {
      hide QueueOk, Legal, InputOk, Suits, After, Complete, InOrder, Remembers, Active, Posted;
      ret := 0;
      for i := 0 to |inputs|
        invariant Valid(ClockOf(Events(inputs[..i]))) && book == LedgerOf(inputs[..i])
      {
        PrefixLegal(inputs, i);
        assert inputs[..i + 1][..i] == inputs[..i];
        ret := Step(inputs[i], ClockOf(Events(inputs[..i])));
        if ret != 0 {
          return;
        }
      }
      assert inputs[..|inputs|] == inputs;
    }
  }

  /** All moves of all batches, in order. */
  function Queued(inputs: seq<Input>): seq<Move> {
    if |inputs| == 0 then []
    else
      var last := inputs[|inputs| - 1];
      Queued(inputs[..|inputs| - 1]) + if last.event.Batch? then last.moves else []
  }

  lemma {:induction false} PrefixLegal(inputs: seq<Input>, i: nat)
    requires LegalTrace(Events(inputs)) && i < |inputs|
    ensures Legal(ClockOf(Events(inputs[..i])), inputs[i].event)
    ensures ClockOf(Events(inputs[..i + 1])) == After(ClockOf(Events(inputs[..i])), inputs[i].event)
    decreases |inputs|
  {
    var n := |inputs| - 1;
    assert Events(inputs)[..n] == Events(inputs[..n]);
    if i < n {
      PrefixLegal(inputs[..n], i);
      assert inputs[..n][..i] == inputs[..i] && inputs[..n][..i + 1] == inputs[..i + 1];
    } else {
      assert inputs[..i + 1] == inputs;
    }
  }

  /** The moves of `all` that are not in the queue. */
  function Except(all: seq<Move>, moves: seq<Move>): (r: seq<Move>)
    ensures forall a :: a in r <==> a in all && a !in moves
  {
    if |all| == 0 then []
    else
      assert all == [all[0]] + all[1..];
      (if all[0] in moves then [] else [all[0]]) + Except(all[1..], moves)
  }

  lemma AbortOk(w: Window, moves: seq<Move>, l: Ledger, handed: seq<Interval>, lastMove: real, origin: real, c: Clock)
    requires QueueOk(w, moves, c) && Followed(w, moves, l.all, handed, lastMove, origin, c.flushed) && LedgerOk(w, moves, l, handed)
    requires origin == 0.0
    ensures var l' := Posted(l, Input(Drop, []), c.flushed);
      && GapFree(moves) && QueueOk(w, [], After(c, Drop)) && After(c, Drop).flushed == c.flushed
      && Followed(w, [], l'.all, handed, lastMove, origin, c.flushed) && LedgerOk(w, [], l', handed)
  {
    hide Complete, Padded, InSpan, Except, Cut;
    AbortFollowed(w, moves, l.all, l.pending, handed, lastMove, origin, c.flushed);
    LedgerDrop(w, moves, l, handed, c.flushed);
  }

  lemma AllRetired(w: Window, moves: seq<Move>, c: Clock, k: nat)
    requires QueueOk(w, moves, c) && k <= |moves| && Divides(moves, k, NEVER)
    ensures k == |moves|
  {
  }

  lemma AbortFollowed(w: Window, moves: seq<Move>, all: seq<Move>, pending: seq<Move>, handed: seq<Interval>,
                      lastMove: real, origin: real, flushed: real)
    requires Followed(w, moves, all, handed, lastMove, origin, flushed) && forall m <- moves :: Active(w, m) ==> m in pending
    ensures Followed(w, [], Except(all, pending), handed, lastMove, origin, flushed)
  {
    var rest := Except(all, pending);
    forall i, t: real | 0 <= i < |rest| && Active(w, rest[i]) && Near(w, rest[i], t) && origin <= t < flushed
      ensures Covered(handed, t)
    {
      assert rest[i] in rest;
      var k :| 0 <= k < |all| && all[k] == rest[i];
      assert Near(w, all[k], t);
    }
  }

  predicate Suits(w: Window) { 0.0 <= w.pre <= MAX_NULL_MOVE && 0.0 <= w.post }

  /** An empty batch only makes the span longer. */
  lemma QueueLasts(w: Window, moves: seq<Move>, c: Clock, e: Event)
    requires QueueOk(w, moves, c) && e.Batch? && Legal(c, e) && e.end <= NEVER
    ensures QueueOk(w, moves, After(c, e))
  {
  }

  lemma QueueFilling(w: Window, moves: seq<Move>, c: Clock, e: Event)
    requires QueueOk(w, moves, c) && e.Batch? && Legal(c, e)
    ensures Filling(w, moves, c.flushed, After(c, e).live.lo, e.start)
  {
  }
}
