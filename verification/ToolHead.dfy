/** klippy/toolhead.py: how the toolhead tracks print time and flushes the step generators. */
module ToolHead {
  import opened Moves
  import opened Message

  const MIN_KIN_TIME := 0.100
  const MOVE_BATCH_TIME := 0.500
  const SDS_CHECK_TIME := 0.001
  const DRIP_SEGMENT_TIME := 0.050
  const DRIP_TIME := 0.100

  // ------------------------------------------------------------------ what the outside sees

  /** A batch of moves enters the trapq; every step generator is flushed; the trapq is told to forget
      moves that are over, or all moves. */
  datatype Event = Batch(start: real, end: real, delay: real) | Flush(time: real) | Free(time: real, delay: real) | Drop

  /** The moves the trapq may still hold lie in a span of time. */
  datatype Live = Idle | Span(lo: real, hi: real)

  datatype Clock = Clock(flushed: real, live: Live)

  function After(c: Clock, e: Event): Clock {
    match e
    case Batch(start, end, _) => c.(live := Span(if c.live.Span? then c.live.lo else start, end))
    case Flush(time) => c.(flushed := time)
    case Free(time, _) => if c.live.Span? && c.live.hi <= time then c.(live := Idle) else c
    case Drop => c.(live := Idle)
  }

  /** Flushes never go back.  A batch starts a scan window after the last flush, and after the batch
      before.  A move is forgotten only when the generators are a scan window past its end. */
  predicate Legal(c: Clock, e: Event) {
    match e
    case Batch(start, end, delay) =>
      delay >= SDS_CHECK_TIME && c.flushed + delay <= start <= end && (c.live.Span? ==> c.live.hi <= start)
    case Flush(time) => c.flushed <= time
    case Free(time, delay) => time <= c.flushed &&
      (time + delay <= c.flushed || c.live.Idle? || time <= c.live.lo || c.live.hi + delay <= c.flushed)
    case Drop => true
  }

  function ClockOf(trace: seq<Event>): Clock {
    if |trace| == 0 then Clock(0.0, Idle) else After(ClockOf(trace[..|trace| - 1]), trace[|trace| - 1])
  }

  predicate LegalTrace(trace: seq<Event>) {
    |trace| == 0 || (LegalTrace(trace[..|trace| - 1]) && Legal(ClockOf(trace[..|trace| - 1]), trace[|trace| - 1]))
  }

  lemma TraceGrows(trace: seq<Event>, e: Event)
    ensures ClockOf(trace + [e]) == After(ClockOf(trace), e)
    ensures LegalTrace(trace + [e]) == (LegalTrace(trace) && Legal(ClockOf(trace), e))
  {
    assert (trace + [e])[..|trace|] == trace;
  }

  /** The clock is at least at every flush so far. */
  lemma {:induction false} FlushedUpTo(trace: seq<Event>, i: nat)
    requires LegalTrace(trace) && i < |trace| && trace[i].Flush?
    ensures trace[i].time <= ClockOf(trace).flushed
  {
    var before := trace[..|trace| - 1];
    if i < |before| {
      assert before[i] == trace[i];
      FlushedUpTo(before, i);
    }
  }

  /** The step generators' flush time never decreases. */
  lemma {:induction false} FlushesAreOrdered(trace: seq<Event>, i: nat, j: nat)
    requires LegalTrace(trace) && i <= j < |trace| && trace[i].Flush? && trace[j].Flush?
    ensures trace[i].time <= trace[j].time
    decreases |trace|
  {
    var before := trace[..|trace| - 1];
    if i < j {
      assert before[i] == trace[i];
      if j < |before| {
        FlushesAreOrdered(before, i, j);
      } else {
        FlushedUpTo(before, i);
      }
    }
  }

  /** Every batch starts at least the scan window after any time a generator was flushed to before. */
  lemma {:induction false} BatchesComeAfterFlushes(trace: seq<Event>, i: nat, j: nat)
    requires LegalTrace(trace) && i < j < |trace| && trace[i].Flush? && trace[j].Batch?
    ensures trace[i].time + trace[j].delay <= trace[j].start
    decreases |trace|
  {
    var before := trace[..|trace| - 1];
    assert before[i] == trace[i];
    if j < |before| {
      BatchesComeAfterFlushes(before, i, j);
    } else {
      FlushedUpTo(before, i);
    }
  }

  // ------------------------------------------------------------------ the toolhead

  datatype QState = Main | Flushed | Priming | Drip

  /** What a turn of the drip loop finds: the completion, or an estimated print time. */
  datatype Tick = Tick(completed: bool, est: real)

  function Largest(delays: seq<real>, least: real): (d: real)
    ensures d >= least && forall x <- delays :: x <= d
    ensures d == least || d in delays
  {
    if |delays| == 0 then least
    else
      assert forall x <- delays :: x == delays[0] || x in delays[1..];
      Max(delays[0], Largest(delays[1..], least))
  }

  class ToolHead {
    var state: QState
    var printTime: real
    var lastKinFlushTime: real
    var lastKinMoveTime: real
    var kinFlushDelay: real
    var kinFlushTimes: seq<real>
    const bufferTimeStart: real
    const moveFlushTime: real
    const canPause: bool
    ghost var trace: seq<Event>

    constructor (bufferTimeStart: real, moveFlushTime: real, canPause: bool)
      ensures Ok() && printTime == 0.0 && trace == []
    {
      state := Flushed;
      printTime, lastKinFlushTime, lastKinMoveTime, kinFlushDelay, kinFlushTimes := 0.0, 0.0, 0.0, SDS_CHECK_TIME, [];
      this.bufferTimeStart, this.moveFlushTime, this.canPause := bufferTimeStart, moveFlushTime, canPause;
      trace := [];
    }

    /** What holds at every moment, also while moves are being processed. */
    ghost predicate Sound()
      reads this
    {
      && LegalTrace(trace) && kinFlushDelay >= SDS_CHECK_TIME
      && var c := ClockOf(trace);
      && c.flushed <= Max(lastKinFlushTime, printTime - kinFlushDelay)
      && (c.live.Span? ==> c.live.lo >= lastKinFlushTime + kinFlushDelay)
    }

    /** What holds between operations. */
    ghost predicate Ok()
      reads this
    {
      && Sound()
      && (state == Main ==> printTime >= lastKinFlushTime + kinFlushDelay)
      && var live := ClockOf(trace).live;
      live.Span? ==> live.hi <= lastKinMoveTime && live.hi <= printTime
    }

    ghost method Record(e: Event)
      modifies this`trace
      ensures trace == old(trace) + [e] && ClockOf(trace) == After(ClockOf(old(trace)), e)
      ensures LegalTrace(trace) == (LegalTrace(old(trace)) && Legal(ClockOf(old(trace)), e))
    {
      TraceGrows(trace, e);
      trace := trace + [e];
    }

    /** _update_move_time: advances print_time in small batches, flushing the generators behind it.
        Either no move has started at last_kin_flush_time, or all moves are long over then. */
    method UpdateMoveTime(nextPrintTime: real)
      requires LegalTrace(trace) && printTime <= nextPrintTime && kinFlushDelay >= SDS_CHECK_TIME
      requires ClockOf(trace).flushed <= Max(lastKinFlushTime, printTime - kinFlushDelay)
      requires var live := ClockOf(trace).live;
        live.Span? ==> lastKinFlushTime <= live.lo || live.hi + kinFlushDelay <= lastKinFlushTime
      modifies this`printTime, this`trace
      ensures old(trace) <= trace && LegalTrace(trace) && printTime == nextPrintTime
      ensures ClockOf(trace).flushed == Max(lastKinFlushTime, printTime - kinFlushDelay)
      ensures ClockOf(trace).live == ClockOf(old(trace)).live || ClockOf(trace).live.Idle?
      ensures var live := ClockOf(old(trace)).live;
        live.Span? && live.hi <= lastKinFlushTime ==> ClockOf(trace).live.Idle?
    {
      var lkft := lastKinFlushTime;
      ghost var live := ClockOf(trace).live;
      while true
        invariant old(trace) <= trace && LegalTrace(trace) && printTime <= nextPrintTime
        invariant ClockOf(trace).flushed <= Max(lkft, printTime - kinFlushDelay)
        invariant ClockOf(trace).live == live || ClockOf(trace).live.Idle?
        decreases 2.0 * (nextPrintTime - printTime)
      {
        printTime := Min(printTime + MOVE_BATCH_TIME, nextPrintTime);
        var sgFlushTime := Max(lkft, printTime - kinFlushDelay);
        Record(Flush(sgFlushTime));
        var freeTime := Max(lkft, sgFlushTime - kinFlushDelay);
        Record(Free(freeTime, kinFlushDelay));
        if printTime >= nextPrintTime {
          return;
        }
      }
    }

    /** A time not before `was`, with time to buffer, and room for the scan windows after the last flush and
        after the time at which steps can still be sent. */
    predicate Roomy(t: real, was: real, est: real)
      reads this
    {
      && t >= was && t >= est + bufferTimeStart
      && t >= est + MIN_KIN_TIME + kinFlushDelay && t >= lastKinFlushTime + kinFlushDelay
    }

    /** _calc_print_time: print_time leaves room for the scan windows after the last flush. */
    method CalcPrintTime(est: real)
      modifies this`printTime
      ensures Roomy(printTime, old(printTime), est) && forall t: real :: Roomy(t, old(printTime), est) ==> printTime <= t
    {
      var kinTime := Max(est + MIN_KIN_TIME, lastKinFlushTime);
      kinTime := kinTime + kinFlushDelay;
      var minPrintTime := Max(est + bufferTimeStart, kinTime);
      if minPrintTime > printTime {
        printTime := minPrintTime;
      }
    }

    /** _update_drip_move_time: small segments, no faster than the clock, until told to stop. */
    method UpdateDripMoveTime(nextPrintTime: real, ticks: seq<Tick>) returns (ended: bool)
      requires Sound() && printTime <= nextPrintTime
      modifies this`printTime, this`trace
      ensures Sound() && old(trace) <= trace && old(printTime) <= printTime <= nextPrintTime
      ensures ClockOf(trace).live == ClockOf(old(trace)).live || ClockOf(trace).live.Idle?
      ensures !ended ==> printTime == nextPrintTime
    {
      var flushDelay := DRIP_TIME + moveFlushTime + kinFlushDelay;
      var i := 0;
      while printTime < nextPrintTime
        invariant Sound() && i <= |ticks| && old(trace) <= trace && old(printTime) <= printTime <= nextPrintTime
        invariant ClockOf(trace).live == ClockOf(old(trace)).live || ClockOf(trace).live.Idle?
        decreases |ticks| - i
      {
        if i == |ticks| || ticks[i].completed {
          return true;
        }
        var waitTime := printTime - ticks[i].est - flushDelay;
        i := i + 1;
        if waitTime > 0.0 && canPause {
          continue;
        }
        var npt := Min(printTime + DRIP_SEGMENT_TIME, nextPrintTime);
        UpdateMoveTime(npt);
      }
      ended := false;
    }

    /** _process_moves: a batch of moves that lasts `duration` enters the trapq. */
    method ProcessMoves(duration: real, est: real, ticks: seq<Tick>) returns (ended: bool)
      requires Ok() && duration >= 0.0
      modifies this
      ensures Sound() && old(trace) <= trace && old(printTime) <= printTime
      ensures kinFlushDelay == old(kinFlushDelay) && kinFlushTimes == old(kinFlushTimes)
      ensures lastKinFlushTime == old(lastKinFlushTime)
      ensures state == if old(state) == Drip then Drip else Main
      ensures !ended ==> Ok() && printTime >= lastKinFlushTime + kinFlushDelay
      ensures ended ==> state == Drip && lastKinMoveTime == old(lastKinMoveTime)
    {
      hide LegalTrace, ClockOf;
      if state != Main {
        if state != Drip {
          state := Main;
        }
        CalcPrintTime(est);
      }
      var next := printTime + duration;
      Record(Batch(printTime, next, kinFlushDelay));
      if state != Main {
        ended := UpdateDripMoveTime(next, ticks);
        if ended {
          return;
        }
      }
      UpdateMoveTime(next);
      lastKinMoveTime := next;
      ended := false;
    }

    /** move_queue.flush(): the planner hands over a batch of moves, or has none. */
    method FlushMoves(batch: Option<real>, est: real)
      requires Ok() && state != Drip && Lasting(batch)
      modifies this
      ensures Ok() && old(trace) <= trace && old(printTime) <= printTime
      ensures kinFlushDelay == old(kinFlushDelay) && kinFlushTimes == old(kinFlushTimes)
      ensures state == if batch.Some? then Main else old(state)
    {
      if batch.Some? {
        var _ := ProcessMoves(batch.value, est, []);
      }
    }

    /** The rest of flush_step_generation: everything up to the last move is generated and forgotten. */
    method FlushAll()
      requires Sound()
      requires var live := ClockOf(trace).live; live.Span? ==> live.hi <= lastKinMoveTime
      modifies this
      ensures Ok() && old(trace) <= trace && old(printTime) <= printTime && state == Flushed
      ensures kinFlushDelay == old(kinFlushDelay) && kinFlushTimes == old(kinFlushTimes)
      ensures ClockOf(trace) == Clock(lastKinFlushTime, Idle) && lastKinFlushTime >= lastKinMoveTime + kinFlushDelay
    {
      state := Flushed;
      var flushTime := lastKinMoveTime + kinFlushDelay;
      flushTime := Max(flushTime, printTime - kinFlushDelay);
      lastKinFlushTime := Max(lastKinFlushTime, flushTime);
      UpdateMoveTime(Max(printTime, lastKinFlushTime));
    }

    /** flush_step_generation. */
    method FlushStepGeneration(batch: Option<real>, est: real)
      requires Ok() && state != Drip && Lasting(batch)
      modifies this
      ensures Ok() && old(trace) <= trace && old(printTime) <= printTime && state == Flushed
      ensures kinFlushDelay == old(kinFlushDelay) && kinFlushTimes == old(kinFlushTimes)
      ensures ClockOf(trace) == Clock(lastKinFlushTime, Idle)
    {
      FlushMoves(batch, est);
      FlushAll();
    }

    /** get_last_move_time. */
    method GetLastMoveTime(batch: Option<real>, est: real, est': real)
      requires Ok() && state != Drip && Lasting(batch)
      modifies this
      ensures Ok() && old(trace) <= trace && old(printTime) <= printTime && state in {Main, Flushed}
      ensures kinFlushDelay == old(kinFlushDelay) && kinFlushTimes == old(kinFlushTimes)
      ensures printTime >= lastKinFlushTime + kinFlushDelay
    {
      if state != Main {
        FlushStepGeneration(batch, est);
      } else {
        FlushMoves(batch, est);
      }
      if state != Main {
        CalcPrintTime(est');
      }
    }

    /** dwell, with the state change that _check_stall makes at its end. */
    method Dwell(delay: real, batch: Option<real>, est: real, est': real)
      requires Ok() && state != Drip && Lasting(batch)
      modifies this
      ensures Ok() && old(trace) <= trace && old(printTime) + Max(0.0, delay) <= printTime && state in {Main, Priming}
      ensures kinFlushDelay == old(kinFlushDelay) && kinFlushTimes == old(kinFlushTimes)
    {
      GetLastMoveTime(batch, est, est');
      var next := printTime + Max(0.0, delay);
      UpdateMoveTime(next);
      CheckStall();
    }

    /** The part of _check_stall that changes the queuing state. */
    method CheckStall()
      modifies this`state
      ensures state == if old(state) == Main then Main else Priming
    {
      if state != Main {
        state := Priming;
      }
    }

    /** drip_move.  `batch` and `late` are what is still planned, `drip` how long the homing move lasts;
        without it the move was refused. */
    method DripMove(batch: Option<real>, late: Option<real>, drip: Option<real>, est: seq<real>, ticks: seq<Tick>)
      requires Ok() && state != Drip && Lasting(batch) && Lasting(late) && Lasting(drip) && |est| == 4
      modifies this
      ensures Ok() && old(trace) <= trace && old(printTime) <= printTime && state == Flushed
      ensures ClockOf(trace) == Clock(lastKinFlushTime, Idle)
      ensures kinFlushDelay == old(kinFlushDelay) && kinFlushTimes == old(kinFlushTimes)
    {
      hide LegalTrace, ClockOf;
      Dwell(kinFlushDelay, batch, est[0], est[1]);
      FlushMoves(late, est[2]);
      state := Drip;
      if drip.Some? {
        var ended := ProcessMoves(drip.value, est[3], ticks);
        if ended {
          Record(Drop);
        }
      }
      FlushAll();
    }

    /** note_step_generation_scan_time: false if the window to be replaced is not there. */
    method NoteStepGenerationScanTime(delay: real, oldDelay: real, batch: Option<real>, est: real) returns (found: bool)
      requires Ok() && state != Drip && Lasting(batch)
      modifies this
      ensures Ok() && old(trace) <= trace && old(printTime) <= printTime && state == Flushed
      ensures found <==> oldDelay == 0.0 || oldDelay in old(kinFlushTimes)
      ensures !found ==> kinFlushTimes == old(kinFlushTimes) && kinFlushDelay == old(kinFlushDelay)
      ensures found ==> kinFlushDelay == Largest(kinFlushTimes, SDS_CHECK_TIME)
      ensures found ==> multiset(kinFlushTimes) == multiset(old(kinFlushTimes)) - One(oldDelay) + One(delay)
    {
      hide LegalTrace, ClockOf, Largest, One;
      FlushStepGeneration(batch, est);
      var times;
      found, times := Replace(kinFlushTimes, delay, oldDelay);
      if found {
        kinFlushTimes := times;
        kinFlushDelay := Largest(kinFlushTimes, SDS_CHECK_TIME);
      }
    }

    /** note_kinematic_activity. */
    method NoteKinematicActivity(kinTime: real)
      requires Ok()
      modifies this`lastKinMoveTime
      ensures Ok() && lastKinMoveTime == Max(old(lastKinMoveTime), kinTime)
    {
      lastKinMoveTime := Max(lastKinMoveTime, kinTime);
    }

    /** Any mix of operations. */
    method Run(ops: seq<Op>)
      requires Ok() && state != Drip && forall op <- ops :: Allowed(op)
      modifies this
      ensures Ok() && state != Drip && old(trace) <= trace && LegalTrace(trace) && old(printTime) <= printTime
    {
      for i := 0 to |ops|
        invariant Ok() && state != Drip && old(trace) <= trace && old(printTime) <= printTime
      {
        Apply(ops[i]);
      }
    }

    method Apply(op: Op)
      requires Ok() && state != Drip && Allowed(op)
      modifies this
      ensures Ok() && state != Drip && old(trace) <= trace && old(printTime) <= printTime
    {
      match op
      case DoMoves(batch, est) => FlushMoves(batch, est);
      case DoFlush(batch, est) => FlushStepGeneration(batch, est);
      case DoDwell(delay, batch, est, est') => Dwell(delay, batch, est, est');
      case DoStall => CheckStall();
      case DoDrip(batch, late, drip, ests, ticks) => DripMove(batch, late, drip, ests, ticks);
      case DoScan(delay, oldDelay, batch, est) => var _ := NoteStepGenerationScanTime(delay, oldDelay, batch, est);
      case DoActivity(time) => NoteKinematicActivity(time);
    }
  }

  /** An operation on the toolhead, with what the planner and the clock answer. */
  datatype Op =
    | DoMoves(batch: Option<real>, est: real)
    | DoFlush(batch: Option<real>, est: real)
    | DoDwell(delay: real, batch: Option<real>, est: real, est': real)
    | DoStall
    | DoDrip(batch: Option<real>, late: Option<real>, drip: Option<real>, ests: seq<real>, ticks: seq<Tick>)
    | DoScan(delay: real, oldDelay: real, batch: Option<real>, est: real)
    | DoActivity(time: real)

  predicate Lasting(batch: Option<real>) { batch.Some? ==> batch.value >= 0.0 }

  predicate Allowed(op: Op) {
    match op
    case DoMoves(batch, _) => Lasting(batch)
    case DoFlush(batch, _) => Lasting(batch)
    case DoDwell(_, batch, _, _) => Lasting(batch)
    case DoDrip(batch, late, drip, ests, _) => Lasting(batch) && Lasting(late) && Lasting(drip) && |ests| == 4
    case DoScan(_, _, batch, _) => Lasting(batch)
    case _ => true
  }

  /** A scan window; zero stands for none. */
  function One(delay: real): multiset<real> { if delay == 0.0 then multiset{} else multiset{delay} }

  /** One window takes the place of another; false if that is not there. */
  method Replace(times: seq<real>, delay: real, oldDelay: real) returns (found: bool, r: seq<real>)
    ensures found <==> oldDelay == 0.0 || oldDelay in times
    ensures found ==> multiset(r) == multiset(times) - One(oldDelay) + One(delay)
  {
    found, r := true, times;
    if oldDelay != 0.0 {
      if oldDelay !in times {
        return false, times;
      }
      r := Without(times, oldDelay);
    }
    if delay != 0.0 {
      r := r + [delay];
    }
  }

  /** The list without the first x. */
  function Without(s: seq<real>, x: real): (r: seq<real>)
    requires x in s
    ensures multiset(r) == multiset(s) - multiset{x}
  {
    if s[0] == x then (assert s == [x] + s[1..]; s[1..])
    else
      assert s == [s[0]] + s[1..];
      [s[0]] + Without(s[1..], x)
  }
}
