/** src/endstop.c: an end stop is polled; a match is confirmed by a number of further reads before the
    trigger is pulled. */
module Endstop {
  import opened Timer32
  import opened Stepper
  import opened Trsync

  /** A read of the pin: when, whether it matched, and whether it was one of the confirming reads. */
  datatype Sample = Sample(time: uint32, matched: bool, confirming: bool)

  /** How many of the last reads were matching confirming reads, without another read in between. */
  function Streak(hist: seq<Sample>): (n: nat)
    ensures n <= |hist|
  {
    if |hist| == 0 then 0
    else
      var s := hist[|hist| - 1];
      if s.matched && s.confirming then Streak(hist[..|hist| - 1]) + 1 else 0
  }

  lemma StreakGrows(hist: seq<Sample>, s: Sample)
    ensures Streak(hist + [s]) == if s.matched && s.confirming then Streak(hist) + 1 else 0
  {
    assert (hist + [s])[..|hist|] == hist;
  }

  /** The reads of the streak are `step` apart, from `first` on. */
  predicate Spaced(hist: seq<Sample>, n: nat, first: uint32, step: uint32) {
    n <= |hist| && forall i :: 0 <= i < n ==> hist[|hist| - n + i].time == Wrap(first + i * step)
  }

  lemma SpacedGrows(hist: seq<Sample>, n: nat, first: uint32, step: uint32, s: Sample)
    requires Spaced(hist, n, first, step) && s.time == Wrap(first + n * step)
    ensures Spaced(hist + [s], n + 1, first, step)
  {
  }

  /** What an end stop has seen: its reads, and the times it will report. */
  datatype Seen = Seen(hist: seq<Sample>, first: uint32, sampleTime: uint32, sampleCount: nat, nextwake: uint32, restTime: uint32)

  /** n confirming reads have matched, the next is due at `due`. */
  predicate Confirming(s: Seen, n: nat, due: uint32) {
    && Streak(s.hist) == n && Spaced(s.hist, n, s.first, s.sampleTime)
    && due == Wrap(s.first + n * s.sampleTime) && s.nextwake == Wrap(s.first + s.restTime)
  }

  /** sample_count confirming reads in a row have matched, and what is reported as next wake-up is, but
      for the rest time, the time of the first of them. */
  predicate Confirmed(s: Seen) {
    && Streak(s.hist) == s.sampleCount > 0 && Spaced(s.hist, s.sampleCount, s.first, s.sampleTime)
    && Wrap(s.nextwake - s.restTime) == s.hist[|s.hist| - s.sampleCount].time
  }

  class Endstop {
    var waketime: uint32
    var restTime: uint32
    var sampleTime: uint32
    var nextwake: uint32
    var ts: Trsync?
    var pinHigh: bool
    var homing: bool
    var sampleCount: nat
    var triggerCount: nat
    var triggerReason: int
    var oversampling: bool // the timer's function is endstop_oversample_event
    var live: bool
    ghost var hist: seq<Sample> // the reads since homing began
    ghost var first: uint32     // the time of the first confirming read

    constructor ()
      ensures !live && !homing && ts == null
    {
      waketime, restTime, sampleTime, nextwake, ts := 0, 0, 0, 0, null;
      pinHigh, homing, sampleCount, triggerCount, triggerReason, oversampling, live := false, false, 0, 0, 0, false, false;
      hist := [];
    }

    ghost function Record(): Seen
      reads this
    {
      Seen(hist, first, sampleTime, sampleCount, nextwake, restTime)
    }

    /** While it polls, the count says how many confirming reads are still wanted. */
    ghost predicate Polling()
      reads this
    {
      && live && ts != null && 0 < triggerCount <= sampleCount
      && if oversampling then Confirming(Record(), sampleCount - triggerCount, waketime) else triggerCount == sampleCount
    }

    /** command_endstop_home: no samples means that the end stop is not checked. */
    method Home(clock: uint32, sampleTicks: uint32, samples: uint32, restTicks: uint32, pinValue: bool, ts: Trsync, reason: int)
      modifies this
      ensures samples % 0x100 == 0 ==> !live && this.ts == null && !homing
      ensures samples % 0x100 != 0 ==> Polling() && this.ts == ts && homing && sampleCount == samples % 0x100
      ensures samples % 0x100 != 0 ==> pinHigh == pinValue && triggerReason == reason && waketime == clock && hist == []
    {
      live := false;
      waketime, sampleTime, sampleCount := clock, sampleTicks, samples % 0x100;
      hist := [];
      if sampleCount == 0 {
        this.ts := null;
        pinHigh, homing := false, false;
        return;
      }
      restTime, oversampling, triggerCount := restTicks, false, sampleCount;
      homing, pinHigh, this.ts, triggerReason := true, pinValue, ts, reason;
      live := true;
    }

    /** endstop_event up to the trigger: `val` is what the pin reads, `val'` what it reads right after a
        match.  True when the trigger is to be pulled. */
    method Poll(val: bool, val': bool) returns (pull: bool)
      requires Polling() && !oversampling
      modifies this`hist, this`oversampling, this`waketime, this`triggerCount, this`nextwake, this`first, this`live
      ensures if pull then Confirmed(Record()) && !live else Polling()
      ensures pull <==> Streak(hist) == sampleCount
      ensures hist == old(hist) + [Sample(old(waketime), val == pinHigh, false)]
                      + (if val == pinHigh then [Sample(old(waketime), val' == pinHigh, true)] else [])
      ensures val != pinHigh ==> !oversampling && waketime == Wrap(old(waketime) + restTime)
    {
      hide Streak, Confirming, Confirmed, Wrap;
      StreakGrows(hist, Sample(waketime, val == pinHigh, false));
      hist := hist + [Sample(waketime, val == pinHigh, false)];
      var next := Wrap(waketime + restTime);
      if val != pinHigh {
        waketime := next;
        return false;
      }
      nextwake := next;
      oversampling, first := true, waketime;
      FirstDue(Record(), waketime);
      pull := Confirm(val');
    }

    /** endstop_oversample_event up to the trigger: one confirming read that fails, or counts down. */
    method Confirm(val: bool) returns (pull: bool)
      requires Polling() && oversampling
      modifies this`hist, this`oversampling, this`waketime, this`triggerCount, this`live
      ensures if pull then Confirmed(Record()) && !live else Polling()
      ensures pull <==> Streak(hist) == sampleCount
      ensures hist == old(hist) + [Sample(old(waketime), val == pinHigh, true)]
      ensures val != pinHigh ==> !oversampling && waketime == nextwake
    {
      hide Streak, Spaced, Wrap, Confirming, Confirmed;
      ghost var before, s := Record(), Sample(waketime, val == pinHigh, true);
      NextConfirming(before, sampleCount - triggerCount, waketime, s);
      hist := hist + [s];
      if val != pinHigh {
        oversampling, waketime, triggerCount := false, nextwake, sampleCount;
        return false;
      }
      var count := triggerCount - 1;
      if count == 0 {
        live := false;
        return true;
      }
      triggerCount, waketime := count, Wrap(waketime + sampleTime);
      pull := false;
    }

    /** The timer event of the state the end stop is in. */
    method Sampled(val: bool, val': bool) returns (pull: bool)
      requires Polling()
      modifies this`hist, this`oversampling, this`waketime, this`triggerCount, this`nextwake, this`first, this`live
      ensures if pull then Confirmed(Record()) && !live else Polling()
      ensures pull <==> Streak(hist) == sampleCount
      ensures old(hist) < hist
    {
      hide Confirming, Confirmed, Streak;
      if oversampling {
        pull := Confirm(val);
      } else {
        pull := Poll(val, val');
      }
    }
  }

  /** The timer event of an end stop, with the trigger.  It is pulled only on a confirmed match, and then
      every stepper attached is stopped with the reason of the end stop, unless it was pulled before. */
  method Event(e: Endstop, val: bool, val': bool) returns (pulled: bool, ghost seen: Seen)
    requires e.Polling() && e.ts.Valid()
    modifies e, e.ts, e.ts.list, e.ts.pool
    ensures (pulled <==> Streak(seen.hist) == seen.sampleCount) && (pulled ==> Confirmed(seen)) && old(e.hist) < seen.hist
    ensures !pulled ==> e.Polling()
    ensures pulled && old(e.ts.t.canTrigger) ==>
      AllStopped(old(e.ts.list), old(Before(e.ts.list)), old(e.triggerReason))
  {
    hide AllStopped, Before, Confirmed, Confirming, Streak, Stepper.Valid, Linked, Attached;
    assert forall s <- e.ts.list :: s as object != e;
    pulled := e.Sampled(val, val');
    seen := e.Record();
    if pulled {
      e.ts.DoTrigger(e.triggerReason);
    }
  }

  /** One more confirming read: it breaks the streak, or the next is due a sample time later, or it was the
      last that was wanted. */
  lemma NextConfirming(s: Seen, n: nat, due: uint32, read: Sample)
    requires Confirming(s, n, due) && n < s.sampleCount && read.time == due && read.confirming
    ensures var s' := s.(hist := s.hist + [read]);
      && Streak(s'.hist) == (if read.matched then n + 1 else 0)
      && (read.matched ==> Confirming(s', n + 1, Wrap(due + s.sampleTime)))
      && (read.matched && n + 1 == s.sampleCount ==> Confirmed(s'))
  {
    hide Streak, Spaced, Wrap;
    var s' := s.(hist := s.hist + [read]);
    StreakGrows(s.hist, read);
    SpacedGrows(s.hist, n, s.first, s.sampleTime, read);
    NextRead(s.first, n, s.sampleTime);
    if read.matched && n + 1 == s.sampleCount {
      FirstOf(s'.hist, s.sampleCount, s.first, s.sampleTime, s.restTime);
    }
  }

  lemma FirstDue(s: Seen, due: uint32)
    requires Streak(s.hist) == 0 && s.first == due && s.nextwake == Wrap(due + s.restTime)
    ensures Confirming(s, 0, due)
  {
  }

  lemma FirstOf(hist: seq<Sample>, n: nat, first: uint32, step: uint32, rest: uint32)
    requires Spaced(hist, n, first, step) && n > 0
    ensures |hist| >= n && hist[|hist| - n].time == first == Wrap(Wrap(first + rest) - rest)
  {
    WrapAdd(first + rest, 0 - rest);
    assert hist[|hist| - n + 0].time == Wrap(first + 0 * step);
  }

  lemma NextRead(first: uint32, n: nat, step: uint32)
    ensures Wrap(Wrap(first + n * step) + step) == Wrap(first + (n + 1) * step)
  {
    WrapAdd(first + n * step, step);
    assert (n + 1) * step == n * step + step;
  }
}
