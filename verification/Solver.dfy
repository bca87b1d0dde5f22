/** klippy/chelper/itersolve.c, itersolve_gen_steps_range: finds the times at which a stepper crosses
    its half-step positions, for any position function. */
module Solver {
  import opened Moves

  const SEEK_TIME_RESET := 0.000100
  const CLOSE := 0.000000001
  const SLACK := 0.000000010

  /** A submitted step; `target` is the half-step position it stands for. */
  datatype Step = Step(dir: bool, time: real, target: real)

  datatype Guess = Guess(time: real, position: real)

  datatype Outcome = Done | Failed(code: int) | Unfinished

  /** The local variables of the search. */
  datatype Seek = Seek(sdir: bool, target: real, last: real, low: real, high: real,
                       dirChange: bool, bracket: bool, oscillate: bool, guess: Guess, oldGuess: Guess)

  function Half(dir: bool, stepDist: real): real { if dir then 0.5 * stepDist else -0.5 * stepDist }

  function Signed(dir: bool, d: real): real { if dir then d else -d }

  predicate Past(dir: bool, target: real, p: real) { if dir then p > target else p < target }

  /** The signed distance the steps travel. */
  function Travel(stepDist: real, steps: seq<Step>): real {
    if |steps| == 0 then 0.0 else Travel(stepDist, steps[..|steps| - 1]) + Signed(steps[|steps| - 1].dir, stepDist)
  }

  function Net(steps: seq<Step>): int {
    if |steps| == 0 then 0 else Net(steps[..|steps| - 1]) + if steps[|steps| - 1].dir then 1 else -1
  }

  lemma {:induction false} TravelIsNet(stepDist: real, steps: seq<Step>)
    ensures Travel(stepDist, steps) == stepDist * Net(steps) as real
  {
    if |steps| > 0 {
      TravelIsNet(stepDist, steps[..|steps| - 1]);
      var n := Net(steps[..|steps| - 1]) as real;
      assert stepDist * (n + 1.0) == stepDist * n + stepDist;
      assert stepDist * (n - 1.0) == stepDist * n - stepDist;
    }
  }

  /** The position is at the target, or passes it within a nanosecond, before the end of the range. */
  ghost predicate Justified(pos: real -> real, s: Step, end: real) {
    || -CLOSE <= pos(s.time) - s.target <= CLOSE
    || exists t: real :: s.time <= t <= s.time + CLOSE && t <= end && Past(s.dir, s.target, pos(t))
  }

  /** The targets are the half-step positions between successive commanded positions. */
  predicate OnGrid(stepDist: real, from: real, steps: seq<Step>) {
    |steps| == 0 ||
    var before, s := steps[..|steps| - 1], steps[|steps| - 1];
    OnGrid(stepDist, from, before) && s.target == from + Travel(stepDist, before) + Half(s.dir, stepDist)
  }

  predicate Timed(steps: seq<Step>, start: real, end: real) {
    && (forall i :: 0 <= i < |steps| ==> start <= steps[i].time <= end)
    && (forall i, j :: 0 <= i < j < |steps| ==> steps[i].time <= steps[j].time)
  }

  /** Everything that is promised of the steps submitted for one range. */
  ghost predicate StepsOk(pos: real -> real, stepDist: real, from: real, steps: seq<Step>, start: real, end: real) {
    var grid, timed := OnGrid(stepDist, from, steps), Timed(steps, start, end);
    grid && timed && forall i :: 0 <= i < |steps| ==> Justified(pos, steps[i], end)
  }

  /** The stepper follows: it is within half a step (and a margin) of where it should be. */
  predicate Follows(stepDist: real, at: real, p: real) {
    -(0.5 * stepDist + SLACK) <= p - at <= 0.5 * stepDist + SLACK
  }

  /** The last step was at the very end, and the position is ahead of it by more than half a step. */
  predicate Outrun(stepDist: real, at: real, p: real, steps: seq<Step>, end: real) {
    && |steps| > 0 && steps[|steps| - 1].time == end
    && Signed(steps[|steps| - 1].dir, p - at) > 0.5 * stepDist + SLACK
  }

  /** A last step at the very end is not ahead of the position. */
  lemma LastStep(pos: real -> real, stepDist: real, from: real, steps: seq<Step>, start: real, end: real)
    requires StepsOk(pos, stepDist, from, steps, start, end) && |steps| > 0 && steps[|steps| - 1].time == end
    ensures var at := from + Travel(stepDist, steps);
      Follows(stepDist, at, pos(end)) || Outrun(stepDist, at, pos(end), steps, end)
  {
    var s, at := steps[|steps| - 1], from + Travel(stepDist, steps);
    assert at == s.target + Half(s.dir, stepDist);
    assert Justified(pos, s, end);
  }

  // ------------------------------------------------------------------ the search

  /** The bounds of the search; a bracket's upper end lies past the target. */
  ghost predicate Bounded(pos: real -> real, start: real, end: real, s: Seek) {
    && start <= s.last <= s.low <= s.high <= end
    && (s.bracket ==> Past(s.sdir, s.target, pos(s.high)))
  }

  /** A guess that was not submitted and did not bracket the step lies short of the target. */
  ghost predicate Short(pos: real -> real, stepDist: real, start: real, s: Seek) {
    s.guess.time > start && !s.bracket && s.guess.time != s.last ==>
      && s.guess.position == pos(s.guess.time)
      && -(stepDist + SLACK) <= Signed(s.sdir, s.guess.position - s.target) <= 0.0
  }

  ghost predicate SeekOk(pos: real -> real, stepDist: real, start: real, end: real, at: real, s: Seek) {
    && s.target == at + Half(s.sdir, stepDist)
    && (start <= end ==> Bounded(pos, start, end, s) && s.guess.time <= end)
    && (start > end ==> s.low == start == s.guess.time && s.high == end && !s.bracket)
    && Short(pos, stepDist, start, s)
  }

  /** The next time to look at, or nothing if there are no more steps in the range. */
  method NextTime(s: Seek, end: real) returns (stop: bool, nextTime: real, s': Seek)
    ensures stop ==> !s.bracket && s.guess.time >= end
    ensures !stop ==> s' == s.(high := s'.high, oscillate := s'.oscillate)
    ensures !stop && s.last <= s.low <= s.high <= end ==> s.low <= nextTime <= s'.high <= end && s.high <= s'.high
    ensures !stop && s.bracket ==> s'.high == s.high
    ensures s.low == s.guess.time && s.high <= end <= s.low && !s.bracket ==> stop
  {
    var guessDist, ogDist := s.guess.position - s.target, s.oldGuess.position - s.target;
    stop, s', nextTime := false, s, 0.0;
    var inside := false;
    if guessDist - ogDist != 0.0 { // a zero divisor gives no usable guess
      nextTime := (s.oldGuess.time * guessDist - s.guess.time * ogDist) / (guessDist - ogDist);
      inside := s.low < nextTime < s.high;
    }
    if !inside {
      if s.bracket {
        nextTime := (s.low + s.high) * 0.5;
        s' := s.(oscillate := false);
      } else if s.guess.time >= end {
        stop := true;
      } else {
        nextTime := s.high;
        var high := 2.0 * s.high - s.last;
        s' := s.(high := if high > end then end else high);
      }
    }
  }

  /** Narrows the bounds around a guess that is not close to the target. */
  method Narrow(s: Seek, stepDist: real) returns (s': Seek)
    ensures s'.guess == s.guess && s'.last == s.last
    ensures var rel := Signed(s.sdir, s.guess.position - s.target);
      if rel > 0.0 then
        s' == s.(high := s.guess.time, bracket := true, oscillate := s'.oscillate, oldGuess := s'.oldGuess)
      else if rel < -(stepDist + SLACK) then
        s' == s.(sdir := !s.sdir, target := s.target + Signed(!s.sdir, stepDist), low := s.last,
                 high := s.guess.time, dirChange := true, bracket := true, oscillate := false)
      else s' == s.(low := s.guess.time)
  {
    var halfStep := 0.5 * stepDist;
    var guessDist := s.guess.position - s.target;
    var relDist := if s.sdir then guessDist else -guessDist;
    if relDist > 0.0 {
      s' := s;
      if s.bracket && s.oldGuess.time <= s.low {
        if s.oscillate {
          s' := s'.(oldGuess := s.guess); // forces a bisection next
        }
        s' := s'.(oscillate := true);
      }
      s' := s'.(high := s.guess.time, bracket := true);
    } else if relDist < -(halfStep + halfStep + SLACK) {
      var sdir := !s.sdir;
      var target := if sdir then s.target + halfStep + halfStep else s.target - halfStep - halfStep;
      s' := s.(sdir := sdir, target := target, low := s.last, high := s.guess.time,
               dirChange := true, bracket := true, oscillate := false);
    } else {
      s' := s.(low := s.guess.time);
    }
  }

  /** Bounds for the search after a step was submitted. */
  method Reset(s: Seek, stepDist: real, end: real) returns (s': Seek)
    requires s.last <= s.guess.time <= end
    ensures s'.sdir == s.sdir && s'.target == s.target + Signed(s.sdir, stepDist) && s'.guess == s.guess
    ensures s'.last == s'.low == s.guess.time <= s'.high <= end && !s'.bracket
  {
    var halfStep := 0.5 * stepDist;
    var delta := 1.5 * (s.guess.time - s.last);
    if delta < CLOSE {
      delta := CLOSE;
    }
    if s.dirChange && delta > SEEK_TIME_RESET {
      delta := SEEK_TIME_RESET;
    }
    var high := s.guess.time + delta;
    s' := s.(target := if s.sdir then s.target + halfStep + halfStep else s.target - halfStep - halfStep,
             last := s.guess.time, low := s.guess.time, high := if high > end then end else high,
             dirChange := false, bracket := false, oscillate := false);
  }

  lemma StepsAppend(pos: real -> real, stepDist: real, from: real, steps: seq<Step>, start: real, end: real, last: real, s: Step)
    requires StepsOk(pos, stepDist, from, steps, start, end) && Justified(pos, s, end) && start <= s.time <= end
    requires |steps| > 0 ==> steps[|steps| - 1].time <= last
    requires last <= s.time && s.target == from + Travel(stepDist, steps) + Half(s.dir, stepDist)
    ensures StepsOk(pos, stepDist, from, steps + [s], start, end)
    ensures Travel(stepDist, steps + [s]) == Travel(stepDist, steps) + Signed(s.dir, stepDist)
  {
    var all := steps + [s];
    assert all[..|steps|] == steps;
    forall i, j | 0 <= i < j < |all| ensures all[i].time <= all[j].time {
      if j == |steps| {
        assert steps[i].time <= steps[|steps| - 1].time;
      }
    }
  }

  /** What one turn of the search does to its variables, up to the decision that the step is found. */
  method Look(pos: real -> real, s: Seek, stepDist: real, ghost start: real, end: real, ghost at: real)
    returns (stop: bool, found: bool, s': Seek)
    requires SeekOk(pos, stepDist, start, end, at, s)
    ensures stop ==> s' == s && !s.bracket && s.guess.time >= end
    ensures start > end ==> stop
    ensures !stop && !found ==> SeekOk(pos, stepDist, start, end, at, s') && s'.last == s.last
    ensures !stop && found ==>
      && s'.target == at + Half(s'.sdir, stepDist) && start <= s'.last == s.last <= s'.guess.time <= end
      && Justified(pos, Step(s'.sdir, s'.guess.time, s'.target), end)
  {
    var next, s1;
    stop, next, s1 := NextTime(s, end);
    if stop {
      return true, false, s;
    }
    s' := s1.(oldGuess := s1.guess, guess := Guess(next, pos(next)));
    if -CLOSE <= s'.guess.position - s'.target <= CLOSE {
      return false, true, s';
    }
    s' := Narrow(s', stepDist);
    found := s'.bracket && s'.high - s'.low <= CLOSE;
    if found {
      assert Past(s'.sdir, s'.target, pos(s'.high));
    }
  }

  /** When the search stops, the stepper is where the position function is at the end of the range, or its last
      step was at that very time. */
  lemma EndFollows(pos: real -> real, stepDist: real, start: real, end: real, at: real, s: Seek)
    requires SeekOk(pos, stepDist, start, end, at, s) && !s.bracket && s.guess.time >= end
    ensures at == s.target - Half(s.sdir, stepDist)
    ensures start < end ==> s.last == end || Follows(stepDist, at, pos(end))
  {
  }

  /** The search and the steps it has found so far, from commanded position `from`. */
  ghost predicate Searching(pos: real -> real, stepDist: real, start: real, end: real, from: real, s: Seek, mine: seq<Step>) {
    && var seek, found :=
         SeekOk(pos, stepDist, start, end, from + Travel(stepDist, mine), s), StepsOk(pos, stepDist, from, mine, start, end);
    && seek && found
    && (if |mine| > 0 then mine[|mine| - 1].time == s.last else s.last == start)
    && (start > end ==> mine == [])
  }

  lemma ResetOk(pos: real -> real, stepDist: real, start: real, end: real, at: real, s: Seek)
    requires s.target == at + Half(s.sdir, stepDist)
    requires start <= s.last == s.low == s.guess.time <= s.high <= end && !s.bracket
    ensures SeekOk(pos, stepDist, start, end, at, s)
  {
  }

  lemma Submitted(pos: real -> real, stepDist: real, start: real, end: real, from: real, last: real,
                  mine: seq<Step>, step: Step, s: Seek)
    requires StepsOk(pos, stepDist, from, mine, start, end) && Justified(pos, step, end)
    requires step.target == from + Travel(stepDist, mine) + Half(step.dir, stepDist)
    requires |mine| > 0 ==> mine[|mine| - 1].time == last
    requires start <= last <= step.time <= end
    requires s.sdir == step.dir && s.target == step.target + Signed(step.dir, stepDist)
    requires s.last == s.low == step.time == s.guess.time <= s.high <= end && !s.bracket
    ensures Searching(pos, stepDist, start, end, from, s, mine + [step])
  {
    StepsAppend(pos, stepDist, from, mine, start, end, last, step);
    ResetOk(pos, stepDist, start, end, from + Travel(stepDist, mine + [step]), s);
    assert (mine + [step])[|mine|] == step;
  }

  lemma SearchStarts(pos: real -> real, stepDist: real, start: real, end: real, at: real, s: Seek)
    requires s.target == at + Half(s.sdir, stepDist) && s.last == s.low == s.guess.time == start && !s.bracket
    requires s.high == Min(end, start + SEEK_TIME_RESET)
    ensures Searching(pos, stepDist, start, end, at, s, [])
  {
  }

  // ------------------------------------------------------------------ itersolve_gen_steps_range

  class StepGenerator {
    const stepDist: real
    var commandedPos: real
    var steps: seq<Step> // what stepcompress was given

    constructor (stepDist: real, commandedPos: real)
      ensures this.stepDist == stepDist && this.commandedPos == commandedPos && steps == []
    {
      this.stepDist, this.commandedPos, steps := stepDist, commandedPos, [];
    }

    /** stepcompress_append takes the step or reports an error. */
    method Append(s: Step) returns (ret: int)
      modifies this`steps
      ensures steps == if ret == 0 then old(steps) + [s] else old(steps)
    {
      ret := *;
      if ret == 0 {
        steps := steps + [s];
      }
    }

    static method Range(m: Move, absStart: real, absEnd: real) returns (start: real, end: real)
      ensures start == Max(absStart, m.printTime) - m.printTime && end == Min(absEnd, End(m)) - m.printTime
    {
      start, end := absStart - m.printTime, absEnd - m.printTime;
      if start < 0.0 {
        start := 0.0;
      }
      if end > m.moveT {
        end := m.moveT;
      }
    }

    /** One turn of the search: it ends, goes on, or submits a step. */
    method Turn(pos: real -> real, ghost start: real, end: real, s: Seek, ghost mine: seq<Step>, ghost base: seq<Step>)
      returns (stop: bool, ret: int, s': Seek, ghost mine': seq<Step>)
      requires Searching(pos, stepDist, start, end, commandedPos, s, mine) && steps == base + mine
      modifies this`steps
      ensures steps == base + mine'
      ensures stop ==> s' == s && mine' == mine && !s.bracket && s.guess.time >= end
      ensures ret == 0 ==> Searching(pos, stepDist, start, end, commandedPos, s', mine')
      ensures ret != 0 ==> mine' == mine
    {
      ret, mine' := 0, mine;
      var found;
      stop, found, s' := Look(pos, s, stepDist, start, end, commandedPos + Travel(stepDist, mine));
      if !stop && found {
        var step := Step(s'.sdir, s'.guess.time, s'.target);
        ret := Append(step);
        if ret == 0 {
          s' := Reset(s', stepDist, end);
          mine' := mine + [step];
          Submitted(pos, stepDist, start, end, commandedPos, s.last, mine, step, s');
        }
      }
    }

    /** The steps of one stretch of a move.  `sdir` is the direction stepcompress last stepped in;
        `fuel` bounds the turns of the search. */
    method GenStepsRange(m: Move, absStart: real, absEnd: real, pos: real -> real, sdir: bool, fuel: nat)
      returns (out: Outcome, ghost mine: seq<Step>)
      modifies this
      ensures steps == old(steps) + mine
      ensures StepsOk(pos, stepDist, old(commandedPos), mine,
                      Max(absStart, m.printTime) - m.printTime, Min(absEnd, End(m)) - m.printTime)
      ensures Max(absStart, m.printTime) > Min(absEnd, End(m)) ==> mine == []
      ensures out.Done? ==> commandedPos == old(commandedPos) + Travel(stepDist, mine)
      ensures !out.Done? ==> commandedPos == old(commandedPos)
      ensures out.Done? && Max(absStart, m.printTime) < Min(absEnd, End(m)) ==>
        var end := Min(absEnd, End(m)) - m.printTime;
        Follows(stepDist, commandedPos, pos(end)) || Outrun(stepDist, commandedPos, pos(end), mine, end)
    {
      hide Justified, Follows, Outrun, OnGrid, Timed, SeekOk;
      var start, end := Range(m, absStart, absEnd);
      mine := [];
      var high := start + SEEK_TIME_RESET;
      var guess := Guess(start, commandedPos);
      var s := Seek(sdir, commandedPos + Half(sdir, stepDist), start, start, if high > end then end else high,
                    false, false, false, guess, guess);
      SearchStarts(pos, stepDist, start, end, commandedPos, s);
      var left := fuel;
      out := Unfinished;
      while left > 0
        invariant commandedPos == old(commandedPos) && steps == old(steps) + mine
        invariant Searching(pos, stepDist, start, end, commandedPos, s, mine)
      {
        left := left - 1;
        var stop, ret;
        stop, ret, s, mine := Turn(pos, start, end, s, mine, old(steps));
        if ret != 0 {
          return Failed(ret), mine;
        }
        if stop {
          EndFollows(pos, stepDist, start, end, commandedPos + Travel(stepDist, mine), s);
          if |mine| > 0 && mine[|mine| - 1].time == end {
            LastStep(pos, stepDist, commandedPos, mine, start, end);
          }
          commandedPos := s.target - Half(s.sdir, stepDist);
          return Done, mine;
        }
      }
    }
  }
}
