/** klippy/chelper/kin_shaper.c: input shaping replaces a position by a weighted sum of positions at
    shifted times, such that motion at constant speed is not changed. */
module Shaper {
  import opened Moves

  const MAX_PULSES := 5

  datatype Pulse = Pulse(t: real, a: real)

  datatype Axis = X | Y | Z

  function Along(axis: Axis, c: Coord): real { if axis == X then c.x else if axis == Y then c.y else c.z }

  function Total(a: seq<real>): real { if |a| == 0 then 0.0 else Total(a[..|a| - 1]) + a[|a| - 1] }

  function Weight(p: seq<Pulse>): real { if |p| == 0 then 0.0 else Weight(p[..|p| - 1]) + p[|p| - 1].a }

  function Moment(p: seq<Pulse>): real { if |p| == 0 then 0.0 else Moment(p[..|p| - 1]) + Times(p[|p| - 1].a, p[|p| - 1].t) }

  lemma {:induction false} WeightFront(p: seq<Pulse>, x: Pulse)
    ensures Weight([x] + p) == x.a + Weight(p)
  {
    if |p| == 0 {
      assert ([x] + p)[..0] == [];
    } else {
      assert ([x] + p)[..|p|] == [x] + p[..|p| - 1];
      WeightFront(p[..|p| - 1], x);
    }
  }

  /** The same pulses, all moved by -d. */
  function Moved(p: seq<Pulse>, d: real): seq<Pulse> {
    if |p| == 0 then [] else Moved(p[..|p| - 1], d) + [Pulse(p[|p| - 1].t - d, p[|p| - 1].a)]
  }

  lemma {:induction false} MovedSums(p: seq<Pulse>, d: real)
    ensures |Moved(p, d)| == |p| && Weight(Moved(p, d)) == Weight(p)
    ensures Moment(Moved(p, d)) == Moment(p) - Times(d, Weight(p))
  {
    hide Times;
    TimesConst(d);
    if |p| > 0 {
      var n := |p| - 1;
      MovedSums(p[..n], d);
      var q, w, a, t := Moved(p, d), Weight(p[..n]), p[n].a, p[n].t;
      assert q[..n] == Moved(p[..n], d) && q[n] == Pulse(t - d, a);
      TimesSub(a, t, d);
      TimesAdd(d, w, a);
      TimesComm(a, d);
    }
  }

  /** The pulses in reverse order, with their times negated and their weights scaled. */
  function Reversed(a: seq<real>, t: seq<real>, k: real): seq<Pulse>
    requires |a| == |t|
  {
    if |a| == 0 then []
    else [Pulse(-t[|a| - 1], Times(a[|a| - 1], k))] + Reversed(a[..|a| - 1], t[..|a| - 1], k)
  }

  class Pulses {
    var pulses: seq<Pulse>

    constructor ()
      ensures pulses == []
    {
      pulses := [];
    }

    /** shift_pulses: for weights that add up to one, the pulses get zero mean. */
    method ShiftPulses()
      modifies this
      ensures |pulses| == |old(pulses)| && Weight(pulses) == Weight(old(pulses))
      ensures Weight(old(pulses)) == 1.0 ==> Moment(pulses) == 0.0
      ensures pulses == Moved(old(pulses), Moment(old(pulses)))
    {
      hide Times;
      var ts := 0.0;
      for i := 0 to |pulses|
        invariant ts == Moment(pulses[..i]) && pulses == old(pulses)
      {
        assert pulses[..i + 1][..i] == pulses[..i];
        ts := ts + Times(pulses[i].a, pulses[i].t);
      }
      assert pulses[..|pulses|] == pulses;
      MovedSums(pulses, ts);
      TimesConst(ts);
      var out := [];
      for i := 0 to |pulses|
        invariant out == Moved(pulses[..i], ts) && pulses == old(pulses)
      {
        assert pulses[..i + 1][..i] == pulses[..i];
        out := out + [Pulse(pulses[i].t - ts, pulses[i].a)];
      }
      pulses := out;
    }

    /** init_shaper: the weights are scaled to add up to one and the pulses reversed and centred; too
        many pulses are refused. */
    method Init(a: seq<real>, t: seq<real>) returns (ret: int)
      requires |a| == |t|
      modifies this
      ensures |a| > MAX_PULSES ==> ret == -1 && pulses == []
      ensures |a| <= MAX_PULSES ==> ret == 0 && |pulses| == |a|
      ensures 0 < |a| <= MAX_PULSES && Total(a) != 0.0 ==> Weight(pulses) == 1.0 && Moment(pulses) == 0.0
      ensures 0 < |a| <= MAX_PULSES && Total(a) != 0.0 ==>
        var p := Reversed(a, t, Inverse(Total(a)));
        pulses == Moved(p, Moment(p))
    {
      hide Times, Total, Weight, Moment, Moved, Reversed;
      if |a| > MAX_PULSES {
        pulses := [];
        return -1;
      }
      var sum := Sum(a);
      pulses := [];
      if |a| > 0 {
        var inv: real := *; // what a division by zero gives
        if sum != 0.0 {
          inv := Inverse(sum);
        }
        Reverse(a, t, inv);
      }
      ShiftPulses();
      ret := 0;
    }

    method Sum(a: seq<real>) returns (sum: real)
      ensures sum == Total(a)
    {
      sum := 0.0;
      for i := 0 to |a|
        invariant sum == Total(a[..i])
      {
        assert a[..i + 1][..i] == a[..i];
        sum := sum + a[i];
      }
      assert a[..|a|] == a;
    }

    /** Pulses are added at the front, so that they end up in reverse order. */
    method Reverse(a: seq<real>, t: seq<real>, inv: real)
      requires |a| == |t| && pulses == []
      modifies this
      ensures |pulses| == |a| && Weight(pulses) == Times(Total(a), inv) && pulses == Reversed(a, t, inv)
    {
      hide Times, Weight;
      TimesConst(inv);
      NoWeight();
      for i := 0 to |a|
        invariant |pulses| == i && Weight(pulses) == Times(Total(a[..i]), inv) && pulses == Reversed(a[..i], t[..i], inv)
      {
        assert a[..i + 1][..i] == a[..i] && t[..i + 1][..i] == t[..i];
        WeightFront(pulses, Pulse(-t[i], Times(a[i], inv)));
        TimesAdd(inv, Total(a[..i]), a[i]);
        pulses := [Pulse(-t[i], Times(a[i], inv))] + pulses;
      }
      assert a[..|a|] == a && t[..|t|] == t;
    }
  }

  lemma NoWeight()
    ensures Weight([]) == 0.0
  {
  }

  function Inverse(x: real): (y: real)
    requires x != 0.0
    ensures Times(x, y) == 1.0
  {
    1.0 / x
  }

  // ------------------------------------------------------------------ positions

  /** get_axis_position. */
  function AxisPosition(m: Move, axis: Axis, t: real): real {
    Along(axis, m.startPos) + Along(axis, m.axesR) * Distance(m, t)
  }

  /** The list reaches over the time. */
  predicate Reaches(moves: seq<Move>, time: real) {
    |moves| > 0 && moves[0].printTime <= time <= End(moves[|moves| - 1])
  }

  /** get_axis_position_across_moves: the position at a time relative to the start of move j. */
  method AcrossMoves(moves: seq<Move>, j: nat, axis: Axis, time: real) returns (p: real, ghost k: nat, ghost at: real)
    requires GapFree(moves) && j < |moves| && Reaches(moves, moves[j].printTime + time)
    ensures k < |moves| && 0.0 <= at <= moves[k].moveT && moves[k].printTime + at == moves[j].printTime + time
    ensures p == AxisPosition(moves[k], axis, at)
  {
    var i: nat, t := j, time;
    while t < 0.0
      invariant i < |moves| && moves[i].printTime + t == moves[j].printTime + time
      decreases i
    {
      assert i > 0;
      i := i - 1;
      assert End(moves[i]) == moves[i + 1].printTime;
      t := t + moves[i].moveT;
    }
    while t > moves[i].moveT
      invariant i < |moves| && 0.0 <= t && moves[i].printTime + t == moves[j].printTime + time
      decreases |moves| - i
    {
      assert End(moves[i]) == moves[i + 1].printTime;
      t := t - moves[i].moveT;
      i := i + 1;
    }
    k, at := i, t;
    p := AxisPosition(moves[i], axis, t);
  }

  /** A move of a motion at constant speed: it starts on the line and keeps to it. */
  predicate OnLine(m: Move, axis: Axis, p0: real, v: real) {
    && Along(axis, m.startPos) == p0 + Times(v, m.printTime)
    && Along(axis, m.axesR) * m.startV == v && Along(axis, m.axesR) * m.halfAccel == 0.0
  }

  /** The current move and all moves that a shifted time falls into are on the line. */
  predicate Steady(moves: seq<Move>, j: nat, axis: Axis, p: seq<Pulse>, time: real, p0: real, v: real)
    requires j < |moves|
  {
    && OnLine(moves[j], axis, p0, v)
    && forall i, q :: 0 <= i < |moves| && 0 <= q < |p| && moves[i].printTime <= time + p[q].t <= End(moves[i]) ==>
         OnLine(moves[i], axis, p0, v)
  }

  lemma OnLineAt(m: Move, axis: Axis, p0: real, v: real, t: real)
    requires OnLine(m, axis, p0, v)
    ensures AxisPosition(m, axis, t) == p0 + Times(v, m.printTime + t)
  {
    var r := Along(axis, m.axesR);
    assert r * ((m.startV + m.halfAccel * t) * t) == (r * m.startV) * t + (r * m.halfAccel) * t * t;
  }

  /** All shifted times are inside the list. */
  predicate AllReached(moves: seq<Move>, p: seq<Pulse>, time: real) {
    forall i :: 0 <= i < |p| ==> Reaches(moves, time + p[i].t)
  }

  /** The axis is at x at a time, in some move that has it. */
  ghost predicate IsAt(moves: seq<Move>, axis: Axis, time: real, x: real) {
    exists k :: 0 <= k < |moves| && moves[k].printTime <= time <= End(moves[k]) && x == AxisPosition(moves[k], axis, time - moves[k].printTime)
  }

  /** The weighted sum of some positions. */
  function Shaped(p: seq<Pulse>, xs: seq<real>): real
    requires |xs| == |p|
  {
    if |p| == 0 then 0.0 else Shaped(p[..|p| - 1], xs[..|p| - 1]) + Times(p[|p| - 1].a, xs[|p| - 1])
  }

  /** calc_position: the shaped position is the weighted sum of the positions at the shifted times, whatever the
      moves.  At constant speed that is the position itself. */
  method CalcPosition(moves: seq<Move>, j: nat, axis: Axis, moveTime: real, p: seq<Pulse>, ghost p0: real, ghost v: real)
    returns (res: real, ghost xs: seq<real>)
    requires GapFree(moves) && j < |moves| && AllReached(moves, p, moves[j].printTime + moveTime)
    ensures |xs| == |p| && res == Shaped(p, xs)
    ensures forall i :: 0 <= i < |p| ==> IsAt(moves, axis, moves[j].printTime + moveTime + p[i].t, xs[i])
    ensures Steady(moves, j, axis, p, moves[j].printTime + moveTime, p0, v) && Weight(p) == 1.0 && Moment(p) == 0.0 ==>
      res == AxisPosition(moves[j], axis, moveTime)
  {
    hide Times, AxisPosition, OnLine, IsAt;
    res, xs := 0.0, [];
    ghost var now := moves[j].printTime + moveTime;
    ghost var steady := Steady(moves, j, axis, p, now, p0, v);
    ghost var c := p0 + Times(v, now);
    TimesConst(c);
    TimesConst(v);
    for i := 0 to |p|
      invariant |xs| == i && res == Shaped(p[..i], xs)
      invariant forall q :: 0 <= q < i ==> IsAt(moves, axis, now + p[q].t, xs[q])
      invariant steady ==> res == Times(c, Weight(p[..i])) + Times(v, Moment(p[..i]))
    {
      assert Reaches(moves, now + p[i].t);
      var x, k, at := AcrossMoves(moves, j, axis, moveTime + p[i].t);
      assert p[..i + 1][..i] == p[..i];
      if steady {
        assert moves[k].printTime <= now + p[i].t <= End(moves[k]);
        OnLineAt(moves[k], axis, p0, v, at);
        TimesAdd(v, now, p[i].t);
        AddPulse(c, v, p[i].a, p[i].t, Weight(p[..i]), Moment(p[..i]));
      }
      assert (xs + [x])[..i] == xs;
      AtIs(moves, k, axis, now + p[i].t, at, x);
      xs := xs + [x];
      res := res + Times(p[i].a, x);
    }
    assert p[..|p|] == p;
    if steady {
      OnLineAt(moves[j], axis, p0, v, moveTime);
    }
  }

  lemma AtIs(moves: seq<Move>, k: nat, axis: Axis, time: real, at: real, x: real)
    requires k < |moves| && 0.0 <= at <= moves[k].moveT && moves[k].printTime + at == time && x == AxisPosition(moves[k], axis, at)
    ensures IsAt(moves, axis, time, x)
  {
    assert time - moves[k].printTime == at;
  }

  lemma AddPulse(c: real, v: real, a: real, t: real, w: real, m: real)
    ensures Times(c, w) + Times(v, m) + Times(a, c + Times(v, t)) == Times(c, w + a) + Times(v, m + Times(a, t))
  {
    hide Times;
    TimesAdd(a, c, Times(v, t));
    TimesAdd(c, w, a);
    TimesAdd(v, m, Times(a, t));
    TimesComm(a, c);
    TimesAssoc(a, v, t);
    TimesAssoc(v, a, t);
    TimesComm(a, v);
  }
}
