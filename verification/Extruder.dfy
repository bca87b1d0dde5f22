/** klippy/chelper/kin_extruder.c: the extruder position with pressure advance, smoothed by a weighted
    average over a window around the current time. */
module Extruder {
  import opened Moves

  // ------------------------------------------------------------------ the integrals

  /** extruder_integrate. */
  function Integrate(base: real, startV: real, halfAccel: real, start: real, end: real): real {
    var halfV, sixthA := 0.5 * startV, (1.0 / 3.0) * halfAccel;
    var si := start * (base + start * (halfV + start * sixthA));
    var ei := end * (base + end * (halfV + end * sixthA));
    ei - si
  }

  /** extruder_integrate_time. */
  function IntegrateTime(base: real, startV: real, halfAccel: real, start: real, end: real): real {
    var halfB, thirdV, eighthA := 0.5 * base, (1.0 / 3.0) * startV, 0.25 * halfAccel;
    var si := start * start * (halfB + start * (thirdV + start * eighthA));
    var ei := end * end * (halfB + end * (thirdV + end * eighthA));
    ei - si
  }

  /** base + t * (startV + t * halfAccel). */
  function Position(base: real, startV: real, halfAccel: real, t: real): real { base + t * (startV + t * halfAccel) }

  /** Simpson's rule, which is exact for polynomials up to the third degree. */
  function Simpson(lo: real, hi: real, first: real, middle: real, last: real): real {
    (hi - lo) * (first + 4.0 * middle + last) / 6.0
  }

  /** extruder_integrate is the definite integral of the position, with any acceleration. */
  lemma IntegrateIs(base: real, v: real, a: real, lo: real, hi: real)
    ensures Integrate(base, v, a, lo, hi)
         == Simpson(lo, hi, Position(base, v, a, lo), Position(base, v, a, (lo + hi) / 2.0), Position(base, v, a, hi))
  {
  }

  function Square(t: real): real { t * t }

  function Cube(t: real): real { t * t * t }

  /** The same for the powers of time. */
  lemma Powers(lo: real, hi: real)
    ensures var mid := (lo + hi) / 2.0;
      && 0.5 * hi * hi - 0.5 * lo * lo == Simpson(lo, hi, lo, mid, hi)
      && (1.0 / 3.0) * hi * hi * hi - (1.0 / 3.0) * lo * lo * lo == Simpson(lo, hi, Square(lo), Square(mid), Square(hi))
      && 0.25 * hi * hi * hi * hi - 0.25 * lo * lo * lo * lo == Simpson(lo, hi, Cube(lo), Cube(mid), Cube(hi))
  {
  }

  lemma SimpsonSum(lo: real, hi: real, b: real, v: real, a: real, x: (real, real, real), y: (real, real, real), z: (real, real, real))
    ensures Simpson(lo, hi, Times(b, x.0) + Times(v, y.0) + Times(a, z.0), Times(b, x.1) + Times(v, y.1) + Times(a, z.1),
                    Times(b, x.2) + Times(v, y.2) + Times(a, z.2))
         == Times(b, Simpson(lo, hi, x.0, x.1, x.2)) + Times(v, Simpson(lo, hi, y.0, y.1, y.2)) + Times(a, Simpson(lo, hi, z.0, z.1, z.2))
  {
  }

  lemma TimePosition(b: real, v: real, a: real, t: real)
    ensures Times(t, Position(b, v, a, t)) == Times(b, t) + Times(v, Square(t)) + Times(a, Cube(t))
  {
  }

  lemma TimeTerms(b: real, v: real, a: real, lo: real, hi: real)
    ensures var mid := (lo + hi) / 2.0;
      IntegrateTime(b, v, a, lo, hi) == Times(b, Simpson(lo, hi, lo, mid, hi))
      + Times(v, Simpson(lo, hi, Square(lo), Square(mid), Square(hi))) + Times(a, Simpson(lo, hi, Cube(lo), Cube(mid), Cube(hi)))
  {
    hide Simpson, Square, Cube;
    Powers(lo, hi);
  }

  /** extruder_integrate_time is that of the position times the time. */
  lemma IntegrateTimeIs(b: real, v: real, a: real, lo: real, hi: real)
    ensures var mid := (lo + hi) / 2.0;
      IntegrateTime(b, v, a, lo, hi) == Simpson(lo, hi, Times(lo, Position(b, v, a, lo)),
        Times(mid, Position(b, v, a, mid)), Times(hi, Position(b, v, a, hi)))
  {
    hide *;
    var mid := (lo + hi) / 2.0;
    TimePosition(b, v, a, lo);
    TimePosition(b, v, a, mid);
    TimePosition(b, v, a, hi);
    TimeTerms(b, v, a, lo, hi);
    SimpsonSum(lo, hi, b, v, a, (lo, mid, hi), (Square(lo), Square(mid), Square(hi)), (Cube(lo), Cube(mid), Cube(hi)));
  }

  /** An antiderivative of (f + v * u) * u. */
  function Anti(f: real, v: real, u: real): real { 0.5 * f * u * u + (1.0 / 3.0) * v * u * u * u }

  /** One end of the weighted integral of base + v * t with weight t - offset. */
  function Primitive(base: real, v: real, offset: real, x: real): real {
    x * x * (0.5 * base + x * ((1.0 / 3.0) * v)) - offset * (x * (base + x * (0.5 * v)))
  }

  function Constant(base: real, v: real, s: real): real { 0.5 * base * s * s + (1.0 / 6.0) * v * s * s * s }

  lemma PrimitiveIs(base: real, v: real, s: real, x: real)
    ensures Primitive(base, v, s, x) == Anti(base + Times(v, s), v, x - s) - Constant(base, v, s)
  {
  }

  /** Without acceleration, the weighted integral is a difference of antiderivatives. */
  lemma IntegralIs(base: real, v: real, lo: real, hi: real, offset: real)
    ensures IntegrateTime(base, v, 0.0, lo, hi) - Times(offset, Integrate(base, v, 0.0, lo, hi))
         == Anti(base + Times(v, offset), v, hi - offset) - Anti(base + Times(v, offset), v, lo - offset)
  {
    hide *;
    PrimitiveIs(base, v, offset, lo);
    PrimitiveIs(base, v, offset, hi);
    Weighted(base, v, lo, hi, offset);
  }

  lemma Weighted(base: real, v: real, lo: real, hi: real, offset: real)
    ensures IntegrateTime(base, v, 0.0, lo, hi) - Times(offset, Integrate(base, v, 0.0, lo, hi))
         == Primitive(base, v, offset, hi) - Primitive(base, v, offset, lo)
  {
  }

  // ------------------------------------------------------------------ moves

  /** pa_move_integrate. */
  function MoveIntegrate(m: Move, pressureAdvance: real, base: real, start: real, end: real, offset: real): real {
    var lo, hi := (if start < 0.0 then 0.0 else start), (if end > m.moveT then m.moveT else end);
    var pa := if m.axesR.y != 0.0 then pressureAdvance else 0.0;
    var b, v := base + Times(pa, m.startV), m.startV + Times(pa, 2.0 * m.halfAccel);
    IntegrateTime(b, v, m.halfAccel, lo, hi) - Times(offset, Integrate(b, v, m.halfAccel, lo, hi))
  }

  /** The position inside a move: base, distance, and the advance in proportion to the speed. */
  function AdvancedAt(m: Move, pressureAdvance: real, base: real, t: real): real {
    var pa := if m.axesR.y != 0.0 then pressureAdvance else 0.0;
    base + Distance(m, t) + pa * (m.startV + 2.0 * m.halfAccel * t)
  }

  /** pa_move_integrate is, with any acceleration, the integral of that position over the part of the move
      inside the window, weighted by the time from the offset on. */
  lemma MoveIntegral(m: Move, pa: real, base: real, start: real, end: real, offset: real)
    ensures var lo, hi := (if start < 0.0 then 0.0 else start), (if end > m.moveT then m.moveT else end);
      var mid := (lo + hi) / 2.0;
      MoveIntegrate(m, pa, base, start, end, offset) == Simpson(lo, hi, Times(lo - offset, AdvancedAt(m, pa, base, lo)),
        Times(mid - offset, AdvancedAt(m, pa, base, mid)), Times(hi - offset, AdvancedAt(m, pa, base, hi)))
  {
    hide Integrate, IntegrateTime, Times, Position, AdvancedAt, Simpson;
    var lo, hi := (if start < 0.0 then 0.0 else start), (if end > m.moveT then m.moveT else end);
    var mid, y := (lo + hi) / 2.0, if m.axesR.y != 0.0 then pa else 0.0;
    var b, v := base + Times(y, m.startV), m.startV + Times(y, 2.0 * m.halfAccel);
    IntegrateIs(b, v, m.halfAccel, lo, hi);
    IntegrateTimeIs(b, v, m.halfAccel, lo, hi);
    AdvancedIs(m, pa, base, lo);
    AdvancedIs(m, pa, base, mid);
    AdvancedIs(m, pa, base, hi);
    TimesSub(AdvancedAt(m, pa, base, lo), lo, offset);
    TimesSub(AdvancedAt(m, pa, base, mid), mid, offset);
    TimesSub(AdvancedAt(m, pa, base, hi), hi, offset);
    SimpsonLess(lo, hi, offset, AdvancedAt(m, pa, base, lo), AdvancedAt(m, pa, base, mid), AdvancedAt(m, pa, base, hi),
                Times(lo, AdvancedAt(m, pa, base, lo)), Times(mid, AdvancedAt(m, pa, base, mid)), Times(hi, AdvancedAt(m, pa, base, hi)));
  }

  lemma AdvancedIs(m: Move, pa: real, base: real, t: real)
    ensures var y := if m.axesR.y != 0.0 then pa else 0.0;
      AdvancedAt(m, pa, base, t) == Position(base + Times(y, m.startV), m.startV + Times(y, 2.0 * m.halfAccel), m.halfAccel, t)
  {
  }

  lemma SimpsonLess(lo: real, hi: real, s: real, x: real, y: real, z: real, x': real, y': real, z': real)
    ensures Simpson(lo, hi, x' - Times(s, x), y' - Times(s, y), z' - Times(s, z))
         == Simpson(lo, hi, x', y', z') - Times(s, Simpson(lo, hi, x, y, z))
  {
  }

  /** A move of extrusion at constant speed v that allows pressure advance. */
  predicate SteadyMove(m: Move, p0: real, v: real) {
    && m.startV == v && m.halfAccel == 0.0 && m.axesR.y != 0.0
    && m.startPos.x == p0 + Times(v, m.printTime)
  }

  /** All moves that reach into the time from lo to hi are such. */
  predicate Steady(moves: seq<Move>, lo: real, hi: real, p0: real, v: real) {
    forall i :: 0 <= i < |moves| && lo < End(moves[i]) && moves[i].printTime < hi ==> SteadyMove(moves[i], p0, v)
  }

  /** The position with pressure advance x after the start of the current move, from there. */
  function Advanced(v: real, pa: real, x: real): real { Times(v, x) + Times(pa, v) }

  /** The part of one steady move m, with `now` the current one: in terms of the distance from the end of the
      window. */
  lemma SteadyIntegral(m: Move, now: Move, p0: real, v: real, pa: real, start: real, end: real, offset: real)
    requires SteadyMove(m, p0, v) && SteadyMove(now, p0, v)
    ensures var lo, hi := (if start < 0.0 then 0.0 else start), (if end > m.moveT then m.moveT else end);
      var f := Advanced(v, pa, m.printTime - now.printTime + offset);
      MoveIntegrate(m, pa, m.startPos.x - now.startPos.x, start, end, offset) == Anti(f, v, hi - offset) - Anti(f, v, lo - offset)
  {
    hide Anti, Integrate, IntegrateTime, MoveIntegrate, Advanced, Times;
    var lo, hi := (if start < 0.0 then 0.0 else start), (if end > m.moveT then m.moveT else end);
    var base := m.startPos.x - now.startPos.x;
    Unaccelerated(m, pa, base, start, end, offset);
    IntegralIs(base + Times(pa, v), v, lo, hi, offset);
    Offset(m, now, p0, v, pa, offset);
  }

  lemma Unaccelerated(m: Move, pa: real, base: real, start: real, end: real, offset: real)
    requires m.halfAccel == 0.0 && m.axesR.y != 0.0
    ensures var lo, hi := (if start < 0.0 then 0.0 else start), (if end > m.moveT then m.moveT else end);
      MoveIntegrate(m, pa, base, start, end, offset) ==
      IntegrateTime(base + Times(pa, m.startV), m.startV, 0.0, lo, hi)
      - Times(offset, Integrate(base + Times(pa, m.startV), m.startV, 0.0, lo, hi))
  {
    hide Integrate, IntegrateTime, Times;
    TimesConst(pa);
  }

  lemma Offset(m: Move, now: Move, p0: real, v: real, pa: real, offset: real)
    requires SteadyMove(m, p0, v) && SteadyMove(now, p0, v)
    ensures m.startPos.x - now.startPos.x + Times(pa, v) + Times(v, offset)
         == Advanced(v, pa, m.printTime - now.printTime + offset)
  {
  }

  // ------------------------------------------------------------------ the window

  /** What the times from a to b contribute in move m: the integral of its position, relative to x0 and with
      pressure advance, weighted by the time from o on.  All times are print times. */
  function Piece(m: Move, x0: real, pa: real, a: real, b: real, o: real): real {
    var lo, hi := Max(m.printTime, a) - m.printTime, Min(End(m), b) - m.printTime;
    if lo < hi then Weighed(m, x0, pa, lo, hi, o - m.printTime) else 0.0
  }

  function Weighed(m: Move, x0: real, pa: real, lo: real, hi: real, offset: real): real {
    var mid, base := (lo + hi) / 2.0, m.startPos.x - x0;
    Simpson(lo, hi, Times(lo - offset, AdvancedAt(m, pa, base, lo)), Times(mid - offset, AdvancedAt(m, pa, base, mid)),
            Times(hi - offset, AdvancedAt(m, pa, base, hi)))
  }

  /** The same over all moves from index i up to k. */
  function Gathered(moves: seq<Move>, i: nat, k: nat, x0: real, pa: real, a: real, b: real, o: real): real
    requires k <= |moves|
    decreases k
  {
    if k <= i then 0.0 else Gathered(moves, i, k - 1, x0, pa, a, b, o) + Piece(moves[k - 1], x0, pa, a, b, o)
  }

  lemma {:induction false} GatheredFront(moves: seq<Move>, i: nat, k: nat, x0: real, pa: real, a: real, b: real, o: real)
    requires i < k <= |moves|
    ensures Gathered(moves, i, k, x0, pa, a, b, o) == Piece(moves[i], x0, pa, a, b, o) + Gathered(moves, i + 1, k, x0, pa, a, b, o)
    decreases k
  {
    hide Piece;
    if i + 1 < k {
      GatheredFront(moves, i, k - 1, x0, pa, a, b, o);
    }
  }

  /** Moves outside the time contribute nothing. */
  lemma {:induction false} GatheredFrom(moves: seq<Move>, i: nat, k: nat, x0: real, pa: real, a: real, b: real, o: real)
    requires GapFree(moves) && i <= k <= |moves| && i < |moves| && moves[i].printTime <= a
    ensures Gathered(moves, 0, k, x0, pa, a, b, o) == Gathered(moves, i, k, x0, pa, a, b, o)
    decreases i
  {
    if i > 0 {
      assert End(moves[i - 1]) == moves[i].printTime;
      GatheredFrom(moves, i - 1, k, x0, pa, a, b, o);
      GatheredFront(moves, i - 1, k, x0, pa, a, b, o);
    }
  }

  lemma {:induction false} GatheredUpTo(moves: seq<Move>, i: nat, k: nat, n: nat, x0: real, pa: real, a: real, b: real, o: real)
    requires GapFree(moves) && k < n <= |moves| && b <= End(moves[k])
    ensures Gathered(moves, i, n, x0, pa, a, b, o) == Gathered(moves, i, k + 1, x0, pa, a, b, o)
    decreases n
  {
    if k + 1 < n {
      StartsGrow(moves, k, n - 1);
      GatheredUpTo(moves, i, k, n - 1, x0, pa, a, b, o);
    }
  }

  /** The weights rise over half the window up to time t and fall over the other half. */
  function Windowed(moves: seq<Move>, x0: real, pa: real, t: real, h: real): real {
    Gathered(moves, 0, |moves|, x0, pa, t - h, t, t - h) - Gathered(moves, 0, |moves|, x0, pa, t, t + h, t + h)
  }

  /** pa_move_integrate as such a part. */
  lemma PieceIs(m: Move, x0: real, pa: real, a: real, b: real, o: real, start: real, end: real)
    requires m.moveT >= 0.0 && a <= End(m) && m.printTime <= b && a <= b
    requires Max(0.0, start) == Max(m.printTime, a) - m.printTime && Min(m.moveT, end) == Min(End(m), b) - m.printTime
    ensures MoveIntegrate(m, pa, m.startPos.x - x0, start, end, o - m.printTime) == Piece(m, x0, pa, a, b, o)
  {
    hide MoveIntegrate, AdvancedAt, Times, Simpson;
    MoveIntegral(m, pa, m.startPos.x - x0, start, end, o - m.printTime);
    var lo, base, offset := Max(0.0, start), m.startPos.x - x0, o - m.printTime;
    var x := Times(lo - offset, AdvancedAt(m, pa, base, lo));
    NoTime(lo, x, x, x);
  }

  lemma NoTime(t: real, x: real, y: real, z: real)
    ensures Simpson(t, t, x, y, z) == 0.0
  {
  }

  /** The moves before the current one, back to `start` before its beginning, and at time t.  No other moves
      matter. */
  method PastMoves(moves: seq<Move>, j: nat, pa: real, start: real, ghost t: real, ghost hi: real, ghost p0: real, ghost v: real)
    returns (sum: real)
    requires GapFree(moves) && j < |moves| && moves[0].printTime <= moves[j].printTime + start && moves[j].printTime < hi
    requires moves[j].printTime <= t && moves[j].printTime + start <= t
    ensures var a := moves[j].printTime + start; sum == Gathered(moves, 0, j, moves[j].startPos.x, pa, a, t, a)
    ensures Steady(moves, moves[j].printTime + start, hi, p0, v) ==>
      var f := Advanced(v, pa, start);
      sum == Anti(f, v, if start < 0.0 then -start else 0.0) - Anti(f, v, 0.0)
  {
    hide Anti, MoveIntegrate, Advanced, Times, SteadyMove, Piece;
    sum := 0.0;
    var k: nat, left := j, start;
    ghost var x0, a := moves[j].startPos.x, moves[j].printTime + start;
    ghost var f, steady := Advanced(v, pa, start), Steady(moves, moves[j].printTime + start, hi, p0, v);
    while left < 0.0
      invariant k <= j && moves[k].printTime - moves[j].printTime + left == start
      invariant sum == Gathered(moves, k, j, x0, pa, a, t, a)
      invariant steady ==>
        sum == Anti(f, v, if start < 0.0 then -start else 0.0) - Anti(f, v, if left < 0.0 then -left else 0.0)
      decreases k
    {
      assert k > 0;
      k := k - 1;
      assert End(moves[k]) == moves[k + 1].printTime;
      StartsGrow(moves, k, j);
      left := left + moves[k].moveT;
      if steady {
        SteadyIntegral(moves[k], moves[j], p0, v, pa, left, moves[k].moveT, left);
      }
      PieceIs(moves[k], x0, pa, a, t, a, left, moves[k].moveT);
      GatheredFront(moves, k, j, x0, pa, a, t, a);
      sum := sum + MoveIntegrate(moves[k], pa, moves[k].startPos.x - moves[j].startPos.x, left, moves[k].moveT, left);
    }
    GatheredFrom(moves, k, j, x0, pa, a, t, a);
  }

  /** The moves after the current one, up to `end` after its beginning, and at time t.  No other moves matter. */
  method FutureMoves(moves: seq<Move>, j: nat, pa: real, end: real, ghost t: real, ghost lo: real, ghost p0: real, ghost v: real)
    returns (sum: real)
    requires GapFree(moves) && j < |moves| && moves[j].printTime + end <= End(moves[|moves| - 1]) && lo < End(moves[j])
    requires t <= End(moves[j]) && t <= moves[j].printTime + end
    ensures var e := moves[j].printTime + end; sum == Gathered(moves, j + 1, |moves|, moves[j].startPos.x, pa, t, e, e)
    ensures Steady(moves, lo, moves[j].printTime + end, p0, v) ==>
      var f := Advanced(v, pa, end);
      sum == Anti(f, v, 0.0) - Anti(f, v, if end > moves[j].moveT then moves[j].moveT - end else 0.0)
  {
    hide Anti, MoveIntegrate, Advanced, Times, SteadyMove, Piece;
    sum := 0.0;
    var k: nat, left := j, end;
    ghost var x0, e := moves[j].startPos.x, moves[j].printTime + end;
    ghost var f, steady := Advanced(v, pa, end), Steady(moves, lo, moves[j].printTime + end, p0, v);
    while left > moves[k].moveT
      invariant j <= k < |moves| && moves[k].printTime - moves[j].printTime + left == end
      invariant sum == Gathered(moves, j + 1, k + 1, x0, pa, t, e, e)
      invariant steady ==>
        sum == Anti(f, v, if left > moves[k].moveT then moves[k].moveT - left else 0.0)
             - Anti(f, v, if end > moves[j].moveT then moves[j].moveT - end else 0.0)
      decreases |moves| - k
    {
      left := left - moves[k].moveT;
      assert End(moves[k]) == moves[k + 1].printTime;
      k := k + 1;
      StartsGrow(moves, j, k);
      if steady {
        SteadyIntegral(moves[k], moves[j], p0, v, pa, 0.0, left, left);
      }
      PieceIs(moves[k], x0, pa, t, e, e, 0.0, left);
      sum := sum + MoveIntegrate(moves[k], pa, moves[k].startPos.x - moves[j].startPos.x, 0.0, left, left);
    }
    GatheredUpTo(moves, j + 1, k, |moves|, x0, pa, t, e, e);
  }

  /** The weights rise from the start of the window to its middle and fall to its end: together they
      average a straight line to its value in the middle. */
  lemma Window(v: real, pa: real, t: real, h: real)
    ensures var f, g := Advanced(v, pa, t - h), Advanced(v, pa, t + h);
      Anti(f, v, h) - Anti(f, v, 0.0) - (Anti(g, v, 0.0) - Anti(g, v, -h)) == Times(Square(h), Advanced(v, pa, t))
  {
  }

  /** The window lies inside the list. */
  predicate Inside(moves: seq<Move>, j: nat, moveTime: real, hst: real)
    requires j < |moves|
  {
    && 0.0 <= moveTime <= moves[j].moveT && hst > 0.0
    && moves[0].printTime <= moves[j].printTime + moveTime - hst
    && moves[j].printTime + moveTime + hst <= End(moves[|moves| - 1])
  }

  /** The moves that the window reaches are steady. */
  predicate SteadyAround(moves: seq<Move>, j: nat, moveTime: real, hst: real, p0: real, v: real)
    requires j < |moves|
  {
    Steady(moves, moves[j].printTime + moveTime - hst, moves[j].printTime + moveTime + hst, p0, v)
  }

  /** pa_range_integrate: with any moves, the weighted integral over the window. */
  method RangeIntegrate(moves: seq<Move>, j: nat, moveTime: real, pa: real, hst: real, ghost p0: real, ghost v: real)
    returns (res: real)
    requires GapFree(moves) && j < |moves| && Inside(moves, j, moveTime, hst)
    ensures res == Windowed(moves, moves[j].startPos.x, pa, moves[j].printTime + moveTime, hst)
    ensures SteadyAround(moves, j, moveTime, hst, p0, v) ==> res == Times(Square(hst), Advanced(v, pa, moveTime))
  {
    hide Anti, MoveIntegrate, Advanced, Times, SteadyMove, Piece, Gathered, Square;
    var m, start, end := moves[j], moveTime - hst, moveTime + hst;
    res := MoveIntegrate(m, pa, 0.0, start, moveTime, start);
    res := res - MoveIntegrate(m, pa, 0.0, moveTime, end, end);
    ghost var t := m.printTime + moveTime;
    var past := PastMoves(moves, j, pa, start, t, m.printTime + end, p0, v);
    var future := FutureMoves(moves, j, pa, end, t, m.printTime + start, p0, v);
    res := res + past - future;
    BothHalves(moves, j, pa, moveTime, hst);
    if SteadyAround(moves, j, moveTime, hst, p0, v) {
      SteadyIntegral(m, m, p0, v, pa, start, moveTime, start);
      SteadyIntegral(m, m, p0, v, pa, moveTime, end, end);
      Window(v, pa, moveTime, hst);
    }
  }

  lemma BothHalves(moves: seq<Move>, j: nat, pa: real, moveTime: real, hst: real)
    requires GapFree(moves) && j < |moves| && Inside(moves, j, moveTime, hst)
    ensures var m, t, x0 := moves[j], moves[j].printTime + moveTime, moves[j].startPos.x;
      Windowed(moves, x0, pa, t, hst) == Gathered(moves, 0, j, x0, pa, t - hst, t, t - hst)
      + MoveIntegrate(m, pa, 0.0, moveTime - hst, moveTime, moveTime - hst)
      - MoveIntegrate(m, pa, 0.0, moveTime, moveTime + hst, moveTime + hst)
      - Gathered(moves, j + 1, |moves|, x0, pa, t, t + hst, t + hst)
  {
    hide MoveIntegrate, Piece;
    var m, t, x0 := moves[j], moves[j].printTime + moveTime, moves[j].startPos.x;
    PieceIs(m, x0, pa, t - hst, t, t - hst, moveTime - hst, moveTime);
    PieceIs(m, x0, pa, t, t + hst, t + hst, moveTime, moveTime + hst);
    GatheredUpTo(moves, 0, j, |moves|, x0, pa, t - hst, t, t - hst);
    GatheredFrom(moves, j, |moves|, x0, pa, t, t + hst, t + hst);
    GatheredFront(moves, j, |moves|, x0, pa, t, t + hst, t + hst);
  }

  class ExtruderStepper {
    var pressureAdvance: real
    var halfSmoothTime: real
    var invHalfSmoothTime2: real
    var preActive: real  // gen_steps_pre_active
    var postActive: real // gen_steps_post_active

    constructor ()
      ensures Valid() && halfSmoothTime == 0.0
    {
      pressureAdvance, halfSmoothTime, invHalfSmoothTime2, preActive, postActive := 0.0, 0.0, 0.0, 0.0, 0.0;
    }

    /** The step generator looks as far around each move as the average does. */
    predicate Valid()
      reads this
    {
      && preActive == postActive == halfSmoothTime >= 0.0
      && (halfSmoothTime > 0.0 ==> Times(invHalfSmoothTime2, Square(halfSmoothTime)) == 1.0)
    }

    /** extruder_set_pressure_advance. */
    method SetPressureAdvance(pressureAdvance: real, smoothTime: real)
      requires smoothTime >= 0.0
      modifies this
      ensures Valid() && halfSmoothTime == smoothTime * 0.5
      ensures smoothTime > 0.0 ==> this.pressureAdvance == pressureAdvance
    {
      var hst := smoothTime * 0.5;
      halfSmoothTime, preActive, postActive := hst, hst, hst;
      if hst == 0.0 {
        return;
      }
      Positive(hst);
      invHalfSmoothTime2 := 1.0 / (hst * hst);
      this.pressureAdvance := pressureAdvance;
    }

    /** extruder_calc_position: the weighted average of the position over the window, with any moves; at constant
        speed that is the nominal position and the advance. */
    method CalcPosition(moves: seq<Move>, j: nat, moveTime: real, ghost p0: real, ghost v: real) returns (p: real)
      requires Valid() && GapFree(moves) && j < |moves|
      requires halfSmoothTime > 0.0 ==> Inside(moves, j, moveTime, halfSmoothTime)
      ensures halfSmoothTime == 0.0 ==> p == moves[j].startPos.x + Distance(moves[j], moveTime)
      ensures halfSmoothTime > 0.0 ==>
        Times(Square(halfSmoothTime), p - moves[j].startPos.x)
        == Windowed(moves, moves[j].startPos.x, pressureAdvance, moves[j].printTime + moveTime, halfSmoothTime)
      ensures halfSmoothTime > 0.0 && SteadyAround(moves, j, moveTime, halfSmoothTime, p0, v) ==>
        p == moves[j].startPos.x + Distance(moves[j], moveTime) + pressureAdvance * v
    {
      hide Windowed, Distance, Advanced, Times, Square;
      if halfSmoothTime == 0.0 {
        return moves[j].startPos.x + Distance(moves[j], moveTime);
      }
      var area := RangeIntegrate(moves, j, moveTime, pressureAdvance, halfSmoothTime, p0, v);
      var average := area * invHalfSmoothTime2;
      p := moves[j].startPos.x + average;
      Scaled(invHalfSmoothTime2, Square(halfSmoothTime), area, average);
      assert p - moves[j].startPos.x == average;
      if SteadyAround(moves, j, moveTime, halfSmoothTime, p0, v) {
        Average(invHalfSmoothTime2, Square(halfSmoothTime), Advanced(v, pressureAdvance, moveTime), area, average);
        Nominal(moves[j], v, pressureAdvance, moveTime);
      }
    }
  }

  lemma Positive(h: real)
    requires h > 0.0
    ensures h * h > 0.0 && Times(1.0 / (h * h), Square(h)) == 1.0
  {
  }

  lemma Scaled(inv: real, h2: real, area: real, average: real)
    requires Times(inv, h2) == 1.0 && average == area * inv
    ensures Times(h2, average) == area
  {
    TimesAssoc(h2, inv, area);
    TimesComm(h2, inv);
  }

  lemma Average(inv: real, h2: real, x: real, area: real, average: real)
    requires Times(inv, h2) == 1.0 && area == Times(h2, x) && average == area * inv
    ensures average == x
  {
    TimesAssoc(inv, h2, x);
  }

  lemma Nominal(m: Move, v: real, pa: real, t: real)
    requires m.startV == v && m.halfAccel == 0.0
    ensures Advanced(v, pa, t) == Distance(m, t) + pa * v
  {
  }
}
