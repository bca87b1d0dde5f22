/** klippy/chelper/trapq.c: the trapezoid velocity queue, a time-ordered list of moves between a head
    and a tail sentinel. */
module Trapq {
  import opened Moves

  const NEVER_TIME := 9999999999999999.9
  const MAX_NULL_MOVE := 1.0
  const HISTORY_EXPIRE := 30.0

  const ORIGIN := Coord(0.0, 0.0, 0.0)
  const HEAD := Move(0.0, 0.0, 0.0, 0.0, ORIGIN, ORIGIN)

  function Last(moves: seq<Move>): Move { if |moves| == 0 then HEAD else moves[|moves| - 1] }

  /** The null move that fills the time before m. */
  function Filler(prev: Move, m: Move): seq<Move> {
    if End(prev) < m.printTime then
      var start := if prev.printTime == 0.0 && m.printTime > MAX_NULL_MOVE then m.printTime - MAX_NULL_MOVE else End(prev);
      [Move(start, m.printTime - start, 0.0, 0.0, m.startPos, ORIGIN)]
    else []
  }

  /** The list with move m added. */
  function Added(moves: seq<Move>, m: Move): seq<Move> { moves + Filler(Last(moves), m) + [m] }

  /** Whether a move can follow the list without gap or overlap.  The limit on the first null move
      looks only at the previous print time, so a real move that starts at time 0 fools it. */
  predicate Fits(moves: seq<Move>, m: Move) {
    var prev := Last(moves);
    || |moves| == 0
    || m.printTime == End(prev)
    || (End(prev) < m.printTime
        && (prev.printTime != 0.0 || m.printTime <= MAX_NULL_MOVE || m.printTime == End(prev) + MAX_NULL_MOVE))
  }

  /** Adding a move keeps the list gap-free exactly when the move fits. */
  lemma AddedGapFree(moves: seq<Move>, m: Move)
    requires GapFree(moves) && m.moveT >= 0.0
    ensures GapFree(Added(moves, m)) <==> Fits(moves, m)
  {
    hide GapFree, Added, Filler, Fits, Last;
    if End(Last(moves)) < m.printTime {
      var rest := NullMove(Last(moves), m);
      AddedAfterNull(moves, m, rest);
      NullFits(moves, m, rest);
    } else {
      AddedBehind(moves, m);
      GapFreeSnoc(moves, m);
      BehindFits(moves, m);
    }
  }

  /** The null move, if there is one. */
  lemma NullMove(prev: Move, m: Move) returns (rest: Move)
    requires End(prev) < m.printTime
    ensures Filler(prev, m) == [rest]
  {
    rest := Filler(prev, m)[0];
  }

  lemma NullFits(moves: seq<Move>, m: Move, rest: Move)
    requires End(Last(moves)) < m.printTime && Filler(Last(moves), m) == [rest]
    ensures rest.moveT >= 0.0 && (Fits(moves, m) <==> |moves| == 0 || End(Last(moves)) == rest.printTime)
  {
    assert rest == Filler(Last(moves), m)[0];
  }

  lemma AddedBehind(moves: seq<Move>, m: Move)
    requires End(Last(moves)) >= m.printTime
    ensures Added(moves, m) == moves + [m]
  {
    assert moves + [] == moves;
  }

  lemma BehindFits(moves: seq<Move>, m: Move)
    requires End(Last(moves)) >= m.printTime
    ensures Fits(moves, m) <==> |moves| == 0 || End(Last(moves)) == m.printTime
  {
  }

  lemma AddedAfterNull(moves: seq<Move>, m: Move, rest: Move)
    requires Filler(Last(moves), m) == [rest]
    ensures GapFree(Added(moves, m)) <==>
      GapFree(moves) && m.moveT >= 0.0 && rest.moveT >= 0.0 && (|moves| > 0 ==> End(Last(moves)) == rest.printTime)
  {
    GapFreeSnoc(moves, rest);
    GapFreeSnoc(moves + [rest], m);
  }

  lemma GapFreeSnoc(moves: seq<Move>, m: Move)
    ensures GapFree(moves + [m]) <==>
      GapFree(moves) && m.moveT >= 0.0 && (|moves| > 0 ==> End(Last(moves)) == m.printTime)
  {
    var all, n := moves + [m], |moves|;
    assert all[n] == m && forall i :: 0 <= i < n ==> all[i] == moves[i];
    if GapFree(all) {
      forall i | 0 <= i < n - 1 ensures End(moves[i]) == moves[i + 1].printTime {
        assert End(all[i]) == all[i + 1].printTime;
      }
      assert n > 0 ==> End(all[n - 1]) == all[n].printTime;
    }
  }

  /** A move that begins at time 0, with time left before the next, leaves a gap. */
  lemma GapAfterTimeZero()
    ensures var first := Move(0.0, 1.0, 1.0, 0.0, ORIGIN, Coord(1.0, 0.0, 0.0));
      var next := first.(printTime := 5.0);
      GapFree([first]) && !GapFree(Added([first], next)) && Added([first], next)[1].printTime == 4.0
  {
    var first := Move(0.0, 1.0, 1.0, 0.0, ORIGIN, Coord(1.0, 0.0, 0.0));
    AddedGapFree([first], first.(printTime := 5.0));
  }

  // ------------------------------------------------------------------ the pieces of one move

  function Speed(m: Move, t: real): real { m.startV + 2.0 * m.halfAccel * t }

  /** A time, a place and a speed. */
  datatype Point = Point(time: real, pos: Coord, v: real)

  function StartOf(m: Move): Point { Point(m.printTime, m.startPos, m.startV) }

  function EndOf(m: Move): Point { Point(End(m), CoordAt(m, m.moveT), Speed(m, m.moveT)) }

  /** The same time and place, and the same speed if that must not jump. */
  predicate Meets(p: Point, q: Point, smooth: bool) { p.time == q.time && p.pos == q.pos && (smooth ==> p.v == q.v) }

  /** The pieces lead from one point to the other, each taking up where the one before it ends. */
  predicate Chain(pieces: seq<Move>, axesR: Coord, from: Point, to: Point, smooth: bool) {
    if |pieces| == 0 then Meets(from, to, smooth)
    else
      var m := Last(pieces);
      && m.moveT > 0.0 && m.axesR == axesR && Meets(EndOf(m), to, smooth)
      && Chain(pieces[..|pieces| - 1], axesR, from, StartOf(m), smooth)
  }

  lemma ChainMeets(pieces: seq<Move>, axesR: Coord, from: Point, to: Point, to': Point, smooth: bool)
    requires Chain(pieces, axesR, from, to, smooth) && Meets(to, to', smooth)
    ensures Chain(pieces, axesR, from, to', smooth)
  {
  }

  lemma ChainGrows(pieces: seq<Move>, m: Move, axesR: Coord, from: Point, smooth: bool)
    requires Chain(pieces, axesR, from, StartOf(m), smooth) && m.moveT > 0.0 && m.axesR == axesR
    ensures Chain(pieces + [m], axesR, from, EndOf(m), smooth)
  {
    assert (pieces + [m])[..|pieces|] == pieces && Last(pieces + [m]) == m;
  }

  /** A chain has no gaps and goes from start to end in time. */
  lemma {:induction false} ChainGapFree(pieces: seq<Move>, axesR: Coord, from: Point, to: Point, smooth: bool)
    requires Chain(pieces, axesR, from, to, smooth)
    ensures GapFree(pieces) && from.time <= to.time
    ensures |pieces| > 0 ==> pieces[0].printTime == from.time && End(Last(pieces)) == to.time
    ensures forall p <- pieces :: p.moveT > 0.0 && p.axesR == axesR && from.time <= p.printTime
  {
    if |pieces| > 0 {
      var m, before := Last(pieces), pieces[..|pieces| - 1];
      ChainGapFree(before, axesR, from, StartOf(m), smooth);
      assert pieces == before + [m];
      GapFreeSnoc(before, m);
    }
  }

  function AccelPhase(time: real, pos: Coord, axesR: Coord, accelT: real, startV: real, accel: real): Move {
    Move(time, accelT, startV, 0.5 * accel, pos, axesR)
  }

  function CruisePhase(before: Point, axesR: Coord, cruiseT: real, cruiseV: real): Move {
    Move(before.time, cruiseT, cruiseV, 0.0, before.pos, axesR)
  }

  function DecelPhase(before: Point, axesR: Coord, decelT: real, cruiseV: real, accel: real): Move {
    Move(before.time, decelT, cruiseV, -0.5 * accel, before.pos, axesR)
  }

  /** The end of a move that accelerates, cruises and decelerates. */
  function TrapezoidEnd(time: real, accelT: real, cruiseT: real, decelT: real, pos: Coord, axesR: Coord,
                        startV: real, cruiseV: real, accel: real): Point
  {
    var p := EndOf(AccelPhase(time, pos, axesR, accelT, startV, accel));
    var q := EndOf(CruisePhase(p, axesR, cruiseT, cruiseV));
    EndOf(DecelPhase(q, axesR, decelT, cruiseV, accel))
  }

  function Along(pos: Coord, axesR: Coord, d: real): Coord {
    Coord(pos.x + axesR.x * d, pos.y + axesR.y * d, pos.z + axesR.z * d)
  }

  lemma AlongTwice(pos: Coord, axesR: Coord, d: real, e: real)
    ensures Along(Along(pos, axesR, d), axesR, e) == Along(pos, axesR, d + e)
  {
    Distributes(axesR.x, d, e);
    Distributes(axesR.y, d, e);
    Distributes(axesR.z, d, e);
  }

  lemma Distributes(a: real, d: real, e: real)
    ensures a * (d + e) == a * d + a * e
  {
  }

  /** It lasts the three times together, goes the distance under the speed profile and ends at the
      speed it has decelerated to. */
  lemma TrapezoidEnds(time: real, accelT: real, cruiseT: real, decelT: real, pos: Coord, axesR: Coord,
                      startV: real, cruiseV: real, accel: real)
    ensures var d := (startV + 0.5 * accel * accelT) * accelT + cruiseV * cruiseT + (cruiseV - 0.5 * accel * decelT) * decelT;
      TrapezoidEnd(time, accelT, cruiseT, decelT, pos, axesR, startV, cruiseV, accel)
      == Point(time + accelT + cruiseT + decelT, Along(pos, axesR, d), cruiseV - accel * decelT)
  {
    var p := AccelPhase(time, pos, axesR, accelT, startV, accel);
    var q := CruisePhase(EndOf(p), axesR, cruiseT, cruiseV);
    var r := DecelPhase(EndOf(q), axesR, decelT, cruiseV, accel);
    var a, b, c := Distance(p, accelT), Distance(q, cruiseT), Distance(r, decelT);
    AlongTwice(pos, axesR, a, b);
    AlongTwice(pos, axesR, a + b, c);
    assert EndOf(r).pos == Along(pos, axesR, a + b + c);
    assert b == cruiseV * cruiseT;
    assert -0.5 * accel * decelT == -(0.5 * accel * decelT);
    assert 2.0 * (-0.5 * accel) * decelT == -(accel * decelT);
  }

  // ------------------------------------------------------------------ the queue

  class TrapQueue {
    var moves: seq<Move>   // between the sentinels
    var tail: Move         // the tail sentinel
    var history: seq<Move> // newest first

    constructor ()
      ensures moves == [] && history == [] && TailOk() && tail.printTime == NEVER_TIME
    {
      moves, history := [], [];
      tail := Move(NEVER_TIME, NEVER_TIME, 0.0, 0.0, ORIGIN, ORIGIN);
    }

    /** The tail sentinel is marked out of date, or follows the last move. */
    ghost predicate TailOk()
      reads this
    {
      && tail.moveT == NEVER_TIME && tail.axesR == ORIGIN
      && (if |moves| == 0 then tail.printTime == NEVER_TIME
          else tail.printTime != 0.0 ==>
            tail.printTime == End(Last(moves)) && tail.startPos == CoordAt(Last(moves), Last(moves).moveT))
    }

    /** trapq_add_move. */
    method AddMove(m: Move)
      requires TailOk()
      modifies this`moves, this`tail
      ensures TailOk() && moves == Added(old(moves), m)
    {
      var prev := Last(moves);
      if prev.printTime + prev.moveT < m.printTime {
        var start := prev.printTime + prev.moveT;
        if prev.printTime == 0.0 && m.printTime > MAX_NULL_MOVE {
          start := m.printTime - MAX_NULL_MOVE;
        }
        moves := moves + [Move(start, m.printTime - start, 0.0, 0.0, m.startPos, ORIGIN)];
      }
      moves := moves + [m];
      tail := tail.(printTime := 0.0);
    }

    /** trapq_check_sentinels: afterwards the list and the tail sentinel together can be walked. */
    method CheckSentinels()
      requires TailOk()
      modifies this`tail
      ensures TailOk() && (GapFree(moves) && |moves| > 0 ==> GapFree(moves + [tail]))
      ensures |moves| > 0 ==> tail.printTime == End(Last(moves)) && tail.startPos == CoordAt(Last(moves), Last(moves).moveT)
      ensures |moves| == 0 ==> tail.printTime == NEVER_TIME
    {
      if tail.printTime == 0.0 {
        var m := Last(moves);
        tail := tail.(printTime := m.printTime + m.moveT, startPos := CoordAt(m, m.moveT));
      }
      ghost var all, n := moves + [tail], |moves|;
      assert all[n] == tail && forall i :: 0 <= i < n ==> all[i] == moves[i];
    }

    /** One phase of a move: nothing if it has no length, else a piece. */
    method AddPhase(m: Move, ghost before: seq<Move>, ghost pieces: seq<Move>, ghost from: Point, ghost smooth: bool)
      returns (time: real, pos: Coord, ghost pieces': seq<Move>)
      requires TailOk() && moves == Joined(before, pieces)
      requires Chain(pieces, m.axesR, from, StartOf(m), smooth) && m.moveT >= 0.0
      modifies this`moves, this`tail
      ensures TailOk() && moves == Joined(before, pieces') && Chain(pieces', m.axesR, from, EndOf(m), smooth)
      ensures time == EndOf(m).time && pos == EndOf(m).pos
    {
      time, pos, pieces' := m.printTime, m.startPos, pieces;
      if m.moveT != 0.0 {
        ChainGrows(pieces, m, m.axesR, from, smooth);
        AddMove(m);
        pieces' := pieces + [m];
        JoinedGrows(before, pieces, m);
        time, pos := time + m.moveT, CoordAt(m, m.moveT);
      } else {
        assert CoordAt(m, 0.0) == m.startPos && Meets(StartOf(m), EndOf(m), smooth);
        ChainMeets(pieces, m.axesR, from, StartOf(m), EndOf(m), smooth);
      }
    }

    /** trapq_append: a move as an acceleration, a cruise and a deceleration piece. */
    method Append(printTime: real, accelT: real, cruiseT: real, decelT: real, startPos: Coord, axesR: Coord,
                  startV: real, cruiseV: real, accel: real)
      returns (ghost pieces: seq<Move>)
      requires TailOk() && accelT >= 0.0 && cruiseT >= 0.0 && decelT >= 0.0
      modifies this`moves, this`tail
      ensures TailOk() && moves == Joined(old(moves), pieces)
      ensures Chain(pieces, axesR, Point(printTime, startPos, startV),
                    TrapezoidEnd(printTime, accelT, cruiseT, decelT, startPos, axesR, startV, cruiseV, accel),
                    cruiseV == startV + 2.0 * (0.5 * accel) * accelT)
    {
      ghost var from, smooth := Point(printTime, startPos, startV), cruiseV == startV + 2.0 * (0.5 * accel) * accelT;
      var m := AccelPhase(printTime, startPos, axesR, accelT, startV, accel);
      var time, pos;
      time, pos, pieces := AddPhase(m, moves, [], from, smooth);
      ghost var p := EndOf(m);
      m := Move(time, cruiseT, cruiseV, 0.0, pos, axesR);
      ChainMeets(pieces, axesR, from, p, StartOf(m), smooth);
      time, pos, pieces := AddPhase(m, old(moves), pieces, from, smooth);
      p := EndOf(m);
      m := Move(time, decelT, cruiseV, -0.5 * accel, pos, axesR);
      ChainMeets(pieces, axesR, from, p, StartOf(m), smooth);
      time, pos, pieces := AddPhase(m, old(moves), pieces, from, smooth);
    }

    /** The first loop of trapq_finalize_moves: moves that are over go to the history. */
    method Retire(printTime: real) returns (ghost k: nat)
      requires TailOk()
      modifies this
      ensures TailOk() && k <= |old(moves)| && moves == old(moves)[k..]
      ensures (forall i :: 0 <= i < k ==> End(old(moves)[i]) <= printTime) && (|moves| > 0 ==> End(moves[0]) > printTime)
      ensures history == Archive(old(moves)[..k]) + old(history)
    {
      k := 0;
      while true
        invariant tail == old(tail) && k <= |old(moves)| && moves == old(moves)[k..]
        invariant forall i :: 0 <= i < k ==> End(old(moves)[i]) <= printTime
        invariant history == Archive(old(moves)[..k]) + old(history)
        decreases |moves|
      {
        if |moves| == 0 {
          tail := tail.(printTime := NEVER_TIME);
          return;
        }
        var m := moves[0];
        if m.printTime + m.moveT > printTime {
          return;
        }
        assert old(moves)[..k + 1][..k] == old(moves)[..k];
        moves := moves[1..];
        if Moving(m) {
          history := [m] + history;
        }
        k := k + 1;
      }
    }

    /** The second loop: old moves leave the history. */
    method Expire() returns (ghost n: nat)
      modifies this`history
      ensures n <= |old(history)| && history == old(history)[..n]
      ensures |old(history)| > 0 ==> n > 0
      ensures forall i :: n <= i < |old(history)| ==> End(old(history)[i]) <= End(old(history)[0]) - HISTORY_EXPIRE
      ensures n > 1 ==> End(history[n - 1]) > End(history[0]) - HISTORY_EXPIRE
    {
      n := |history|;
      if |history| == 0 {
        return;
      }
      var latest := history[0];
      var expireTime := latest.printTime + latest.moveT - HISTORY_EXPIRE;
      while |history| > 1 && End(history[|history| - 1]) <= expireTime
        invariant 0 < n <= |old(history)| && history == old(history)[..n]
        invariant forall i :: n <= i < |old(history)| ==> End(old(history)[i]) <= expireTime
        decreases |history|
      {
        history := history[..|history| - 1];
        n := n - 1;
      }
    }

    /** trapq_finalize_moves: exactly the moves that last beyond print_time stay, and the history
        keeps, newest first, the real ones among the others. */
    method FinalizeMoves(printTime: real) returns (ghost k: nat)
      requires TailOk() && GapFree(moves)
      modifies this
      ensures TailOk() && GapFree(moves)
      ensures k <= |old(moves)| && moves == old(moves)[k..] && Divides(old(moves), k, printTime)
      ensures var all := Archive(old(moves)[..k]) + old(history);
        && history <= all && (all != [] ==> history != [])
        && forall i :: |history| <= i < |all| ==> End(all[i]) <= End(all[0]) - HISTORY_EXPIRE
      ensures |history| > 1 ==> End(history[|history| - 1]) > End(history[0]) - HISTORY_EXPIRE
    {
      hide Archive;
      k := Retire(printTime);
      var n := Expire();
      DropGapFree(old(moves), k);
      DividedAt(old(moves), k, printTime);
    }
  }

  /** The moves up to k are over at a given time, and the others are not. */
  predicate Divides(moves: seq<Move>, k: nat, time: real) {
    forall i :: 0 <= i < |moves| ==> (End(moves[i]) <= time <==> i < k)
  }

  lemma DividedAt(moves: seq<Move>, k: nat, time: real)
    requires GapFree(moves) && k <= |moves| && (forall i :: 0 <= i < k ==> End(moves[i]) <= time) && (k < |moves| ==> End(moves[k]) > time)
    ensures Divides(moves, k, time)
  {
    forall i | k <= i < |moves| ensures End(moves[i]) > time {
      StartsGrow(moves, k, i);
    }
  }

  lemma DropGapFree(moves: seq<Move>, k: nat)
    requires GapFree(moves) && k <= |moves|
    ensures GapFree(moves[k..])
  {
    forall i | 0 <= i < |moves| - k - 1 ensures End(moves[k..][i]) == moves[k..][i + 1].printTime {
      assert End(moves[k + i]) == moves[k + i + 1].printTime;
    }
  }

  predicate Moving(m: Move) { m.startV != 0.0 || m.halfAccel != 0.0 }

  /** The real moves, newest first. */
  function Archive(moves: seq<Move>): seq<Move> {
    if |moves| == 0 then []
    else (if Moving(Last(moves)) then [Last(moves)] else []) + Archive(moves[..|moves| - 1])
  }

  /** The pieces of one move behind the list, with the null move that fills the time before them. */
  function Joined(before: seq<Move>, pieces: seq<Move>): seq<Move> {
    if |pieces| == 0 then before else before + Filler(Last(before), pieces[0]) + pieces
  }

  lemma JoinedGrows(before: seq<Move>, pieces: seq<Move>, m: Move)
    requires |pieces| > 0 ==> m.printTime == End(Last(pieces))
    ensures Added(Joined(before, pieces), m) == Joined(before, pieces + [m])
  {
    if |pieces| > 0 {
      assert (pieces + [m])[0] == pieces[0] && Last(Joined(before, pieces)) == Last(pieces);
    }
  }
}
