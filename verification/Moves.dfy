/** The moves of a trapezoidal motion queue (klippy/chelper/trapq.h and trapq.c). */
module Moves {
  datatype Coord = Coord(x: real, y: real, z: real)

  /** `struct move`: a stretch of constant acceleration along one direction. */
  datatype Move = Move(printTime: real, moveT: real, startV: real, halfAccel: real, startPos: Coord, axesR: Coord)

  function End(m: Move): real { m.printTime + m.moveT }

  /** move_get_distance. */
  function Distance(m: Move, t: real): real { (m.startV + m.halfAccel * t) * t }

  /** move_get_coord. */
  function CoordAt(m: Move, t: real): Coord {
    var d := Distance(m, t);
    Coord(m.startPos.x + m.axesR.x * d, m.startPos.y + m.axesR.y * d, m.startPos.z + m.axesR.z * d)
  }

  function Max(a: real, b: real): real { if a > b then a else b }

  function Min(a: real, b: real): real { if a < b then a else b }

  /** Each move starts when the one before it ends. */
  predicate GapFree(moves: seq<Move>) {
    && (forall i :: 0 <= i < |moves| ==> moves[i].moveT >= 0.0)
    && (forall i :: 0 <= i < |moves| - 1 ==> End(moves[i]) == moves[i + 1].printTime)
  }

  /** On a gap-free list, times grow with the index. */
  lemma {:induction false} StartsGrow(moves: seq<Move>, i: nat, j: nat)
    requires GapFree(moves) && i <= j < |moves|
    ensures moves[i].printTime <= moves[j].printTime
    ensures i < j ==> End(moves[i]) <= moves[j].printTime
    decreases j - i
  {
    if i < j {
      StartsGrow(moves, i, j - 1);
      assert End(moves[j - 1]) == moves[j].printTime;
    }
  }

  /** The product.  Proofs that use its laws hide that it is a product. */
  function Times(x: real, y: real): real { x * y }

  lemma TimesAdd(x: real, y: real, z: real)
    ensures Times(x, y + z) == Times(x, y) + Times(x, z)
    ensures Times(y + z, x) == Times(y, x) + Times(z, x)
  {
  }

  lemma TimesSub(x: real, y: real, z: real)
    ensures Times(x, y - z) == Times(x, y) - Times(x, z)
    ensures Times(y - z, x) == Times(y, x) - Times(z, x)
  {
  }

  lemma TimesComm(x: real, y: real)
    ensures Times(x, y) == Times(y, x)
  {
  }

  lemma TimesAssoc(x: real, y: real, z: real)
    ensures Times(x, Times(y, z)) == Times(Times(x, y), z)
  {
  }

  lemma TimesConst(x: real)
    ensures Times(x, 1.0) == x && Times(1.0, x) == x && Times(x, 0.0) == 0.0 && Times(0.0, x) == 0.0
  {
  }
}
