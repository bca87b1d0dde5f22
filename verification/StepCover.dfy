/** klippy/chelper/itersolve.c, itersolve_generate_steps: which stretches of time are handed to the
    step solver.  They must be in order, must not overlap, and must cover all the time in which the
    stepper may move: while a move is active for it, and shortly before and after. */
module StepCover {
  import opened Moves

  datatype Interval = Interval(lo: real, hi: real)

  /** What a stepper needs to know of itself: the axes it follows and its scan window. */
  datatype Window = Window(onX: bool, onY: bool, onZ: bool, pre: real, post: real)

  /** check_active. */
  predicate Active(w: Window, m: Move) {
    (w.onX && m.axesR.x != 0.0) || (w.onY && m.axesR.y != 0.0) || (w.onZ && m.axesR.z != 0.0)
  }

  predicate Covered(handed: seq<Interval>, t: real) {
    exists i :: 0 <= i < |handed| && handed[i].lo <= t <= handed[i].hi
  }

  /** The stepper may move at t because of move a. */
  predicate Near(w: Window, a: Move, t: real) {
    a.printTime - w.pre < t < End(a) + w.post
  }

  /** In order and without overlap, nothing past `bound`. */
  predicate InOrder(handed: seq<Interval>, bound: real) {
    && (forall i :: 0 <= i < |handed| ==> handed[i].lo <= handed[i].hi <= bound)
    && (forall i, j :: 0 <= i < j < |handed| ==> handed[i].hi <= handed[j].lo)
  }

  lemma CoveredGrows(handed: seq<Interval>, more: seq<Interval>, t: real)
    requires Covered(handed, t)
    ensures Covered(handed + more, t)
  {
    var i :| 0 <= i < |handed| && handed[i].lo <= t <= handed[i].hi;
    assert (handed + more)[i] == handed[i];
  }

  /** The list a stepper walks: gap-free, no active move of zero length, ended by a sentinel that is
      inactive and reaches beyond the flush time and its scan window. */
  predicate Walkable(w: Window, moves: seq<Move>, flush: real) {
    && w.pre >= 0.0 && w.post >= 0.0
    && |moves| > 0 && GapFree(moves) && flush < End(moves[|moves| - 1])
    && (forall i :: 0 <= i < |moves| ==> Active(w, moves[i]) ==> moves[i].moveT > 0.0)
    && !Active(w, moves[|moves| - 1]) && flush + w.pre <= End(moves[|moves| - 1])
  }

  /** Where the list and the time since the last flush both begin. */
  function Low(moves: seq<Move>, from: real): real
    requires |moves| > 0
  {
    Max(from, moves[0].printTime)
  }

  /** The list reaches back to the last flush, or else no active move needs time before its start. */
  predicate StartsInTime(w: Window, moves: seq<Move>, from: real, flush: real)
    requires |moves| > 0
  {
    || moves[0].printTime <= from || flush <= from
    || forall i :: 0 <= i < |moves| && Active(w, moves[i]) ==> Min(flush, moves[0].printTime) <= moves[i].printTime - w.pre
  }

  /** Ranges have been added, none of which begins before `base`. */
  predicate Since(before: seq<Interval>, handed: seq<Interval>, base: real) {
    before <= handed && forall i :: |before| <= i < |handed| ==> base <= handed[i].lo
  }

  /** Everything the stepper needs before `flush` has been handed over. */
  ghost predicate Complete(w: Window, moves: seq<Move>, handed: seq<Interval>, from: real, flush: real) {
    forall i, t: real :: 0 <= i < |moves| && Active(w, moves[i]) && Near(w, moves[i], t) && from <= t < flush ==>
      Covered(handed, t)
  }

  /** last_move_time reaches every active move that is over. */
  predicate Remembers(w: Window, moves: seq<Move>, lastMove: real, flush: real) {
    && lastMove <= flush
    && forall i :: 0 <= i < |moves| && Active(w, moves[i]) && End(moves[i]) <= flush ==> End(moves[i]) <= lastMove
  }

  // ------------------------------------------------------------------ the walk

  /** The walk has reached time `at`, the start of move j.  It passed over the moves from `run` on;
      `last` is last_move_time. */
  datatype Walk = Walk(j: nat, at: real, run: real, last: real, handed: seq<Interval>)

  function Force(w: Window, k: Walk): real { k.last + w.post }

  /** The stretch after the last activity is covered, as far back as the list goes. */
  ghost predicate PostDone(w: Window, low: real, flush: real, k: Walk) {
    forall t: real :: Max(low, k.last) <= t < Min(flush, k.at) && t < Force(w, k) ==> Covered(k.handed, t)
  }

  /** The surroundings of the active moves passed so far are covered. */
  ghost predicate ActiveDone(w: Window, moves: seq<Move>, low: real, flush: real, k: Walk)
    requires k.j <= |moves|
  {
    forall i, t: real :: (0 <= i < k.j && Active(w, moves[i]) && Near(w, moves[i], t)
                          && low <= t < Min(flush, k.at)) ==> Covered(k.handed, t)
  }

  /** Before the moves passed over, all that a coming activity could need is covered. */
  ghost predicate PreDone(w: Window, low: real, flush: real, k: Walk) {
    forall t: real :: low <= t < Min(flush, k.run) && k.at - w.pre < t ==> Covered(k.handed, t)
  }

  predicate Reached(w: Window, moves: seq<Move>, base: real, k: Walk)
    requires k.j <= |moves|
  {
    && base <= k.run
    && forall i :: 0 <= i < k.j && Active(w, moves[i]) ==> base <= End(moves[i]) <= k.last
  }

  /** Nothing has been handed beyond the moves passed over and the forced stretch. */
  predicate TopOk(w: Window, from: real, flush: real, k: Walk) {
    && InOrder(k.handed, Max(from, Max(k.run, Force(w, k))))
    && InOrder(k.handed, Max(from, Min(flush, k.at)))
  }

  ghost predicate WalkOk(w: Window, moves: seq<Move>, from: real, flush: real, k: Walk) {
    && |moves| > 0 && k.j <= |moves| && k.run <= k.at && from <= flush
    && (k.last <= k.run || k.last <= from) && k.last <= flush
    && var low := Low(moves, from);
    && var post, active, pre, reached, top :=
         PostDone(w, low, flush, k), ActiveDone(w, moves, low, flush, k),
         PreDone(w, low, flush, k), Reached(w, moves, moves[0].printTime, k), TopOk(w, from, flush, k);
    post && active && pre && reached && top
  }

  /** The interval the solver gets from a move and a range of time, if there is one. */
  function Handed(m: Move, lo: real, hi: real): seq<Interval> {
    var a, b := Max(lo, m.printTime), Min(hi, End(m));
    if a <= b then [Interval(a, b)] else []
  }

  lemma HandedCovers(handed: seq<Interval>, m: Move, lo: real, hi: real, t: real)
    requires Max(lo, m.printTime) <= t <= Min(hi, End(m))
    ensures Covered(handed + Handed(m, lo, hi), t)
  {
    var all := handed + Handed(m, lo, hi);
    assert all[|handed|] == Interval(Max(lo, m.printTime), Min(hi, End(m)));
  }

  lemma HandedInOrder(handed: seq<Interval>, m: Move, lo: real, hi: real, below: real, above: real)
    requires InOrder(handed, below) && below <= Max(lo, m.printTime)
    requires InOrder(handed, above) && Min(hi, End(m)) <= above
    ensures InOrder(handed + Handed(m, lo, hi), above)
  {
  }

  /** An inactive move past the forced stretch is passed over. */
  lemma SkipStep(w: Window, moves: seq<Move>, from: real, flush: real, k: Walk)
    requires WalkOk(w, moves, from, flush, k) && w.pre >= 0.0 && w.post >= 0.0
    requires k.j < |moves| && k.at == moves[k.j].printTime && moves[k.j].moveT >= 0.0
    requires !Active(w, moves[k.j]) && k.at >= Force(w, k)
    ensures WalkOk(w, moves, from, flush, k.(j := k.j + 1, at := End(moves[k.j])))
  {
    var k' := k.(j := k.j + 1, at := End(moves[k.j]));
    forall i, t: real | 0 <= i < k'.j && Active(w, moves[i]) && Near(w, moves[i], t) && Low(moves, from) <= t < Min(flush, k'.at)
      ensures Covered(k'.handed, t)
    {
      assert i < k.j;
      assert End(moves[i]) <= k.last;
    }
  }

  function AfterPost(w: Window, moves: seq<Move>, from: real, flush: real, k: Walk): Walk
    requires k.j < |moves|
  {
    var m := moves[k.j];
    Walk(k.j + 1, End(m), k.at, k.last, k.handed + Handed(m, from, Min(Force(w, k), flush)))
  }

  /** What the forced stretch covers of an inactive move. */
  lemma PostCovers(w: Window, moves: seq<Move>, from: real, flush: real, k: Walk, t: real)
    requires k.j < |moves| && k.at == moves[k.j].printTime
    requires from <= t < Min(flush, End(moves[k.j])) && t < Force(w, k) && (t >= k.at || Covered(k.handed, t))
    ensures Covered(AfterPost(w, moves, from, flush, k).handed, t)
  {
    var m := moves[k.j];
    if t >= k.at {
      HandedCovers(k.handed, m, from, Min(Force(w, k), flush), t);
    } else {
      CoveredGrows(k.handed, Handed(m, from, Min(Force(w, k), flush)), t);
    }
  }

  lemma PostActiveDone(w: Window, moves: seq<Move>, from: real, flush: real, k: Walk)
    requires WalkOk(w, moves, from, flush, k) && w.post >= 0.0
    requires k.j < |moves| && k.at == moves[k.j].printTime && !Active(w, moves[k.j])
    ensures ActiveDone(w, moves, Low(moves, from), flush, AfterPost(w, moves, from, flush, k))
  {
    var k' := AfterPost(w, moves, from, flush, k);
    forall i, t: real | 0 <= i < k'.j && Active(w, moves[i]) && Near(w, moves[i], t) && Low(moves, from) <= t < Min(flush, k'.at)
      ensures Covered(k'.handed, t)
    {
      assert i < k.j && End(moves[i]) <= k.last;
      PostCovers(w, moves, from, flush, k, t);
    }
  }

  lemma PostPreDone(w: Window, moves: seq<Move>, from: real, flush: real, k: Walk)
    requires WalkOk(w, moves, from, flush, k)
    requires k.j < |moves| && k.at == moves[k.j].printTime && moves[k.j].moveT >= 0.0 && k.at < Force(w, k)
    ensures PreDone(w, Low(moves, from), flush, AfterPost(w, moves, from, flush, k))
    ensures PostDone(w, Low(moves, from), flush, AfterPost(w, moves, from, flush, k))
  {
    var k' := AfterPost(w, moves, from, flush, k);
    forall t: real | Low(moves, from) <= t < Min(flush, k'.run) && k'.at - w.pre < t ensures Covered(k'.handed, t) {
      PostCovers(w, moves, from, flush, k, t);
    }
    forall t: real | Max(Low(moves, from), k'.last) <= t < Min(flush, k'.at) && t < Force(w, k') ensures Covered(k'.handed, t) {
      PostCovers(w, moves, from, flush, k, t);
    }
  }

  /** An inactive move that begins in the forced stretch is handed over up to its end. */
  lemma PostStep(w: Window, moves: seq<Move>, from: real, flush: real, k: Walk)
    requires WalkOk(w, moves, from, flush, k) && w.pre >= 0.0 && w.post >= 0.0
    requires k.j < |moves| && k.at == moves[k.j].printTime && moves[k.j].moveT >= 0.0
    requires !Active(w, moves[k.j]) && k.at < Force(w, k)
    ensures WalkOk(w, moves, from, flush, AfterPost(w, moves, from, flush, k))
  {
    var m := moves[k.j];
    var k' := AfterPost(w, moves, from, flush, k);
    PostActiveDone(w, moves, from, flush, k);
    PostPreDone(w, moves, from, flush, k);
    HandedInOrder(k.handed, m, from, Min(Force(w, k), flush), Max(from, Min(flush, k.at)), Max(from, Max(k'.run, Force(w, k'))));
    HandedInOrder(k.handed, m, from, Min(Force(w, k), flush), Max(from, Min(flush, k.at)), Max(from, Min(flush, k'.at)));
  }

  /** All the time shortly before move j has been handed over. */
  ghost predicate LeadDone(w: Window, low: real, flush: real, at: real, handed: seq<Interval>) {
    forall t: real :: low <= t < Min(flush, at) && at - w.pre < t ==> Covered(handed, t)
  }

  /** An active move is handed over whole. */
  lemma ActiveStep(w: Window, moves: seq<Move>, from: real, flush: real, k: Walk, handed: seq<Interval>)
    requires WalkOk(w, moves, from, flush, k) && w.pre >= 0.0 && w.post >= 0.0
    requires k.j < |moves| && k.at == moves[k.j].printTime && moves[k.j].moveT >= 0.0 && from < End(moves[k.j])
    requires k.handed <= handed && LeadDone(w, Low(moves, from), flush, k.at, handed)
    requires InOrder(handed, Max(from, Min(flush, k.at)))
    requires Active(w, moves[k.j]) && End(moves[k.j]) < flush
    ensures var m := moves[k.j];
      WalkOk(w, moves, from, flush, Walk(k.j + 1, End(m), End(m), End(m), handed + Handed(m, from, flush)))
  {
    var m := moves[k.j];
    var more := Handed(m, from, flush);
    var k' := Walk(k.j + 1, End(m), End(m), End(m), handed + more);
    forall i, t: real | 0 <= i < k'.j && Active(w, moves[i]) && Near(w, moves[i], t) && Low(moves, from) <= t < Min(flush, k'.at)
      ensures Covered(k'.handed, t)
    {
      CoveredByActive(w, moves, from, flush, k, handed, i, t);
    }
    forall t: real | Low(moves, from) <= t < Min(flush, k'.run) && k'.at - w.pre < t
      ensures Covered(k'.handed, t)
    {
      CoveredByActive(w, moves, from, flush, k, handed, k.j, t);
    }
    HandedInOrder(handed, m, from, flush, Max(from, Min(flush, k.at)), Max(from, Max(k'.run, Force(w, k'))));
    HandedInOrder(handed, m, from, flush, Max(from, Min(flush, k.at)), Max(from, Min(flush, k'.at)));
  }

  /** With move j active and handed over, all that any move up to j needs before its end is covered. */
  lemma CoveredByActive(w: Window, moves: seq<Move>, from: real, flush: real, k: Walk, handed: seq<Interval>, i: nat, t: real)
    requires WalkOk(w, moves, from, flush, k) && k.j < |moves| && k.at == moves[k.j].printTime
    requires k.handed <= handed && LeadDone(w, Low(moves, from), flush, k.at, handed)
    requires i <= k.j && Active(w, moves[i]) && Low(moves, from) <= t < Min(flush, End(moves[k.j]))
    requires if i < k.j then Near(w, moves[i], t) else moves[k.j].printTime - w.pre < t
    ensures Covered(handed + Handed(moves[k.j], from, flush), t)
  {
    var m := moves[k.j];
    if t >= k.at {
      HandedCovers(handed, m, from, flush, t);
    } else if i < k.j {
      assert Covered(k.handed, t);
      CoveredGrows(k.handed, handed[|k.handed|..], t);
      assert k.handed + handed[|k.handed|..] == handed;
      CoveredGrows(handed, Handed(m, from, flush), t);
    } else {
      CoveredGrows(handed, Handed(m, from, flush), t);
    }
  }

  // ------------------------------------------------------------------ the steps before an activity

  /** Moves of the run before j, handed over from absStart on, one by one. */
  ghost predicate LeadLoop(moves: seq<Move>, first: nat, pm: nat, absStart: real, flush: real, handed: seq<Interval>)
    requires first <= pm < |moves|
  {
    forall t: real :: Max(absStart, moves[first].printTime) <= t < Min(flush, moves[pm].printTime) ==> Covered(handed, t)
  }

  lemma LeadStep(moves: seq<Move>, first: nat, pm: nat, absStart: real, flush: real, handed: seq<Interval>)
    requires GapFree(moves) && first <= pm && pm + 1 < |moves| && LeadLoop(moves, first, pm, absStart, flush, handed)
    ensures LeadLoop(moves, first, pm + 1, absStart, flush, handed + Handed(moves[pm], absStart, flush))
  {
    var m := moves[pm];
    var all := handed + Handed(m, absStart, flush);
    StartsGrow(moves, first, pm);
    forall t: real | Max(absStart, moves[first].printTime) <= t < Min(flush, moves[pm + 1].printTime)
      ensures Covered(all, t)
    {
      assert End(m) == moves[pm + 1].printTime;
      if t < m.printTime {
        CoveredGrows(handed, Handed(m, absStart, flush), t);
      } else {
        HandedCovers(handed, m, absStart, flush, t);
      }
    }
  }

  function AbsStart(w: Window, from: real, k: Walk): real { Max(Max(k.at - w.pre, from), Force(w, k)) }

  /** Handing over the run from `first` on completes the lead of move j. */
  lemma LeadComplete(w: Window, moves: seq<Move>, from: real, flush: real, k: Walk, first: nat, handed: seq<Interval>)
    requires WalkOk(w, moves, from, flush, k) && k.j < |moves| && k.at == moves[k.j].printTime && first <= k.j
    requires Active(w, moves[k.j]) && k.handed <= handed && LeadLoop(moves, first, k.j, AbsStart(w, from, k), flush, handed)
    requires moves[first].printTime <= k.run || moves[first].printTime <= AbsStart(w, from, k)
    ensures LeadDone(w, Low(moves, from), flush, k.at, handed)
  {
    forall t: real | Low(moves, from) <= t < Min(flush, k.at) && k.at - w.pre < t
      ensures Covered(handed, t)
    {
      if t < k.run || t < Force(w, k) {
        assert Covered(k.handed, t);
        CoveredGrows(k.handed, handed[|k.handed|..], t);
        assert k.handed + handed[|k.handed|..] == handed;
      }
    }
  }

  /** Without moves passed over, or without a lead, there is nothing to hand over first. */
  lemma NoLead(w: Window, moves: seq<Move>, from: real, flush: real, k: Walk)
    requires WalkOk(w, moves, from, flush, k) && (k.run == k.at || w.pre == 0.0)
    requires k.j < |moves| && Active(w, moves[k.j])
    ensures LeadDone(w, Low(moves, from), flush, k.at, k.handed)
  {
  }

  // ------------------------------------------------------------------ the ends of the walk

  /** The walk ends at an active move that lasts to the flush time. */
  lemma EndActive(w: Window, moves: seq<Move>, from: real, flush: real, k: Walk, handed: seq<Interval>)
    requires WalkOk(w, moves, from, flush, k) && Walkable(w, moves, flush)
    requires k.j < |moves| && k.at == moves[k.j].printTime
    requires k.handed <= handed && LeadDone(w, Low(moves, from), flush, k.at, handed)
    requires InOrder(handed, Max(from, Min(flush, k.at)))
    requires Active(w, moves[k.j]) && End(moves[k.j]) >= flush
    ensures var all := handed + Handed(moves[k.j], from, flush);
      Complete(w, moves, all, Low(moves, from), flush) && InOrder(all, flush)
  {
    var all := handed + Handed(moves[k.j], from, flush);
    forall i, t: real | 0 <= i < |moves| && Active(w, moves[i]) && Near(w, moves[i], t) && Low(moves, from) <= t < flush
      ensures Covered(all, t)
    {
      if i > k.j {
        StartsGrow(moves, k.j, i);
      }
      CoveredByActive(w, moves, from, flush, k, handed, if i < k.j then i else k.j, t);
    }
    HandedInOrder(handed, moves[k.j], from, flush, Max(from, Min(flush, k.at)), flush);
  }

  /** The walk ends after an inactive move that lasts beyond the flush time and the scan window. */
  lemma EndInactive(w: Window, moves: seq<Move>, from: real, flush: real, k: Walk)
    requires WalkOk(w, moves, from, flush, k) && Walkable(w, moves, flush)
    requires 0 < k.j && k.at == End(moves[k.j - 1]) && flush + w.pre <= k.at
    ensures Complete(w, moves, k.handed, Low(moves, from), flush) && InOrder(k.handed, flush)
    ensures Remembers(w, moves, k.last, flush)
  {
    forall i | k.j <= i < |moves|
      ensures k.at <= moves[i].printTime
    {
      StartsGrow(moves, k.j - 1, i);
    }
  }

  lemma CompleteLater(w: Window, moves: seq<Move>, handed: seq<Interval>, from: real, later: real, flush: real)
    requires Complete(w, moves, handed, from, flush) && from <= later
    ensures Complete(w, moves, handed, later, flush)
  {
  }

  /** Nothing before the start of the list can be handed over, so all that is needed has been handed
      over exactly when the list starts in time. */
  lemma ExactlyInTime(w: Window, moves: seq<Move>, before: seq<Interval>, handed: seq<Interval>, from: real, flush: real)
    requires |moves| > 0 && GapFree(moves) && w.pre >= 0.0 && w.post >= 0.0
    requires InOrder(before, from) && Since(before, handed, moves[0].printTime)
    requires Complete(w, moves, handed, Low(moves, from), flush)
    ensures Complete(w, moves, handed, from, flush) <==> StartsInTime(w, moves, from, flush)
  {
    var base := moves[0].printTime;
    if !StartsInTime(w, moves, from, flush) {
      var i :| 0 <= i < |moves| && Active(w, moves[i]) && Min(flush, base) > moves[i].printTime - w.pre;
      StartsGrow(moves, 0, i);
      var t := (Max(from, moves[i].printTime - w.pre) + Min(flush, base)) / 2.0;
      assert Near(w, moves[i], t) && from < t < flush && !Covered(handed, t);
    } else {
      forall i, t: real | 0 <= i < |moves| && Active(w, moves[i]) && Near(w, moves[i], t) && from <= t < flush
        ensures Covered(handed, t)
      {
        assert t >= Low(moves, from);
      }
    }
  }

  // ------------------------------------------------------------------ itersolve_generate_steps

  class StepperKinematics {
    const w: Window
    var lastFlushTime: real
    var lastMoveTime: real
    ghost var handed: seq<Interval> // the ranges given to the solver so far
    ghost const origin: real

    constructor (w: Window, flush: real)
      ensures this.w == w && lastFlushTime == lastMoveTime == origin == flush && handed == []
    {
      this.w := w;
      lastFlushTime, lastMoveTime, origin := flush, flush, flush;
      handed := [];
    }

    /** Everything needed up to the last flush was handed over, in order and without overlap. */
    ghost predicate Sound(moves: seq<Move>)
      reads this
    {
      && Complete(w, moves, handed, origin, lastFlushTime)
      && InOrder(handed, lastFlushTime)
      && Remembers(w, moves, lastMoveTime, lastFlushTime)
      && origin <= lastFlushTime
    }

    /** itersolve_gen_steps_range on one range; it may fail. */
    method GenStepsRange(m: Move, absStart: real, absEnd: real) returns (ret: int)
      modifies this`handed
      ensures handed == old(handed) + Handed(m, absStart, absEnd)
    {
      handed := handed + Handed(m, absStart, absEnd);
      ret := *;
    }

    /** The first of the moves passed over that reaches back to absStart. */
    static method FindLead(moves: seq<Move>, j: nat, skip: nat, absStart: real) returns (first: nat)
      requires 0 < skip <= j < |moves|
      ensures j - skip <= first < j
      ensures first == j - skip || moves[first].printTime <= absStart
    {
      var left := skip - 1;
      first := j - 1;
      while left != 0 && moves[first].printTime > absStart
        invariant 0 <= left <= skip - 1 && first == j - skip + left
        decreases left
      {
        first, left := first - 1, left - 1;
      }
    }

    /** Hands over moves first..j from absStart on, one by one. */
    method GenRun(moves: seq<Move>, first: nat, j: nat, absStart: real, flush: real, ghost floor: real, ghost cap: real)
      returns (ret: int)
      requires GapFree(moves) && first < j < |moves|
      requires floor <= Max(absStart, moves[first].printTime) && Min(flush, moves[j].printTime) <= cap
      requires InOrder(handed, floor) && InOrder(handed, cap)
      modifies this`handed
      ensures Since(old(handed), handed, moves[0].printTime) && InOrder(handed, cap)
      ensures ret == 0 ==> LeadLoop(moves, first, j, absStart, flush, handed)
    {
      var pm := first;
      ghost var low := floor; // where the handed ranges end
      while true
        invariant first <= pm < j && Since(old(handed), handed, moves[0].printTime)
        invariant LeadLoop(moves, first, pm, absStart, flush, handed)
        invariant InOrder(handed, low) && InOrder(handed, cap) && low <= Max(absStart, moves[pm].printTime)
        decreases j - pm
      {
        LeadStep(moves, first, pm, absStart, flush, handed);
        StartsGrow(moves, pm, j);
        StartsGrow(moves, 0, pm);
        ghost var next := Max(low, Min(flush, End(moves[pm])));
        HandedInOrder(handed, moves[pm], absStart, flush, low, next);
        HandedInOrder(handed, moves[pm], absStart, flush, low, cap);
        ret := GenStepsRange(moves[pm], absStart, flush);
        low := next;
        if ret != 0 {
          return;
        }
        pm := pm + 1;
        if pm == j {
          return 0;
        }
      }
    }

    /** The moves passed over just before the active move j, from its lead time on. */
    method GenLead(moves: seq<Move>, from: real, flush: real, ghost k: Walk, j: nat, skip: nat, force: real) returns (ret: int)
      requires GapFree(moves) && WalkOk(w, moves, from, flush, k) && handed == k.handed
      requires 0 < skip <= j == k.j < |moves| && k.at == moves[j].printTime && k.run == moves[j - skip].printTime
      requires force == Force(w, k) && Active(w, moves[j])
      modifies this`handed
      ensures Since(k.handed, handed, moves[0].printTime) && InOrder(handed, Max(from, Min(flush, k.at)))
      ensures ret == 0 ==> LeadDone(w, Low(moves, from), flush, k.at, handed)
    {
      var absStart := moves[j].printTime - w.pre;
      if absStart < from {
        absStart := from;
      }
      if absStart < force {
        absStart := force;
      }
      var first := FindLead(moves, j, skip, absStart);
      StartsGrow(moves, j - skip, first);
      ret := GenRun(moves, first, j, absStart, flush, Max(from, Max(k.run, Force(w, k))), Max(from, Min(flush, k.at)));
      if ret == 0 {
        LeadComplete(w, moves, from, flush, k, first, handed);
      }
    }

    /** The first move that is not over at `from`. */
    static method FindStart(moves: seq<Move>, from: real) returns (j: nat)
      requires |moves| > 0 && GapFree(moves) && from < End(moves[|moves| - 1])
      ensures j < |moves| && from < End(moves[j]) && (j > 0 ==> moves[j].printTime <= from)
      ensures forall i :: 0 <= i < j ==> End(moves[i]) <= from
    {
      j := 0;
      while from >= End(moves[j])
        invariant j < |moves| && (j > 0 ==> moves[j].printTime <= from)
        invariant forall i :: 0 <= i < j ==> End(moves[i]) <= from
        decreases |moves| - j
      {
        j := j + 1;
      }
    }

    /** An inactive move: handed over if it begins in the forced stretch, passed over otherwise. */
    method PassInactive(moves: seq<Move>, from: real, flush: real, j: nat, skip: nat, force: real, ghost k: Walk)
      returns (ret: int, skip': nat, ghost k': Walk)
      requires Walkable(w, moves, flush) && WalkOk(w, moves, from, flush, k) && handed == k.handed
      requires k.j == j < |moves| && k.at == moves[j].printTime && skip <= j && k.run == moves[j - skip].printTime
      requires force == Force(w, k) && !Active(w, moves[j])
      modifies this`handed
      ensures WalkOk(w, moves, from, flush, k') && handed == k'.handed && Since(k.handed, k'.handed, moves[0].printTime)
      ensures k'.j == j + 1 && k'.at == End(moves[j]) && k'.last == k.last
      ensures 1 <= skip' <= j + 1 && k'.run == moves[j + 1 - skip'].printTime
    {
      hide WalkOk, Active;
      StartsGrow(moves, 0, j);
      if moves[j].printTime < force {
        PostStep(w, moves, from, flush, k);
        k' := AfterPost(w, moves, from, flush, k);
        var absEnd := force;
        if absEnd > flush {
          absEnd := flush;
        }
        ret := GenStepsRange(moves[j], from, absEnd);
        skip' := 1;
      } else {
        SkipStep(w, moves, from, flush, k);
        k' := k.(j := j + 1, at := End(moves[j]));
        ret, skip' := 0, skip + 1;
      }
    }

    /** An active move: the lead of the moves passed over, then the move itself. */
    method PassActive(moves: seq<Move>, from: real, flush: real, j: nat, skip: nat, force: real, ghost k: Walk)
      returns (ret: int, ghost lead: seq<Interval>)
      requires Walkable(w, moves, flush) && WalkOk(w, moves, from, flush, k) && handed == k.handed
      requires k.j == j < |moves| && k.at == moves[j].printTime && skip <= j && k.run == moves[j - skip].printTime
      requires force == Force(w, k) && Active(w, moves[j])
      modifies this`handed
      ensures k.handed <= lead && InOrder(lead, Max(from, Min(flush, k.at))) && Since(k.handed, handed, moves[0].printTime)
      ensures ret == 0 ==> LeadDone(w, Low(moves, from), flush, k.at, lead)
      ensures handed == lead || handed == lead + Handed(moves[j], from, flush)
      ensures ret == 0 ==> handed == lead + Handed(moves[j], from, flush)
    {
      StartsGrow(moves, 0, j);
      if skip != 0 && w.pre != 0.0 {
        ret := GenLead(moves, from, flush, k, j, skip, force);
        lead := handed;
        if ret != 0 {
          return;
        }
      } else {
        NoLead(w, moves, from, flush, k);
        lead := handed;
      }
      ret := GenStepsRange(moves[j], from, flush);
    }

    lemma InOrderUpTo(handed: seq<Interval>, m: Move, from: real, flush: real, at: real)
      requires InOrder(handed, Max(from, Min(flush, at))) && at == m.printTime && from <= flush
      ensures InOrder(handed, flush) && InOrder(handed + Handed(m, from, flush), flush)
    {
      HandedInOrder(handed, m, from, flush, Max(from, Min(flush, at)), flush);
    }

    lemma CompleteJoin(moves: seq<Move>, a: seq<Interval>, b: seq<Interval>, from: real, mid: real, to: real)
      requires Complete(w, moves, a, from, mid) && Complete(w, moves, b, mid, to) && a <= b
      ensures Complete(w, moves, b, from, to)
    {
      forall i, t: real | 0 <= i < |moves| && Active(w, moves[i]) && Near(w, moves[i], t) && from <= t < to
        ensures Covered(b, t)
      {
        if t < mid {
          CoveredGrows(a, b[|a|..], t);
          assert a + b[|a|..] == b;
        }
      }
    }

    /** The local variables of the walk stand for walk k, and its next move is not over at `from`. */
    ghost predicate At(moves: seq<Move>, from: real, flush: real, j: nat, skip: nat, force: real, k: Walk)
      reads this
    {
      && WalkOk(w, moves, from, flush, k) && handed == k.handed && k.last == lastMoveTime && force == Force(w, k)
      && k.j == j < |moves| && k.at == moves[j].printTime && from < End(moves[j])
      && skip <= j && k.run == moves[j - skip].printTime
    }

    ghost function FirstWalk(moves: seq<Move>, from: real, j: nat): Walk
      requires j < |moves|
      reads this
    {
      var start := moves[j].printTime;
      Walk(j, start, start, lastMoveTime, handed)
    }

    lemma WalkStart(moves: seq<Move>, from: real, flush: real, j: nat)
      requires Walkable(w, moves, flush) && from <= flush && InOrder(handed, from)
      requires Remembers(w, moves, lastMoveTime, from)
      requires j < |moves| && from < End(moves[j]) && (j > 0 ==> moves[j].printTime <= from)
      requires forall i :: 0 <= i < j ==> End(moves[i]) <= from
      ensures At(moves, from, flush, j, 0, lastMoveTime + w.post, FirstWalk(moves, from, j))
    {
      forall i | 0 <= i <= j ensures moves[0].printTime <= moves[i].printTime {
        StartsGrow(moves, 0, i);
      }
    }

    /** One turn of the walk.  Unless it fails or is done, the walk goes on at the next move. */
    method Turn(moves: seq<Move>, from: real, flush: real, j: nat, skip: nat, force: real, ghost k: Walk)
      returns (ret: int, done: bool, skip': nat, force': real, ghost k': Walk)
      requires Walkable(w, moves, flush) && At(moves, from, flush, j, skip, force, k)
      modifies this`handed, this`lastMoveTime
      ensures Since(old(handed), handed, moves[0].printTime)
      ensures ret != 0 || done ==> InOrder(handed, flush)
      ensures ret == 0 && done ==>
        Complete(w, moves, handed, Low(moves, from), flush) && Remembers(w, moves, lastMoveTime, flush)
      ensures ret == 0 && !done ==> At(moves, from, flush, j + 1, skip', force', k')
    {
      hide LeadDone, Complete, PostDone, ActiveDone, PreDone, Reached, Handed;
      var moveEnd := moves[j].printTime + moves[j].moveT;
      skip', force', k', done := 0, force, k, false;
      if Active(w, moves[j]) {
        ghost var lead;
        ret, lead := PassActive(moves, from, flush, j, skip, force, k);
        InOrderUpTo(lead, moves[j], from, flush, k.at);
        if ret == 0 {
          if moveEnd >= flush {
            EndActive(w, moves, from, flush, k, lead);
            lastMoveTime, done := flush, true;
          } else {
            ActiveStep(w, moves, from, flush, k, lead);
            lastMoveTime := moveEnd;
            force' := moveEnd + w.post;
            k' := Walk(j + 1, moveEnd, moveEnd, moveEnd, handed);
          }
        }
      } else {
        ret, skip', k' := PassInactive(moves, from, flush, j, skip, force, k);
        if flush + w.pre <= moveEnd {
          EndInactive(w, moves, from, flush, k');
          done := true;
        }
      }
    }

    /** itersolve_generate_steps: hands over what lies between the last flush time and this one, as far
        as the list reaches back. */
    method GenerateSteps(moves: seq<Move>, flushTime: real) returns (ret: int)
      requires Walkable(w, moves, flushTime) && Sound(moves) && lastFlushTime <= flushTime
      modifies this
      ensures lastFlushTime == flushTime && old(handed) <= handed && InOrder(handed, flushTime)
      ensures ret == 0 ==> Complete(w, moves, handed, Low(moves, old(lastFlushTime)), flushTime)
      ensures ret == 0 ==> (Sound(moves) <==> StartsInTime(w, moves, old(lastFlushTime), flushTime))
    {
      hide Complete, InOrder, Remembers;
      var from := lastFlushTime;
      ghost var handed0 := handed;
      lastFlushTime := flushTime;
      var j := FindStart(moves, from);
      var force, skip: nat, done := lastMoveTime + w.post, 0, false;
      ghost var k := FirstWalk(moves, from, j);
      WalkStart(moves, from, flushTime, j);
      while !done
        invariant lastFlushTime == flushTime && Since(handed0, handed, moves[0].printTime)
        invariant !done ==> j < |moves| && At(moves, from, flushTime, j, skip, force, k)
        invariant done ==> InOrder(handed, flushTime)
        invariant done ==> Complete(w, moves, handed, Low(moves, from), flushTime) && Remembers(w, moves, lastMoveTime, flushTime)
        decreases |moves| - j, !done
      {
        ret, done, skip, force, k := Turn(moves, from, flushTime, j, skip, force, k);
        if ret != 0 {
          return;
        }
        j := j + 1;
      }
      ExactlyInTime(w, moves, handed0, handed, from, flushTime);
      if StartsInTime(w, moves, from, flushTime) {
        CompleteJoin(moves, handed0, handed, origin, from, flushTime);
      } else if Complete(w, moves, handed, origin, flushTime) {
        CompleteLater(w, moves, handed, origin, from, flushTime);
      }
      return 0;
    }
  }
}
