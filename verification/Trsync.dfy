/** src/trsync.c: a trigger that stops every stepper attached to it, once. */
module Trsync {
  import opened Timer32
  import opened MovePool
  import opened Stepper

  function At(list: seq<Stepper>, i: nat): Stepper? { if i < |list| then list[i] else null }

  /** The signals from `head` on, in order; no stepper is listed twice. */
  ghost predicate Linked(head: Stepper?, list: seq<Stepper>)
    reads list
  {
    && Apart(list) && head == At(list, 0)
    && (forall i :: 0 <= i < |list| ==> list[i].armed && list[i].signalNext == At(list, i + 1))
  }

  predicate Apart(list: seq<Stepper>) { forall i, j :: 0 <= i < j < |list| ==> list[i] != list[j] }

  lemma ApartFrom(list: seq<Stepper>, k: nat)
    requires Apart(list) && k < |list|
    ensures forall i :: 0 <= i < |list| && i != k ==> list[i] != list[k]
  {
  }

  ghost predicate Attached(list: seq<Stepper>, pool: Pool)
    reads list
  {
    forall s <- list :: s.Valid() && s.pool == pool
  }

  /** The nodes in the queue of each stepper. */
  ghost function Loads(list: seq<Stepper>): (q: seq<multiset<nat>>)
    reads list
    ensures |q| == |list| && forall i :: 0 <= i < |list| ==> q[i] == Nodes(list[i].r.queue)
  {
    if |list| == 0 then []
    else Loads(list[..|list| - 1]) + [Nodes(list[|list| - 1].r.queue)]
  }

  function Sum(q: seq<multiset<nat>>): multiset<nat> {
    if |q| == 0 then multiset{} else Sum(q[..|q| - 1]) + q[|q| - 1]
  }

  lemma SumNext(q: seq<multiset<nat>>, k: nat)
    requires k < |q|
    ensures Sum(q[..k + 1]) == Sum(q[..k]) + q[k]
  {
    assert q[..k + 1][..k] == q[..k];
  }

  lemma SumEnds(q: seq<multiset<nat>>)
    ensures Sum(q[..0]) == multiset{} && Sum(q[..|q|]) == Sum(q)
  {
    assert q[..|q|] == q;
  }

  /** A stepper whose signal had been called with the reasons `fired`, and that had issued the steps
      `log`, has been called once more, with this reason, and has stopped. */
  ghost predicate Stopped(s: Stepper, fired: seq<int>, log: seq<Edge>, reason: int)
    reads s
  {
    && s.fired == fired + [reason] && !s.armed && s.signalNext == null
    && s.Valid() && Halted(s.r) && s.g.log == log == s.g.plan
  }

  /** struct trsync, but for its signals; the two timers are given by whether they are set and when
      they are due. */
  datatype Flags = Flags(canTrigger: bool, report: bool, triggerReason: int, expireReason: int,
                         reportLive: bool, expireLive: bool, reportWake: uint32, reportTicks: uint32, expireWake: uint32)

  /** The reasons the signals were called with so far, and the steps their steppers have issued. */
  ghost function Before(list: seq<Stepper>): (b: seq<(seq<int>, seq<Edge>)>)
    reads list
    ensures |b| == |list| && forall i :: 0 <= i < |list| ==> b[i] == (list[i].fired, list[i].g.log)
  {
    if |list| == 0 then []
    else Before(list[..|list| - 1]) + [(list[|list| - 1].fired, list[|list| - 1].g.log)]
  }

  /** All of them have been called once more, with this reason, and have stopped. */
  ghost predicate AllStopped(list: seq<Stepper>, was: seq<(seq<int>, seq<Edge>)>, reason: int)
    reads list
  {
    |was| == |list| && forall i :: 0 <= i < |list| ==> Stopped(list[i], was[i].0, was[i].1, reason)
  }

  /** A signal that has not been called yet, the one behind it, and what its stepper has done and holds. */
  ghost predicate Waiting(s: Stepper, next: Stepper?, was: (seq<int>, seq<Edge>), load: multiset<nat>, pool: Pool)
    reads s
  {
    && s.Valid() && s.pool == pool && s.signalNext == next
    && was == (s.fired, s.g.log) && load == Nodes(s.r.queue)
  }

  lemma AllWaiting(head: Stepper?, list: seq<Stepper>, pool: Pool)
    requires Linked(head, list) && Attached(list, pool)
    ensures head == At(list, 0) && Apart(list)
    ensures forall i :: 0 <= i < |list| ==> Waiting(list[i], At(list, i + 1), Before(list)[i], Loads(list)[i], pool)
  {
    hide Nodes, Stepper.Valid;
  }

  class Trsync {
    const pool: Pool
    var t: Flags
    var signals: Stepper?
    ghost var list: seq<Stepper>

    constructor (pool: Pool)
      ensures Valid() && list == [] && this.pool == pool && !t.canTrigger
    {
      this.pool := pool;
      t := Flags(false, false, 0, 0, false, false, 0, 0, 0);
      signals, list := null, [];
    }

    ghost predicate Valid()
      reads this, list
    {
      Linked(signals, list) && Attached(list, pool) && forall s <- list :: s as object != this && s as object != pool
    }

    /** One turn of the loop in trsync_do_trigger: the first signal is taken off and called. */
    method FireFirst(reason: int, ghost next: Stepper?, ghost was: (seq<int>, seq<Edge>), ghost load: multiset<nat>)
      requires signals != null && Waiting(signals, next, was, load, pool)
      modifies this`signals, signals, pool
      ensures signals == next
      ensures Stopped(old(signals), was.0, was.1, reason)
      ensures multiset(pool.free) == old(multiset(pool.free)) + load
    {
      hide Idle, Running, Nodes, Halted, Tracks, InRange;
      var s := signals;
      signals := s.signalNext;
      s.signalNext := null;
      s.armed := false;
      s.Stop();
      s.fired := s.fired + [reason];
    }

    /** The loop of trsync_do_trigger. */
    method Dispatch(reason: int)
      requires Valid()
      modifies this`signals, this`list, list, pool
      ensures list == [] && signals == null
      ensures AllStopped(old(list), old(Before(list)), reason)
      ensures multiset(pool.free) == old(multiset(pool.free) + Sum(Loads(list)))
    {
      hide Nodes, Stopped, Apart, Stepper.Valid, Sum, Loads, Before, Waiting, Linked, Attached;
      ghost var all, loads, was, free, k := list, Loads(list), Before(list), multiset(pool.free), 0;
      SumEnds(loads);
      AllWaiting(signals, all, pool);
      while signals != null
        invariant list == all && k <= |all| && signals == At(all, k)
        invariant forall i :: k <= i < |all| ==> Waiting(all[i], At(all, i + 1), was[i], loads[i], pool)
        invariant forall i :: 0 <= i < k ==> Stopped(all[i], was[i].0, was[i].1, reason)
        invariant multiset(pool.free) == free + Sum(loads[..k])
        decreases |all| - k
      {
        ApartFrom(all, k);
        SumNext(loads, k);
        FireFirst(reason, At(all, k + 1), was[k], loads[k]);
        k := k + 1;
      }
      list := [];
    }

    /** trsync_do_trigger: the first trigger stops all steppers with its reason; others do nothing. */
    method DoTrigger(reason: int)
      requires Valid()
      modifies this, list, pool
      ensures Valid()
      ensures !old(t.canTrigger) ==> unchanged(this) && unchanged(pool) && forall s <- list :: unchanged(s)
      ensures old(t.canTrigger) ==> t == old(t).(triggerReason := reason, canTrigger := false, report := true) && list == []
      ensures old(t.canTrigger) ==> AllStopped(old(list), old(Before(list)), reason)
      ensures old(t.canTrigger) ==> multiset(pool.free) == old(multiset(pool.free) + Sum(Loads(list)))
    {
      hide AllStopped, Stepper.Valid, Sum, Loads, Before, Linked, Attached;
      if !t.canTrigger {
        return;
      }
      t := t.(triggerReason := reason, canTrigger := false, report := true);
      Dispatch(reason);
      NothingAttached(pool);
    }

    /** trsync_expire_event: the timeout triggers with its own reason. */
    method ExpireEvent()
      requires Valid() && t.expireLive
      modifies this, list, pool
      ensures Valid() && !t.expireLive && !t.canTrigger
      ensures t.triggerReason == old(if t.canTrigger then t.expireReason else t.triggerReason)
      ensures old(t.canTrigger) ==> AllStopped(old(list), old(Before(list)), old(t.expireReason))
    {
      hide AllStopped, Stepper.Valid, Before, Linked, Attached;
      t := t.(expireLive := false);
      DoTrigger(t.expireReason);
    }

    /** trsync_report_event. */
    method ReportEvent()
      requires Valid() && t.reportLive
      modifies this`t
      ensures Valid() && t == old(t).(report := true, reportWake := Wrap(old(t.reportWake) + t.reportTicks))
    {
      t := t.(report := true, reportWake := Wrap(t.reportWake + t.reportTicks));
    }

    /** trsync_add_signal; a signal that is already waiting makes it a shutdown. */
    method AddSignal(s: Stepper) returns (ok: bool)
      requires Valid() && s.Valid() && s.pool == pool
      modifies this`signals, this`list, s`signalNext, s`armed
      ensures ok <==> !old(s.armed)
      ensures ok ==> Valid() && list == [s] + old(list) && s.armed
      ensures !ok ==> list == old(list) && signals == old(signals) && unchanged(s)
    {
      hide Idle, Running;
      if s.armed {
        return false;
      }
      s.armed := true;
      s.signalNext := signals;
      signals := s;
      list := [s] + list;
      ok := true;
    }

    /** trsync_clear: nothing is waiting any more, and no stepper is touched. */
    method Clear()
      requires Valid()
      modifies this, list`armed, list`signalNext
      ensures Valid() && list == [] && t == Flags(false, false, 0, 0, false, false, old(t.reportWake), old(t.reportTicks), old(t.expireWake))
      ensures forall s <- old(list) :: !s.armed && s.signalNext == null
    {
      hide Stepper.Valid, Apart, Attached;
      Disarm();
      signals, list := null, [];
      t := t.(canTrigger := false, report := false, triggerReason := 0, expireReason := 0, reportLive := false, expireLive := false);
      NothingAttached(pool);
    }

    /** The loop of trsync_clear. */
    method Disarm()
      requires Linked(signals, list)
      modifies list`armed, list`signalNext
      ensures forall s <- list :: !s.armed && s.signalNext == null
    {
      hide Apart;
      ghost var k := 0;
      var s := signals;
      while s != null
        invariant k <= |list| && s == At(list, k)
        invariant forall i :: k <= i < |list| ==> unchanged(list[i])
        invariant forall i :: 0 <= i < k ==> !list[i].armed && list[i].signalNext == null
        decreases |list| - k
      {
        ApartFrom(list, k);
        var next := s.signalNext;
        s.armed := false;
        s.signalNext := null;
        s := next;
        k := k + 1;
      }
    }

    /** command_trsync_start. */
    method Start(reportClock: uint32, ticks: uint32, reason: int)
      requires Valid()
      modifies this, list`armed, list`signalNext
      ensures Valid() && list == [] && t == Flags(true, false, 0, reason, ticks != 0, false, reportClock, ticks, old(t.expireWake))
      ensures forall s <- old(list) :: !s.armed && s.signalNext == null
    {
      hide Stepper.Valid;
      t := t.(reportWake := reportClock, reportTicks := ticks);
      Clear();
      t := t.(canTrigger := true, reportLive := ticks != 0, expireReason := reason);
    }

    /** command_trsync_set_timeout; without effect once triggered. */
    method SetTimeout(clock: uint32)
      requires Valid()
      modifies this`t
      ensures Valid() && t == if old(t.canTrigger) then old(t).(expireLive := true, expireWake := clock) else old(t)
    {
      if t.canTrigger {
        t := t.(expireLive := true, expireWake := clock);
      }
    }

    /** command_trsync_trigger: reports the reason of the first trigger. */
    method Trigger(reason: int) returns (first: int)
      requires Valid()
      modifies this, list, pool
      ensures Valid() && !t.canTrigger && !t.reportLive && !t.expireLive && !t.report
      ensures first == t.triggerReason == old(if t.canTrigger then reason else t.triggerReason)
      ensures old(t.canTrigger) ==> AllStopped(old(list), old(Before(list)), reason)
    {
      hide AllStopped, Stepper.Valid, Before, Linked, Attached;
      DoTrigger(reason);
      t := t.(reportLive := false, expireLive := false, canTrigger := false, report := false);
      first := t.triggerReason;
    }
  }

  lemma NothingAttached(pool: Pool)
    ensures Attached([], pool) && Apart([]) && Linked(null, [])
  {
  }
}
