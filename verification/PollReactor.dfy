/** klippy/chelper/pollreactor.c: timers of the serial thread.  Callbacks may set any timer. */
module PollReactor {
  const NEVER := 9999999999999999.0

  /** What a callback does: it sets some timers, and its own to the time it returns. */
  datatype Callback = Callback(updates: seq<(nat, real)>, next: real)

  class PollReactor {
    const timers: array<real> // wake-up times
    var nextTimer: real
    ghost var ran: seq<nat>   // the timers whose callbacks were called by the last check

    constructor (n: nat)
      ensures Valid() && fresh(timers) && timers.Length == n && forall i :: 0 <= i < n ==> timers[i] == NEVER
    {
      timers := new real[n](i => NEVER);
      nextTimer, ran := NEVER, [];
    }

    /** next_timer is never later than any wake-up time. */
    ghost predicate Valid()
      reads this, timers
    {
      forall i :: 0 <= i < timers.Length ==> nextTimer <= timers[i]
    }

    /** pollreactor_update_timer. */
    method UpdateTimer(pos: nat, waketime: real)
      requires pos < timers.Length
      modifies this`nextTimer, timers
      ensures timers[..] == old(timers[..])[pos := waketime]
      ensures nextTimer == if waketime < old(nextTimer) then waketime else old(nextTimer)
      ensures old(Valid()) ==> Valid()
    {
      timers[pos] := waketime;
      if waketime < nextTimer {
        nextTimer := waketime;
      }
    }

    /** pollreactor_check_timers; callbacks[i] is what the callback of timer i does if it is called. */
    method CheckTimers(eventTime: real, busy: bool, callbacks: seq<Callback>) returns (timeout: int)
      requires Valid() && |callbacks| == timers.Length
      modifies this, timers
      ensures Valid()
      ensures eventTime < old(nextTimer) ==> ran == [] && timers[..] == old(timers[..]) && nextTimer == old(nextTimer)
      ensures forall i :: 0 <= i < timers.Length && old(timers[i]) <= eventTime && Untouched(callbacks, i) ==> i in ran
      ensures timeout == 0 <==> busy || ran != []
      ensures 0 <= timeout <= 1000
      ensures timeout > 1 ==> eventTime + (timeout - 1) as real / 1000.0 < nextTimer
    {
      ran := [];
      var any := busy;
      if eventTime >= nextTimer {
        any := RunTimers(eventTime, busy, callbacks);
      }
      if any {
        return 0;
      }
      var ticks := Ceiling((nextTimer - eventTime) * 1000.0);
      timeout := if ticks < 1 then 1 else if ticks > 1000 then 1000 else ticks;
    }

    /** Finds and runs the timers that are due. */
    method RunTimers(eventTime: real, busy: bool, callbacks: seq<Callback>) returns (any: bool)
      requires |callbacks| == timers.Length && ran == []
      modifies this, timers
      ensures Valid() && any == (busy || ran != [])
      ensures forall i :: 0 <= i < timers.Length && old(timers[i]) <= eventTime && Untouched(callbacks, i) ==> i in ran
    {
      nextTimer, any := NEVER, busy;
      for i := 0 to timers.Length
        invariant (forall k :: 0 <= k < i ==> nextTimer <= timers[k]) && any == (busy || ran != [])
        invariant forall k :: i <= k < timers.Length && Untouched(callbacks, k) ==> timers[k] == old(timers[k])
        invariant forall k :: 0 <= k < i && old(timers[k]) <= eventTime && Untouched(callbacks, k) ==> k in ran
      {
        var t := timers[i];
        if eventTime >= t {
          any, ran := true, ran + [i];
          CallOne(callbacks, i);
          t := callbacks[i].next;
          timers[i] := t;
        }
        if t < nextTimer {
          nextTimer := t;
        }
      }
    }

    /** The callback of timer i; the timers before i that it sets are taken into account. */
    method CallOne(callbacks: seq<Callback>, i: nat)
      requires i < |callbacks| == timers.Length && forall k :: 0 <= k < i ==> nextTimer <= timers[k]
      modifies this`nextTimer, timers
      ensures forall k :: 0 <= k < i ==> nextTimer <= timers[k]
      ensures forall k :: 0 <= k < timers.Length && Untouched(callbacks, k) ==> timers[k] == old(timers[k])
    {
      var c := callbacks[i];
      for j := 0 to |c.updates|
        invariant forall k :: 0 <= k < i ==> nextTimer <= timers[k]
        invariant forall k :: 0 <= k < timers.Length && Untouched(callbacks, k) ==> timers[k] == old(timers[k])
      {
        var (pos, waketime) := c.updates[j];
        if pos < timers.Length {
          UpdateTimer(pos, waketime);
        }
      }
    }
  }

  /** No callback sets timer k, apart from its own. */
  predicate Untouched(callbacks: seq<Callback>, k: nat) {
    forall i, j :: 0 <= i < |callbacks| && 0 <= j < |callbacks[i].updates| ==> callbacks[i].updates[j].0 != k
  }

  function Ceiling(x: real): (n: int)
    ensures (n - 1) as real < x <= n as real
  {
    -((-x).Floor)
  }
}
