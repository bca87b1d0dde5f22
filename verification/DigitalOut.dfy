/** src/gpiocmds.c: a digital output that may pulse, is changed by queued commands, and is watched so
    that it does not stay on for longer than a maximum time without a new command.  Waketimes are 32-bit
    numbers as the scheduler sees them: it compares one with that of the timer next in its list, and one that
    is before both that and the present is due at once. */
module DigitalOut {
  import opened Message
  import opened Timer32

  /** struct digital_move. */
  datatype Change = Change(waketime: uint32, onDuration: uint32)

  /** struct digital_out_s; `loadNext` tells which function its timer has, `live` whether it is set. */
  datatype Pin = Pin(waketime: uint32, onDuration: uint32, offDuration: uint32, endTime: uint32,
                     maxDuration: uint32, cycleTime: uint32, queue: seq<Change>,
                     on: bool, toggling: bool, checkEnd: bool, defaultOn: bool, live: bool, loadNext: bool)

  /** The same in times that do not wrap: the last event or command, the waketime as the scheduler reads it,
      and, for a pin that is watched, the latest time for the next load.  `late` is set when a change was
      already past when it was sent. */
  datatype Times = Times(since: int, wake: int, deadline: int, watched: bool, late: bool)

  type delay = n: int | 0 <= n < HALF

  // ------------------------------------------------------------------ readings of the clock

  /** The time for which a waketime stands in a list whose next timer is at `next`: one that is not before
      that timer is linked behind it. */
  function Reading(next: int, x: uint32): (r: int)
    ensures Wrap(r) == x && next - HALF <= r < next + HALF
    ensures r < next <==> IsBefore(x, Wrap(next))
  {
    var ahead := Off(Wrap(next), x);
    ReadingWraps(next, x);
    if ahead < HALF then next + ahead else next + ahead - WRAP
  }

  lemma ReadingWraps(now: int, x: uint32)
    ensures Wrap(now + Off(Wrap(now), x)) == x && Wrap(now + Off(Wrap(now), x) - WRAP) == x
  {
    WrapAdd(now, Off(Wrap(now), x));
    WrapAdd(x - Wrap(now), Wrap(now));
    WrapMultiple(now + Off(Wrap(now), x), -1);
  }

  lemma ReadingIs(next: int, r: int)
    requires next - HALF <= r < next + HALF
    ensures Reading(next, Wrap(r)) == r
  {
    WrapDifference(r, next);
  }

  /** A time too far back for the next timer reads as one after it. */
  lemma ReadingAhead(next: int, r: int)
    requires next - HALF - WRAP <= r < next - HALF
    ensures Reading(next, Wrap(r)) == r + WRAP
  {
    WrapMultiple(r, 1);
    ReadingIs(next, r + WRAP);
  }

  /** When the timer fires: when its time comes, or at once. */
  function Fires(g: Times): int { if g.wake > g.since then g.wake else g.since }

  // ------------------------------------------------------------------ the state of a pin

  predicate Valid(d: Pin, g: Times) {
    && d.maxDuration < HALF
    && (d.live ==> d.waketime == Wrap(g.wake) && g.since - HALF <= g.wake < g.since + WRAP)
    && (d.live && d.loadNext ==> d.checkEnd && (d.queue == [] ==> d.waketime == d.endTime))
    && (d.live && !d.loadNext ==> Pulsing(d))
    && (d.toggling ==> d.live)
    && (d.queue != [] ==> d.live && d.checkEnd && d.endTime == d.queue[0].waketime)
    && (g.watched ==> d.live && d.checkEnd)
  }

  /** The next event is a toggle, before the end of the setting. */
  predicate Pulsing(d: Pin) {
    && d.toggling && 0 < d.onDuration && 0 < d.offDuration && d.onDuration + d.offDuration < WRAP
    && (d.checkEnd ==> IsBefore(d.waketime, d.endTime))
  }

  /** The end of the setting, seen from the next event. */
  function EndsAt(d: Pin, g: Times): int {
    if d.loadNext then g.wake else g.wake + Off(d.waketime, d.endTime)
  }

  /** Neither part of a pulse is longer than half the range. */
  predicate Brief(d: Pin) { d.onDuration <= HALF && d.offDuration <= HALF }

  /** The setting ends by the deadline; and it has not ended yet, or the pulses left over are brief. */
  predicate Kept(d: Pin, g: Times) {
    && EndsAt(d, g) <= g.deadline < g.since + HALF && g.since <= g.deadline
    && (d.loadNext || g.since < EndsAt(d, g) || Brief(d))
  }

  /** The pulses are brief, and the pin is not too far behind for a next timer within `gap`. */
  predicate Steady(d: Pin, g: Times, gap: delay) {
    d.loadNext || (Brief(d) && g.wake >= Fires(g) + gap - HALF)
  }

  /** The same, but for a change that was past when it was sent and will be loaded `slack` after that. */
  predicate OnTime(d: Pin, g: Times, slack: delay) {
    Kept(d, g) || (g.late && d.loadNext && d.queue != [] && Fires(g) <= g.deadline + slack)
  }

  /** Where a first change for time x leaves the timer: at the next toggle, which sees the change as the end of
      the setting, or at the change, in its place in the list unless that is past. */
  predicate Placed(d: Pin, g: Times, d': Pin, g': Times, x: uint32, now: int, head: int, slack: delay) {
    && d'.endTime == x && d'.checkEnd
    && if d.toggling && IsBefore(d.waketime, x) then d'.waketime == d.waketime && d'.loadNext == d.loadNext && g'.wake == g.wake
       else d'.loadNext && g'.wake == if Reading(head, x) < now then now + slack else Reading(head, x)
  }

  /** A setting that must be renewed: the pin pulses or is not at its default level. */
  predicate MustWatch(d: Pin, onDuration: uint32) {
    d.maxDuration > 0 && if onDuration == 0 || onDuration >= d.cycleTime then (onDuration > 0) != d.defaultOn else true
  }

  // ------------------------------------------------------------------ where the next event of a load lies

  /** The end of a setting loaded for time w: that of the next change, which is not after the limit, or the
      limit itself. */
  function LoadEnd(w: int, limit: uint32, next: Option<uint32>): int {
    w + limit - if next.Some? then Off(next.value, Wrap(w + limit)) else 0
  }

  /** The next event: the first toggle if it comes before the end, or the end. */
  function Target(w: int, limit: uint32, next: Option<uint32>, on: uint32, cycle: uint32): int {
    var end, toggle := LoadEnd(w, limit, next), Wrap(w + on);
    if 0 < on < cycle && IsBefore(toggle, Wrap(end)) then end - Off(toggle, Wrap(end)) else end
  }

  lemma LoadEndWraps(w: int, limit: uint32, next: Option<uint32>)
    ensures Wrap(LoadEnd(w, limit, next)) == if next.Some? then next.value else Wrap(w + limit)
  {
    if next.Some? {
      BackWraps(w + limit, next.value);
    }
  }

  lemma BackWraps(t: int, x: uint32)
    ensures Wrap(t - Off(x, Wrap(t))) == x
  {
    var q := t / WRAP;
    assert t == Wrap(t) + q * WRAP;
    if Wrap(t) >= x {
      assert Off(x, Wrap(t)) == Wrap(t) - x;
      WrapMultiple(x, q);
    } else {
      assert Off(x, Wrap(t)) == Wrap(t) - x + WRAP;
      WrapMultiple(x, q - 1);
    }
  }

  lemma TargetWraps(w: int, limit: uint32, next: Option<uint32>, on: uint32, cycle: uint32)
    ensures var end, toggle := LoadEnd(w, limit, next), Wrap(w + on);
      Wrap(Target(w, limit, next, on, cycle)) == if 0 < on < cycle && IsBefore(toggle, Wrap(end)) then toggle else Wrap(end)
  {
    hide Wrap, Off;
    BackWraps(LoadEnd(w, limit, next), Wrap(w + on));
  }

  /** A load at time t, for time w not after it, while the next timer is at n, has its next event by the
      deadline exactly when that event is before the next timer on the clock, that is, at most half the
      range before it, or reads as a time by the deadline all the same. */
  lemma TargetInTime(t: int, n: int, w: int, limit: uint32, next: Option<uint32>, on: uint32, cycle: uint32)
    requires t - HALF <= w <= t <= n < t + HALF && limit < HALF && (next.Some? ==> !IsBefore(Wrap(w + limit), next.value))
    ensures var r := Target(w, limit, next, on, cycle);
      && (r >= n - HALF ==> Reading(n, Wrap(r)) == r)
      && (Reading(n, Wrap(r)) <= t + limit <==> r >= n - HALF || n - HALF <= r + WRAP <= t + limit)
      && (LoadEnd(w, limit, next) >= n ==> r >= n - HALF)
  {
    var r, end := Target(w, limit, next, on, cycle), LoadEnd(w, limit, next);
    assert w + limit - HALF < end <= w + limit;
    assert end - HALF <= r <= end;
    if r >= n - HALF {
      ReadingIs(n, r);
    } else if r >= n - HALF - WRAP {
      ReadingAhead(n, r);
    } else {
      WrapMultiple(r, 1);
      ReadingAhead(n, r + WRAP);
    }
  }

  /** If the first part of the pulse is not longer than half the range and the setting ends after w, the next
      event is after w too. */
  lemma BriefTarget(w: int, limit: uint32, next: Option<uint32>, on: uint32, cycle: uint32)
    requires limit < HALF && w < LoadEnd(w, limit, next) && (0 < on < cycle ==> on <= HALF)
    ensures w < Target(w, limit, next, on, cycle)
  {
    var end, toggle := LoadEnd(w, limit, next), Wrap(w + on);
    if 0 < on < cycle && IsBefore(toggle, Wrap(end)) {
      WrapDifference(end, w + on);
      BeforeOff(toggle, Wrap(end));
      Parts(end - w, Off(toggle, Wrap(end)), on);
    }
  }

  // ------------------------------------------------------------------ what toggles keep

  /** The next waketime of a pulsing pin. */
  function ToggleTime(d: Pin): uint32 { Wrap(d.waketime + if d.on then d.offDuration else d.onDuration) }

  /** A pin after its toggle event at time t. */
  function Toggled(d: Pin): Pin {
    var load := d.checkEnd && !IsBefore(ToggleTime(d), d.endTime);
    d.(on := !d.on, loadNext := load, waketime := if load then d.endTime else ToggleTime(d))
  }

  lemma EndIs(d: Pin, g: Times)
    requires Valid(d, g) && d.live && !d.loadNext && d.checkEnd
    ensures Wrap(EndsAt(d, g)) == d.endTime && g.wake < EndsAt(d, g) <= g.wake + HALF
  {
    ForwardWraps(g.wake, d.endTime);
    BeforeOff(d.waketime, d.endTime);
  }

  lemma ForwardWraps(t: int, x: uint32)
    ensures Wrap(t + Off(Wrap(t), x)) == x
  {
    ReadingWraps(t, x);
  }

  /** Before, in terms of how far ahead. */
  lemma BeforeOff(a: uint32, b: uint32)
    ensures IsBefore(a, b) <==> 0 < Off(a, b) <= HALF
  {
  }

  /** The next event of a pulsing pin after its toggle, counted back from the end. */
  function ToggleTarget(d: Pin, g: Times): int {
    if Toggled(d).loadNext then EndsAt(d, g) else g.wake + Step(d)
  }

  /** A toggle at time t, while the next timer is at n, leaves the end where it is if its next event is before
      that timer on the clock, and is then not after the end.  If not, the next event is half the range away. */
  lemma ToggleKeeps(d: Pin, g: Times, t: int, n: int)
    requires Valid(d, g) && d.live && !d.loadNext && d.checkEnd && t == Fires(g) <= n < t + HALF
    requires EndsAt(d, g) < t + HALF && (t < EndsAt(d, g) || Brief(d))
    ensures var d', v := Toggled(d), ToggleTarget(d, g);
      var g' := g.(since := t, wake := Reading(n, d'.waketime));
      && (v >= n - HALF ==> g'.wake == v && EndsAt(d', g') == EndsAt(d, g))
      && (v < n - HALF ==> g'.wake >= t + HALF)
      && (if d'.loadNext then v == EndsAt(d, g) else v < EndsAt(d, g))
      && (Brief(d) ==> v > g.wake && Brief(d'))
  {
    var e, d', v := EndsAt(d, g), Toggled(d), ToggleTarget(d, g);
    EndIs(d, g);
    if !d'.loadNext {
      ToggleBack(d, g);
    }
    if v >= n - HALF {
      ReadingIs(n, v);
    } else {
      ReadingAhead(n, v);
    }
  }

  /** A toggle before the end lies less than half the range before it; a brief one is after the last. */
  lemma ToggleBack(d: Pin, g: Times)
    requires Valid(d, g) && d.live && !d.loadNext && d.checkEnd && IsBefore(ToggleTime(d), d.endTime)
    ensures var v := EndsAt(d, g) - Off(ToggleTime(d), d.endTime);
      && Wrap(v) == ToggleTime(d) && EndsAt(d, g) - HALF <= v < EndsAt(d, g)
      && v == g.wake + Step(d)
      && (Brief(d) ==> v > g.wake)
  {
    EndIs(d, g);
    BackWraps(EndsAt(d, g), ToggleTime(d));
    BeforeOff(ToggleTime(d), d.endTime);
    StepIs(d);
  }

  /** How far a toggle moves the waketime: a part of the pulse of more than half the range moves it back. */
  function Step(d: Pin): int {
    var part := if d.on then d.offDuration else d.onDuration;
    if part <= HALF then part else part - WRAP
  }

  lemma StepIs(d: Pin)
    requires Pulsing(d) && d.checkEnd && IsBefore(ToggleTime(d), d.endTime)
    ensures Off(d.waketime, d.endTime) - Off(ToggleTime(d), d.endTime) == Step(d)
  {
    hide Wrap;
    var part := if d.on then d.offDuration else d.onDuration;
    BeforeOff(d.waketime, d.endTime);
    BeforeOff(ToggleTime(d), d.endTime);
    OffBetween(d.waketime, ToggleTime(d), d.endTime);
    OffPlus(d.waketime, part);
    Parts(Off(d.waketime, d.endTime), Off(ToggleTime(d), d.endTime), part);
  }

  lemma OffPlus(a: uint32, n: uint32)
    ensures Off(a, Wrap(a + n)) == n
  {
    WrapAdd(a + n, 0 - a);
  }

  lemma Parts(y: int, u: int, part: uint32)
    requires 0 < y <= HALF && 0 < u <= HALF && u == Wrap(y - part)
    ensures y - u == if part <= HALF then part else part - WRAP
  {
  }

  // ------------------------------------------------------------------ toggles come to an end

  /** How much a pulsing pin has left to do before it loads.  Brief pulses move towards the end.  If one part
      of the pulse is longer than half the range, a whole pulse moves the waketime back, until the end is
      more than half the range ahead and no longer reads as ahead. */
  function Left(d: Pin, g: Times): int {
    if Brief(d) then EndsAt(d, g) - g.wake
    else
      var whole := d.onDuration + d.offDuration - WRAP;
      g.wake - EndsAt(d, g) + 4 * WRAP + if LongNext(d) then Step(d) else whole
  }

  predicate LongNext(d: Pin) { (if d.on then d.offDuration else d.onDuration) > HALF }

  function Phase(d: Pin): nat { if Brief(d) || LongNext(d) then 0 else 1 }

  lemma ToggleProgress(d: Pin, g: Times, t: int, n: int)
    requires Valid(d, g) && d.live && !d.loadNext && d.checkEnd && t == Fires(g) <= n < t + HALF
    requires EndsAt(d, g) < t + HALF && (t < EndsAt(d, g) || Brief(d)) && !Toggled(d).loadNext && ToggleTarget(d, g) >= n - HALF
    ensures var d' := Toggled(d);
      var g' := g.(since := t, wake := Reading(n, d'.waketime));
      0 <= Left(d', g') && (Left(d', g') < Left(d, g) || (Left(d', g') == Left(d, g) && Phase(d') < Phase(d)))
  {
    ToggleKeeps(d, g, t, n);
    ToggleBack(d, g);
    EndIs(d, g);
  }

  // ------------------------------------------------------------------ the pin

  /** A change sent at a time, and the time of the first timer in the list other than that of the pin. */
  datatype Send = Send(c: Change, now: int, other: int)

  predicate InTimeOrder(sends: seq<Send>, since: int) {
    && (forall i :: 0 <= i < |sends| ==> since <= sends[i].now <= sends[i].other < sends[i].now + HALF)
    && (forall i, j :: 0 <= i < j < |sends| ==> sends[i].now <= sends[j].now)
  }

  class Output {
    const twoMicroseconds: delay
    var d: Pin
    var g: Times // for the specification: what the registers stand for

    constructor (value: bool, defaultOn: bool, maxDuration: uint32, twoMicroseconds: delay)
      requires maxDuration < HALF
      ensures Valid(d, g) && d == Pin(0, 0, 0, 0, maxDuration, 0, [], value, false, false, defaultOn, false, true)
      ensures g == Times(0, 0, 0, false, false)
      ensures this.twoMicroseconds == twoMicroseconds
    {
      this.twoMicroseconds := twoMicroseconds;
      d := Pin(0, 0, 0, 0, maxDuration, 0, [], value, false, false, defaultOn, false, true);
      g := Times(0, 0, 0, false, false);
    }

    /** digital_toggle_event, while the next timer is at n.  The next event is in time, and the end of the
        setting stays where it is, exactly when that event is before the next timer on the clock. */
    method ToggleEvent(n: int)
      requires Valid(d, g) && d.live && !d.loadNext && Fires(g) <= n < Fires(g) + HALF
      modifies this`d, this`g
      ensures Valid(d, g) && d == Toggled(old(d))
      ensures g == old(g).(since := Fires(old(g)), wake := Reading(n, d.waketime))
      ensures old(d).checkEnd && old(Kept(d, g)) ==>
        && (Fires(g) <= g.deadline <==> ToggleTarget(old(d), old(g)) >= n - HALF)
        && (Fires(g) <= g.deadline ==> Kept(d, g) && EndsAt(d, g) == old(EndsAt(d, g)))
    {
      ghost var d0, g0 := d, g;
      var t := Fires(g);
      d := d.(on := !d.on);
      var waketime := Wrap(d.waketime + if d.on then d.onDuration else d.offDuration);
      if d.checkEnd && !IsBefore(waketime, d.endTime) {
        d := d.(loadNext := true);
        waketime := d.endTime;
      }
      d := d.(waketime := waketime);
      g := g.(since := t, wake := Reading(n, waketime));
      hide Wrap, IsBefore, Reading;
      if d0.checkEnd && Kept(d0, g0) {
        EndIs(d0, g0);
        ToggleKeeps(d0, g0, t, n);
      }
    }

    /** digital_load_event, while the next timer is at n; false if it shuts down.  A watched setting has its
        next event by the deadline exactly when that event is before the next timer on the clock, or reads as
        a time by the deadline all the same. */
    method LoadEvent(n: int) returns (ok: bool)
      requires Valid(d, g) && d.live && d.loadNext && Fires(g) <= n < Fires(g) + HALF
      modifies this`d, this`g
      ensures ok <==> old(d).queue != [] && !(|old(d).queue| > 1 && MustWatch(old(d), old(d).queue[0].onDuration)
                        && IsBefore(Wrap(old(d).waketime + old(d).maxDuration), old(d).queue[1].waketime))
      ensures ok ==>
        var on, next := old(d).queue[0].onDuration, Second(old(d).queue);
        var end := LoadEnd(old(g).wake, d.maxDuration, next);
        var target := Target(old(g).wake, d.maxDuration, next, on, d.cycleTime);
        && Valid(d, g) && d.queue == old(d).queue[1..] && d.on == (on > 0) && d.toggling == (0 < on < d.cycleTime)
        && d.maxDuration == old(d).maxDuration && d.cycleTime == old(d).cycleTime && d.defaultOn == old(d).defaultOn
        && g.since == Fires(old(g)) && g.deadline == g.since + d.maxDuration && g.watched == MustWatch(old(d), on) && !g.late
        && (g.watched ==>
              && g.wake == Reading(n, Wrap(target))
              && (Fires(g) <= g.deadline <==> target >= n - HALF || n - HALF <= target + WRAP <= g.deadline)
              && (target >= n - HALF && (end > g.since || d.loadNext || Brief(d)) ==> Kept(d, g) && g.wake == target)
              && (end >= n ==> target >= n - HALF))
        && (d.live && !d.loadNext ==> d.onDuration == on && d.offDuration == d.cycleTime - on)
        && (!g.watched && d.live ==> d.waketime == (if d.loadNext then d.endTime else Wrap(old(d).waketime + on)))
    {
      hide Wrap, IsBefore, Reading, Off, Target, LoadEnd;
      if d.queue == [] {
        return false;
      }
      ghost var d0, g0 := d, g;
      var onDuration := d.queue[0].onDuration;
      var rest := d.queue[1..];
      var t := Fires(g);
      var on, toggling, checkEnd, endTime := onDuration > 0, false, false, 0;
      if !on || onDuration >= d.cycleTime {
        if on != d.defaultOn && d.maxDuration > 0 {
          endTime, checkEnd := Wrap(d.waketime + d.maxDuration), true;
        }
      } else {
        toggling := true;
        if d.maxDuration > 0 {
          endTime, checkEnd := Wrap(d.waketime + d.maxDuration), true;
        }
      }
      var watched := checkEnd;
      if rest != [] {
        var wake := rest[0].waketime;
        if checkEnd && IsBefore(endTime, wake) {
          return false;
        }
        endTime, checkEnd := wake, true;
      }
      d := d.(queue := rest, endTime := endTime, on := on, toggling := toggling, checkEnd := checkEnd);
      ScheduleNext(onDuration, t, n, watched);
      ok := true;
      if watched {
        LoadTimes(d0, g0, d, g, onDuration, n);
      }
    }

    /** The end of digital_load_event: the next event is the end of the setting, or a toggle before it. */
    method ScheduleNext(onDuration: uint32, t: int, n: int, watched: bool)
      requires t <= n < t + HALF && Scheduling(d, onDuration) && (watched ==> d.checkEnd)
      modifies this`d, this`g
      ensures Valid(d, g) && g == Times(t, if d.live then Reading(n, d.waketime) else old(g).wake, t + d.maxDuration, watched, false)
      ensures d.live == (d.checkEnd || d.toggling)
      ensures d == old(d).(waketime := d.waketime, live := d.live, loadNext := d.loadNext, onDuration := d.onDuration, offDuration := d.offDuration)
      ensures d.live ==>
        && d.loadNext == (!d.toggling || (d.checkEnd && !IsBefore(Wrap(old(d).waketime + onDuration), d.endTime)))
        && d.waketime == (if d.loadNext then d.endTime else Wrap(old(d).waketime + onDuration))
        && (!d.loadNext ==> d.onDuration == onDuration && d.offDuration == d.cycleTime - onDuration)
    {
      hide Wrap, IsBefore, Reading, Off;
      if !d.toggling {
        d := d.(live := d.checkEnd, waketime := if d.checkEnd then d.endTime else d.waketime);
      } else {
        var waketime := Wrap(d.waketime + onDuration);
        if d.checkEnd && !IsBefore(waketime, d.endTime) {
          d := d.(waketime := d.endTime, live := true);
        } else {
          d := d.(loadNext := false, live := true, waketime := waketime, onDuration := onDuration, offDuration := d.cycleTime - onDuration);
        }
      }
      g := Times(t, if d.live then Reading(n, d.waketime) else g.wake, t + d.maxDuration, watched, false);
    }

    /** command_queue_digital_out at time `now`, before the timer fires; false if it shuts down.  A change
        behind others is only linked.  The first one may bring the next load forward, and a late one is due
        in two microseconds. */
    method QueueChange(c: Change, now: int, other: int) returns (ok: bool)
      requires Valid(d, g) && g.since <= now <= other < now + HALF && (d.live ==> now <= g.wake)
      modifies this`d, this`g
      ensures ok <==> !(old(d).queue == [] && old(d).checkEnd && IsBefore(old(d).endTime, c.waketime))
      ensures ok ==> Valid(d, g) && d.queue == old(d).queue + [c]
      ensures ok ==> g.since == now && g.deadline == old(g).deadline && g.watched == old(g).watched
      ensures ok && g.late && !old(g).late ==> IsBefore(c.waketime, Wrap(now))
      ensures ok ==> d == old(d).(waketime := d.waketime, endTime := d.endTime, queue := d.queue, checkEnd := true, live := true, loadNext := d.loadNext)
      ensures ok && !d.loadNext ==> !old(d).loadNext && g.wake == old(g).wake
      ensures ok && old(d).queue != [] ==> d == old(d).(queue := d.queue) && g == old(g).(since := now)
      ensures ok && old(d).queue == [] ==>
        Placed(old(d), old(g), d, g, c.waketime, now, if old(d).live && old(g).wake < other then old(g).wake else other, twoMicroseconds)
      ensures ok && g.watched && OnTime(old(d), old(g), twoMicroseconds) ==> OnTime(d, g, twoMicroseconds)
    {
      hide Wrap, IsBefore, Reading, Off, EndsAt, Placed;
      if d.queue != [] {
        if g.watched && Kept(d, g) {
          LaterKept(d, g, now, d.queue + [c]);
        }
        d := d.(queue := d.queue + [c]);
        g := g.(since := now);
        return true;
      }
      if d.checkEnd && IsBefore(d.endTime, c.waketime) {
        return false;
      }
      ok := true;
      QueueFirst(c, now, if d.live && g.wake < other then g.wake else other);
    }

    /** The change is the only one: the pin goes on toggling until its time, or it is loaded next. */
    method QueueFirst(c: Change, now: int, head: int)
      requires Valid(d, g) && g.since <= now <= head < now + HALF && (d.live ==> head <= g.wake) && d.queue == []
      requires d.checkEnd ==> !IsBefore(d.endTime, c.waketime)
      modifies this`d, this`g
      ensures Valid(d, g) && d.queue == [c]
      ensures g == old(g).(since := now, wake := g.wake, late := g.late)
      ensures Placed(old(d), old(g), d, g, c.waketime, now, head, twoMicroseconds)
      ensures g.late && !old(g).late ==> IsBefore(c.waketime, Wrap(now))
      ensures d == old(d).(waketime := d.waketime, endTime := d.endTime, queue := d.queue, checkEnd := true, live := true, loadNext := d.loadNext)
      ensures !d.loadNext ==> !old(d).loadNext && g.wake == old(g).wake
      ensures g.watched && old(Kept(d, g)) ==> OnTime(d, g, twoMicroseconds)
    {
      hide Wrap, IsBefore, Reading, Off;
      ghost var d0, g0 := d, g;
      d := d.(queue := [c], endTime := c.waketime, checkEnd := true);
      g := g.(since := now);
      if d.toggling && IsBefore(d.waketime, c.waketime) {
        if g.watched && Kept(d0, g0) {
          StaysKept(d0, g0, c.waketime, now, d);
        }
      } else {
        var late := IsBefore(c.waketime, Wrap(head)) && IsBefore(c.waketime, Wrap(now));
        var waketime := if late then Wrap(now + twoMicroseconds) else c.waketime;
        d := d.(waketime := waketime, loadNext := true, live := true);
        g := g.(wake := if late then now + twoMicroseconds else Reading(head, waketime), late := g.late || late);
        InOrLate(now, head, c.waketime);
        if g.watched && Kept(d0, g0) {
          ForwardKept(d0, g0, c.waketime, now, head);
        }
      }
    }

    /** command_update_digital_out at time `now`; false if it shuts down. */
    method UpdateOutput(value: bool, now: int, readTime: uint32) returns (ok: bool)
      requires Valid(d, g) && readTime == Wrap(now)
      modifies this`d, this`g
      ensures ok <==> old(d).queue == []
      ensures ok ==> Valid(d, g) && d.on == value && !d.toggling && d.maxDuration == old(d).maxDuration
      ensures ok ==> g.watched == (value != d.defaultOn && d.maxDuration > 0)
      ensures ok && g.watched ==> Kept(d, g) && d.loadNext && Fires(g) == g.deadline == now + d.maxDuration
    {
      if d.queue != [] {
        return false;
      }
      ok := true;
      if value != d.defaultOn && d.maxDuration > 0 {
        WrapAdd(now, d.maxDuration);
        var end := Wrap(readTime + d.maxDuration);
        d := d.(waketime := end, endTime := end, loadNext := true, live := true, on := value, toggling := false, checkEnd := true);
        g := Times(now, now + d.maxDuration, now + d.maxDuration, true, false);
      } else {
        d := d.(live := false, on := value, toggling := false, checkEnd := false);
        g := g.(watched := false);
      }
    }

    /** command_set_digital_out_pwm_cycle, for any number of ticks; false if it shuts down. */
    method SetCycle(cycleTicks: uint32) returns (ok: bool)
      requires Valid(d, g)
      modifies this`d
      ensures ok <==> old(d).queue == []
      ensures Valid(d, g) && (old(Kept(d, g)) ==> Kept(d, g))
      ensures d == old(d).(cycleTime := if ok then cycleTicks else old(d).cycleTime)
    {
      if d.queue != [] {
        return false;
      }
      d := d.(cycleTime := cycleTicks);
      ok := true;
    }

    /** Whatever changes are sent to a watched pin, its next load, or a shutdown, comes by the deadline; if
        a change was already past when it was sent, no later than two microseconds after it.  The exception
        is exact: the pin escapes at a toggle whose next event is not before the next timer on the clock.  That
        cannot be if the pulses are brief and the pin is less than half the range, less the distance `gap` of
        the next timer, behind.  The k-th event has its next timer ahead(k) after it. */
    method UntilLoad(sends: seq<Send>, ahead: nat -> delay, ghost gap: delay) returns (halted: bool, escaped: bool)
      requires Valid(d, g) && g.watched && !g.late && Kept(d, g) && InTimeOrder(sends, g.since)
      modifies this`d, this`g
      ensures !halted ==> Valid(d, g) && d.live && g.deadline == old(g).deadline
      ensures !halted && !escaped ==> d.loadNext && Fires(g) <= g.deadline + if g.late then twoMicroseconds else 0
      ensures escaped ==> Fires(g) > g.deadline
      ensures !halted && (forall s <- sends :: !IsBefore(s.c.waketime, Wrap(s.now))) ==> !g.late
      ensures (forall k: nat :: ahead(k) <= gap) && old(Steady(d, g, gap)) ==> !escaped
    {
      hide Wrap, IsBefore, Reading, Off, Kept, OnTime, Left, Phase, EndsAt, Toggled, ToggleTarget;
      var i := 0;
      var k := 0;
      halted, escaped := false, false;
      StillOnTime(d, g, twoMicroseconds);
      while i < |sends| || !d.loadNext
        invariant i <= |sends| && Valid(d, g) && g.watched && g.deadline == old(g).deadline
        invariant OnTime(d, g, twoMicroseconds)
        invariant forall k :: i <= k < |sends| ==> g.since <= sends[k].now
        invariant (forall s <- sends :: !IsBefore(s.c.waketime, Wrap(s.now))) ==> !g.late
        invariant old(Steady(d, g, gap)) ==> Steady(d, g, gap)
        decreases |sends| - i, if d.loadNext then 0 else Left(d, g), Phase(d)
      {
        if i < |sends| && sends[i].now <= g.wake {
          var ok := QueueChange(sends[i].c, sends[i].now, sends[i].other);
          if !ok {
            return true, false;
          }
          i := i + 1;
        } else if d.loadNext {
          break;
        } else {
          StillOnTime(d, g, twoMicroseconds);
          var n := Fires(g) + ahead(k);
          ToggleKeeps(d, g, Fires(g), n);
          if !Toggled(d).loadNext && ToggleTarget(d, g) >= n - HALF {
            ToggleProgress(d, g, Fires(g), n);
          }
          LeftPositive(d, g);
          ToggleEvent(n);
          if Fires(g) > g.deadline {
            return false, true;
          }
          StillOnTime(d, g, twoMicroseconds);
          k := k + 1;
        }
      }
      StillOnTime(d, g, twoMicroseconds);
    }

    /** A load on time, with brief pulses and no change queued for its own time or before, is followed by another,
        or by a shutdown, no later than max_duration after it, whatever changes are sent meanwhile; or two
        microseconds later, if one was past when it was sent. */
    method LoadToLoad(n: int, sends: seq<Send>, ahead: nat -> delay) returns (halted: bool)
      requires Valid(d, g) && d.live && d.loadNext && Fires(g) <= n < Fires(g) + HALF && InTimeOrder(sends, Fires(g))
      requires Punctual(d, g) && MustWatch(d, d.queue[0].onDuration)
      modifies this`d, this`g
      ensures !halted ==> d.live && d.loadNext && Fires(g) <= Fires(old(g)) + old(d).maxDuration + if g.late then twoMicroseconds else 0
      ensures !halted && (forall s <- sends :: !IsBefore(s.c.waketime, Wrap(s.now))) ==> !g.late
    {
      hide Wrap, IsBefore, Reading, Off, Kept, Left, Phase, EndsAt, Toggled, ToggleTarget, Target, LoadEnd;
      BriefTarget(g.wake, d.maxDuration, Second(d.queue), d.queue[0].onDuration, d.cycleTime);
      var ok := LoadEvent(n);
      if !ok {
        return true;
      }
      var escaped;
      halted, escaped := UntilLoad(sends, ahead, HALF - 1);
    }
  }

  /** A load on time whose next change, if any, is after it, and whose pulses are brief. */
  predicate Punctual(d: Pin, g: Times) {
    && d.queue != [] && g.since <= g.wake && g.wake < LoadEnd(g.wake, d.maxDuration, Second(d.queue))
    && var on := d.queue[0].onDuration; 0 < on < d.cycleTime ==> on <= HALF && d.cycleTime - on <= HALF
  }

  lemma PastTimes()
    ensures Reading(1000, 0) == 0 && Wrap(0 + 10) == 10 && !IsBefore(10, HALF + 50)
    ensures var r := Target(0, 10, Some(HALF + 50), 1, 0); r == 50 - HALF && Reading(1000, Wrap(r)) == 50 + HALF
  {
    ReadingIs(1000, 0);
    assert Off(HALF + 50, 10) == HALF - 40;
    ReadingAhead(1000, 50 - HALF);
  }

  lemma LongTimes()
    ensures Reading(1000, 0) == 0 && Wrap(0 + 100) == 100 && Wrap(0 + HALF + 20) == HALF + 20 && !IsBefore(100, 10) && IsBefore(HALF + 20, 10)
    ensures var r := Target(0, 100, Some(10), HALF + 20, HALF + 1000); r == 20 - HALF && Reading(1000, Wrap(r)) == 20 + HALF
  {
    ReadingIs(1000, 0);
    assert Off(10, 100) == 90 && Off(HALF + 20, 10) == HALF - 10;
    ReadingAhead(1000, 20 - HALF);
  }

  /** One change that is past by almost half the range defeats the watch: with a limit of 10 ticks and the next
      timer 1000 ticks ahead, it is loaded half the range later. */
  method PastChangeEscapes() returns (o: Output)
    ensures fresh(o) && o.d.live && |o.d.queue| == 1 && o.g.watched && o.g.deadline == 10 && Fires(o.g) == HALF + 50
  {
    PastTimes();
    hide Wrap, IsBefore, Off, Reading, Target, LoadEnd;
    o := new Output(false, false, 10, 1);
    var ok := o.QueueChange(Change(0, 1), 0, 1000);
    ok := o.QueueChange(Change(HALF + 50, 1), 0, 1000);
    ok := o.LoadEvent(1000);
  }

  /** So does a long pulse: a change 10 ticks ahead is not loaded by the limit of 100. */
  method LongPulseEscapes() returns (o: Output)
    ensures fresh(o) && o.d.live && o.d.queue == [Change(10, 0)] && o.g.watched && o.g.deadline == 100 && Fires(o.g) == HALF + 20
  {
    LongTimes();
    hide Wrap, IsBefore, Off, Reading, Target, LoadEnd;
    o := new Output(false, false, 100, 1);
    var ok := o.SetCycle(HALF + 1000);
    ok := o.QueueChange(Change(0, HALF + 20), 0, 1000);
    ok := o.QueueChange(Change(10, 0), 0, 1000);
    ok := o.LoadEvent(1000);
  }

  function Second(queue: seq<Change>): Option<uint32> { if |queue| > 1 then Some(queue[1].waketime) else None }

  /** A first change behind the next toggle ends the setting, not after its former end. */
  lemma StaysKept(d: Pin, g: Times, x: uint32, now: int, d': Pin)
    requires Valid(d, g) && d.live && !d.loadNext && d.checkEnd && Kept(d, g) && g.since <= now <= g.wake
    requires !IsBefore(d.endTime, x) && IsBefore(d.waketime, x) && d' == d.(queue := d'.queue, endTime := x, checkEnd := true)
    ensures Kept(d', g.(since := now))
  {
    hide Wrap;
    BeforeOff(d.waketime, x);
    BeforeOff(d.waketime, d.endTime);
    OffBetween(d.waketime, x, d.endTime);
    Nearer(Off(d.waketime, d.endTime), Off(d.waketime, x), Off(x, d.endTime));
  }

  /** A change behind others leaves all as it is. */
  lemma LaterKept(d: Pin, g: Times, now: int, queue: seq<Change>)
    requires Valid(d, g) && d.live && d.checkEnd && Kept(d, g) && g.since <= now <= g.wake
    ensures Kept(d.(queue := queue), g.(since := now))
  {
    if !d.loadNext {
      EndIs(d, g);
    }
  }

  /** What being on time gives: the load in time, and toggles that keep it. */
  lemma StillOnTime(d: Pin, g: Times, slack: delay)
    requires Valid(d, g) && d.live && d.checkEnd
    ensures Kept(d, g) ==> OnTime(d, g, slack)
    ensures OnTime(d, g, slack) && !d.loadNext ==> Kept(d, g) && EndsAt(d, g) < Fires(g) + HALF && (Fires(g) < EndsAt(d, g) || Brief(d))
    ensures OnTime(d, g, slack) && d.loadNext ==> Fires(g) <= g.deadline + if g.late then slack else 0
  {
    if !d.loadNext {
      EndIs(d, g);
    }
  }

  lemma LeftPositive(d: Pin, g: Times)
    requires Valid(d, g) && d.live && !d.loadNext && d.checkEnd
    ensures Left(d, g) > 0
  {
    EndIs(d, g);
  }

  lemma Nearer(y: int, u: int, z: int)
    requires 0 < y <= HALF && 0 < u <= HALF && 0 <= z < HALF && z == Wrap(y - u)
    ensures u <= y
  {
  }

  /** A waketime that is not late is not past. */
  lemma InOrLate(now: int, head: int, x: uint32)
    requires now <= head < now + HALF
    ensures Reading(head, x) < now <==> IsBefore(x, Wrap(head)) && IsBefore(x, Wrap(now))
  {
    var r := Reading(head, x);
    if r < head {
      IsBeforeExact(r, now);
    }
  }

  /** A first change that is to be loaded next is loaded by the deadline. */
  lemma ForwardKept(d: Pin, g: Times, x: uint32, now: int, head: int)
    requires Valid(d, g) && d.live && d.queue == [] && d.checkEnd && Kept(d, g) && g.since <= now <= head <= g.wake
    requires !IsBefore(d.endTime, x) && head < now + HALF
    ensures Reading(head, x) <= g.deadline && now <= g.deadline < now + HALF
  {
    var e := EndsAt(d, g);
    if !d.loadNext {
      EndIs(d, g);
    }
    BackWraps(e, x);
    ReadingIs(head, e - Off(x, d.endTime));
  }

  /** What LoadEvent hands over to ScheduleNext. */
  predicate Scheduling(d: Pin, onDuration: uint32) {
    && d.maxDuration < HALF && d.loadNext && d.toggling == (0 < onDuration < d.cycleTime)
    && (d.queue != [] ==> d.checkEnd && d.endTime == d.queue[0].waketime)
  }

  /** The next event of a watched load. */
  lemma LoadTimes(d0: Pin, g0: Times, d: Pin, g: Times, on: uint32, n: int)
    requires Valid(d0, g0) && d0.live && |d0.queue| > 0 && d.maxDuration == d0.maxDuration && d.checkEnd
    requires Second(d0.queue).Some? ==> !IsBefore(Wrap(d0.waketime + d.maxDuration), Second(d0.queue).value)
    requires d.endTime == if Second(d0.queue).Some? then Second(d0.queue).value else Wrap(d0.waketime + d.maxDuration)
    requires d.loadNext == !(0 < on < d.cycleTime && IsBefore(Wrap(d0.waketime + on), d.endTime))
    requires d.waketime == if d.loadNext then d.endTime else Wrap(d0.waketime + on)
    requires g.since == Fires(g0) <= n < g.since + HALF && g.wake == Reading(n, d.waketime) && g.deadline == g.since + d.maxDuration
    ensures var next := Second(d0.queue);
      var end, target := LoadEnd(g0.wake, d.maxDuration, next), Target(g0.wake, d.maxDuration, next, on, d.cycleTime);
      && g.wake == Reading(n, Wrap(target))
      && (Fires(g) <= g.deadline <==> target >= n - HALF || n - HALF <= target + WRAP <= g.deadline)
      && (target >= n - HALF && (end > g.since || d.loadNext || Brief(d)) ==> Kept(d, g) && g.wake == target)
      && (end >= n ==> target >= n - HALF)
  {
    var next := Second(d0.queue);
    var w, t := g0.wake, g.since;
    var end, target := LoadEnd(w, d.maxDuration, next), Target(w, d.maxDuration, next, on, d.cycleTime);
    WrapAdd(w, d.maxDuration);
    WrapAdd(w, on);
    LoadEndWraps(w, d.maxDuration, next);
    TargetWraps(w, d.maxDuration, next, on, d.cycleTime);
    TargetInTime(t, n, w, d.maxDuration, next, on, d.cycleTime);
    hide Wrap, IsBefore, Reading, Off;
  }
}
