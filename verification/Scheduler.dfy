/** src/sched.c: the list of pending timers, on a wrapping 32-bit clock.  Nothing is assumed about the
    times of timers: any 32-bit value may be added, in the past or half the range away. */
module Scheduler {
  import opened Message
  import opened Timer32

  /** `struct timer`. */
  class Timer {
    var next: Timer?
    var waketime: uint32

    constructor (waketime: uint32)
      ensures this.waketime == waketime && next == null
    {
      this.waketime := waketime;
      next := null;
    }
  }

  predicate Distinct<T(==)>(s: seq<T>) {
    forall i, j :: 0 <= i < j < |s| ==> s[i] != s[j]
  }

  function Inserted<T>(s: seq<T>, k: nat, t: T): seq<T>
    requires k <= |s|
  {
    s[..k] + [t] + s[k..]
  }

  function Removed<T>(s: seq<T>, k: nat): seq<T>
    requires k < |s|
  {
    s[..k] + s[k + 1..]
  }

  lemma InsertedAt<T>(s: seq<T>, k: nat, t: T)
    requires k <= |s|
    ensures var r := Inserted(s, k, t);
      && |r| == |s| + 1
      && forall i :: 0 <= i < |r| ==> r[i] == if i < k then s[i] else if i == k then t else s[i - 1]
  {
  }

  lemma InsertedDistinct<T>(s: seq<T>, k: nat, t: T)
    requires Distinct(s) && t !in s && k <= |s|
    ensures Distinct(Inserted(s, k, t))
    ensures forall x :: x in Inserted(s, k, t) <==> x in s || x == t
  {
    InsertedAt(s, k, t);
    var r := Inserted(s, k, t);
    assert r[k] == t;
    assert forall i :: 0 <= i < |s| ==> s[i] == if i < k then r[i] else r[i + 1];
  }

  lemma RemovedAt<T>(s: seq<T>, k: nat)
    requires k < |s|
    ensures var r := Removed(s, k);
      && |r| == |s| - 1
      && forall i :: 0 <= i < |r| ==> r[i] == if i < k then s[i] else s[i + 1]
  {
  }

  lemma RemovedDistinct<T>(s: seq<T>, k: nat)
    requires Distinct(s) && k < |s|
    ensures Distinct(Removed(s, k))
    ensures forall x :: x in Removed(s, k) <==> x in s && x != s[k]
  {
    RemovedAt(s, k);
    var r := Removed(s, k);
    forall x ensures x in r <==> x in s && x != s[k] {
      if x in s && x != s[k] {
        var i :| 0 <= i < |s| && s[i] == x;
        assert r[if i < k then i else i - 1] == x;
      }
    }
  }

  lemma DistinctTail<T>(s: seq<T>, k: nat)
    requires Distinct(s) && k < |s|
    ensures Distinct(s[k + 1..]) && s[k] !in s[k + 1..]
  {
    var r := s[k + 1..];
    assert forall i :: 0 <= i < |r| ==> r[i] == s[k + 1 + i];
  }

  // ------------------------------------------------------------------ order on the clock

  /** From index f on, the times rise, and all but the last are less than half the range after that of
      index f.  The last is that of the sentinel. */
  predicate SortedFrom(times: seq<uint32>, f: nat) {
    && f < |times| - 1
    && (forall i :: f <= i < |times| - 1 ==> Off(times[f], times[i]) < HALF)
    && (forall i, j :: f <= i < j < |times| - 1 ==> Off(times[f], times[i]) <= Off(times[f], times[j]))
  }

  /** No timer but the sentinel reads as before w. */
  predicate NoneBefore(times: seq<uint32>, w: uint32) {
    forall i :: 0 <= i < |times| - 1 ==> !IsBefore(times[i], w)
  }

  lemma SortedTail(times: seq<uint32>, f: nat, g: nat)
    requires SortedFrom(times, f) && f <= g < |times| - 1
    ensures SortedFrom(times, g)
  {
    hide Wrap;
    var a, b := times[f], times[g];
    forall i | g <= i < |times| - 1 ensures Off(b, times[i]) == Off(a, times[i]) - Off(a, b) {
      OffShift(a, b, times[i]);
    }
  }

  lemma InsertedSorted(times: seq<uint32>, f: nat, k: nat, w: uint32)
    requires SortedFrom(times, f) && f < k < |times| && !IsBefore(w, times[f])
    requires !IsBefore(w, times[k - 1]) && IsBefore(w, times[k])
    ensures SortedFrom(Inserted(times, k, w), f)
  {
    hide Wrap;
    var b := times[f];
    OffBefore(b, w, times[k - 1]);
    if k < |times| - 1 {
      OffBefore(b, w, times[k]);
    }
    InsertedAt(times, k, w);
    var r := Inserted(times, k, w);
    forall i | f <= i < |r| - 1 ensures Off(b, r[i]) < HALF {
    }
    forall i, j | f <= i < j < |r| - 1 ensures Off(b, r[i]) <= Off(b, r[j]) {
    }
  }

  lemma InsertedAhead(times: seq<uint32>, f: nat, k: nat, w: uint32)
    requires SortedFrom(times, f) && k <= f
    ensures SortedFrom(Inserted(times, k, w), f + 1)
  {
    InsertedAt(times, k, w);
  }

  lemma RemovedSorted(times: seq<uint32>, f: nat, k: nat)
    requires SortedFrom(times, f) && k < |times| - 1 && (k == f ==> f + 1 < |times| - 1)
    ensures SortedFrom(Removed(times, k), if k < f then f - 1 else f)
  {
    hide Wrap, Off;
    RemovedAt(times, k);
    if k == f {
      SortedTail(times, f, f + 1);
    }
  }

  lemma PrependSorted(times: seq<uint32>, w: uint32)
    requires SortedFrom(times, 0) && NoneBefore(times, w)
    ensures SortedFrom([w] + times, 0) && NoneBefore([w] + times, w)
  {
    hide Wrap;
    var r, b := [w] + times, times[0];
    OffSelf(w);
    forall i | 0 <= i < |times| - 1 ensures Off(w, times[i]) == Off(w, b) + Off(b, times[i]) < HALF {
      assert !IsBefore(times[i], w) && !IsBefore(b, w);
      OffForward(w, b, times[i]);
    }
    assert forall i :: 1 <= i < |r| - 1 ==> r[i] == times[i - 1];
  }

  /** In an ordered list within half the range, a time before that of index f is not after any from there on. */
  lemma NoneEarlier(times: seq<uint32>, b: uint32, span: nat, w: uint32, f: nat)
    requires SortedFrom(times, 0) && (forall i :: 0 <= i < |times| - 1 ==> Off(b, times[i]) <= span)
    requires span < HALF && Off(b, w) <= span && f <= 1 && IsBefore(w, times[f])
    ensures NoneBefore(times[f..], w)
  {
    hide Wrap;
    var rest := times[f..];
    forall i | f <= i < |times| - 1 ensures !IsBefore(times[i], w) {
      OffForward(b, times[0], times[f]);
      OffForward(b, times[0], times[i]);
      OffBefore(b, w, times[f]);
      OffBefore(b, times[i], w);
    }
    assert forall i :: 0 <= i < |rest| ==> rest[i] == times[f + i];
  }

  lemma OffForward(base: uint32, m: uint32, t: uint32)
    requires Off(base, m) < HALF && Off(base, t) < HALF && Off(m, t) < HALF
    ensures Off(base, t) == Off(base, m) + Off(m, t)
  {
    OffBetween(base, m, t);
  }

  lemma OffSum(base: uint32, m: uint32, t: uint32)
    requires Off(base, m) < HALF && Off(m, t) < HALF
    ensures Off(base, t) == Off(base, m) + Off(m, t)
  {
    OffBetween(base, m, t);
  }

  lemma OffPast(base: uint32, a: uint32, b: uint32)
    requires Off(base, b) <= Off(base, a) < Off(base, b) + HALF
    ensures !IsBefore(a, b)
  {
    OffBetween(base, b, a);
  }

  // ------------------------------------------------------------------ the linked list

  /** Each node points to the one after it, and the last to none. */
  ghost predicate Chained(list: seq<Timer>)
    reads list
  {
    && |list| > 0 && list[|list| - 1].next == null
    && forall i :: 0 <= i < |list| - 1 ==> list[i].next == list[i + 1]
  }

  lemma NextAt(list: seq<Timer>, i: nat)
    requires Chained(list) && i < |list|
    ensures i < |list| - 1 ==> list[i].next != null && list[i].next == list[i + 1]
  {
    if i < |list| - 1 {
      var after: Timer := list[i + 1];
      assert list[i].next == after;
    }
  }

  ghost predicate Clocked(list: seq<Timer>, times: seq<uint32>)
    reads list
  {
    |times| == |list| && forall i :: 0 <= i < |list| ==> list[i].waketime == times[i]
  }

  class Sched {
    const periodic: Timer
    const sentinel: Timer
    const deleted: Timer
    const twoMicroseconds: nat
    const period: nat // timer_from_us(100000)
    var timerList: Timer
    var lastInsert: Timer
    ghost var list: seq<Timer>   // timerList and its successors
    ghost var times: seq<uint32> // their waketimes
    ghost var front: nat         // how many timers at the head late adds may have put out of order

    /** The list is well linked: duplicate-free, starting at timerList, ending in the sentinel, with
        the periodic timer on it, deletedTimer nowhere but at the head, and last_insert on it. */
    ghost predicate Linked()
      reads this, list
    {
      var chained, distinct, shaped := Chained(list), Distinct(list), Shaped(list, timerList, lastInsert);
      chained && distinct && shaped
    }

    ghost predicate Shaped(list: seq<Timer>, first: Timer, last: Timer) {
      && periodic != sentinel && periodic != deleted && sentinel != deleted
      && |list| > 1 && list[0] == first && list[|list| - 1] == sentinel
      && periodic in list
      && (forall i :: 1 <= i < |list| ==> list[i] != deleted)
      && last in list && last != deleted && last != sentinel
    }

    /** The periodic timer is in the ordered part, and the sentinel half the range after it. */
    ghost predicate Anchored(list: seq<Timer>, times: seq<uint32>, front: nat) {
      && |times| == |list| > 0
      && forall i :: 0 <= i < |list| && list[i] == periodic ==> front <= i && times[|list| - 1] == Wrap(times[i] + HALF)
    }

    /** Behind the first `front` timers the list is in order, and the periodic timer is there. */
    ghost predicate Settled()
      reads this, list
    {
      var clocked, anchored, sorted := Clocked(list, times), Anchored(list, times, front), SortedFrom(times, front);
      clocked && anchored && sorted && 0 < period < HALF
    }

    /** The whole list is in order. */
    ghost predicate Ordered()
      reads this, list
    {
      Settled() && front == 0
    }

    ghost predicate IsUser(t: Timer) { t != periodic && t != sentinel && t != deleted }

    /** The live timers: those on the list other than the three of the scheduler itself. */
    ghost function Live(): set<Timer>
      reads this
    {
      Users(list)
    }

    ghost function Users(list: seq<Timer>): set<Timer> { set t | t in list && IsUser(t) }

    constructor (periodic: Timer, sentinel: Timer, deleted: Timer, twoMicroseconds: nat, period: nat)
      requires periodic != sentinel && periodic != deleted && sentinel != deleted && 0 < period < HALF
      requires sentinel.waketime == Wrap(periodic.waketime + HALF) && sentinel.next == null
      modifies periodic`next
      ensures Linked() && Ordered() && Live() == {}
      ensures this.periodic == periodic && this.sentinel == sentinel && this.deleted == deleted
      ensures this.twoMicroseconds == twoMicroseconds && this.period == period && list == [periodic, sentinel]
    {
      this.periodic, this.sentinel, this.deleted := periodic, sentinel, deleted;
      this.twoMicroseconds, this.period := twoMicroseconds, period;
      timerList, lastInsert := periodic, periodic;
      list, times, front := [periodic, sentinel], [periodic.waketime, sentinel.waketime], 0;
      new;
      OffSelf(periodic.waketime);
      periodic.next := sentinel;
    }

    // ---------------------------------------------------------------- inserting

    /** The walk of insert_timer: to the first timer after `waketime`.  `p` is the index of pos0, or -1
        when pos0 has just been unlinked from the head; e is the index of some later timer. */
    method FindPlace(pos0: Timer, waketime: uint32, ghost p: int, ghost e: nat)
      returns (prev: Timer, pos: Timer, ghost k: nat)
      requires Chained(list) && Clocked(list, times)
      requires -1 <= p < e < |list| && IsBefore(waketime, times[e])
      requires p >= 0 ==> pos0 == list[p] && !IsBefore(waketime, times[p])
      requires p == -1 ==> pos0.next == list[0] && !IsBefore(waketime, times[0])
      ensures 1 <= k <= e && p < k && prev == list[k - 1] && pos == list[k]
      ensures IsBefore(waketime, times[k]) && forall i :: 0 <= i && p <= i < k ==> !IsBefore(waketime, times[i])
    {
      hide IsBefore;
      prev, pos := pos0, pos0;
      ghost var i := p;
      while true
        invariant p <= i < e && (if i >= 0 then pos == list[i] else pos == pos0)
        invariant forall x :: 0 <= x && p <= x <= i ==> !IsBefore(waketime, times[x])
        decreases e - i
      {
        if i >= 0 {
          NextAt(list, i);
        }
        assert pos.next == list[i + 1];
        prev := pos;
        pos := pos.next;
        if IsBefore(waketime, pos.waketime) {
          break;
        }
        i := i + 1;
      }
      k := i + 1;
    }

    method LinkBetween(prev: Timer, next: Timer, t: Timer, ghost k: nat)
      requires Chained(list) && Distinct(list) && t !in list && Clocked(list, times)
      requires 1 <= k < |list| && prev == list[k - 1] && next == list[k]
      modifies this`list, this`times, t`next, prev`next
      ensures list == Inserted(old(list), k, t) && times == Inserted(old(times), k, t.waketime)
      ensures Chained(list) && Clocked(list, times)
    {
      t.next := next;
      prev.next := t;
      InsertedAt(list, k, t);
      InsertedAt(times, k, t.waketime);
      ghost var list0 := list;
      list, times := Inserted(list, k, t), Inserted(times, k, t.waketime);
      forall i | 0 <= i < |list| - 1 ensures list[i].next == list[i + 1] {
        assert i == k - 1 || i == k || list[i] == list0[if i < k then i else i - 1];
      }
    }

    /** Where the order begins after an insertion at index k. */
    ghost function Shifted(front: nat, k: nat): nat { if k <= front then front + 1 else front }

    lemma InsertedAnchored(list: seq<Timer>, times: seq<uint32>, front: nat, k: nat, t: Timer, w: uint32)
      requires |times| == |list| && 1 <= k < |list| && t !in list
      requires if t == periodic then front == 0 && times[|list| - 1] == Wrap(w + HALF) else Anchored(list, times, front)
      ensures Anchored(Inserted(list, k, t), Inserted(times, k, w), Shifted(front, k))
    {
      hide Wrap;
      InsertedAt(list, k, t);
      InsertedAt(times, k, w);
    }

    lemma InsertedOrder(times: seq<uint32>, front: nat, k: nat, w: uint32)
      requires SortedFrom(times, front) && 1 <= k < |times| && IsBefore(w, times[k])
      requires k > front ==> !IsBefore(w, times[k - 1]) && !IsBefore(w, times[front])
      ensures SortedFrom(Inserted(times, k, w), Shifted(front, k))
    {
      if k > front {
        InsertedSorted(times, front, k, w);
      } else {
        InsertedAhead(times, front, k, w);
      }
    }

    lemma InsertedShaped(list: seq<Timer>, k: nat, t: Timer, first: Timer, last: Timer)
      requires Distinct(list) && t !in list && 1 <= k < |list| && t != deleted && t != sentinel
      requires list[0] == first && list[|list| - 1] == sentinel && (periodic in list || t == periodic)
      requires periodic != sentinel && periodic != deleted && sentinel != deleted
      requires forall i :: 1 <= i < |list| ==> list[i] != deleted
      requires (last in list && last != deleted && last != sentinel) || last == t
      ensures Distinct(Inserted(list, k, t)) && Shaped(Inserted(list, k, t), first, last)
      ensures Users(Inserted(list, k, t)) == Users(list) + if IsUser(t) then {t} else {}
      ensures forall x :: x in Inserted(list, k, t) <==> x in list || x == t
    {
      InsertedDistinct(list, k, t);
      InsertedAt(list, k, t);
    }

    /** insert_timer: links t in front of the first later timer, of which there must be one. */
    method InsertTimer(pos: Timer, t: Timer, waketime: uint32, ghost p: int, ghost e: nat) returns (ghost k: nat)
      requires Chained(list) && Distinct(list) && t !in list && t.waketime == waketime
      requires Clocked(list, times) && SortedFrom(times, front)
      requires if t == periodic then front == 0 && times[|list| - 1] == Wrap(waketime + HALF) else Anchored(list, times, front)
      requires -1 <= p < e < |list| && IsBefore(waketime, times[e])
      requires p >= 0 ==> pos == list[p] && !IsBefore(waketime, times[p])
      requires p == -1 ==> pos.next == list[0] && !IsBefore(waketime, times[0])
      requires p > front ==> !IsBefore(waketime, times[front])
      modifies this`list, this`times, this`front, t`next, list`next
      ensures 1 <= k < |old(list)| && list == Inserted(old(list), k, t) && times == Inserted(old(times), k, waketime)
      ensures front == Shifted(old(front), k) && IsBefore(waketime, old(times)[k])
      ensures forall i :: 0 <= i && p <= i < k ==> !IsBefore(waketime, old(times)[i])
      ensures Chained(list) && Clocked(list, times) && Anchored(list, times, front) && SortedFrom(times, front)
    {
      hide SortedFrom, Anchored, IsBefore, Wrap;
      var prev, next;
      prev, next, k := FindPlace(pos, waketime, p, e);
      InsertedOrder(times, front, k, waketime);
      InsertedAnchored(list, times, front, k, t, waketime);
      front := Shifted(front, k);
      LinkBetween(prev, next, t, k);
    }

    /** Any time at all is before the periodic timer or before the sentinel. */
    lemma MeetsLater(list: seq<Timer>, times: seq<uint32>, front: nat, ip: nat, w: uint32)
      requires Anchored(list, times, front) && ip < |list| && list[ip] == periodic
      ensures IsBefore(w, times[ip]) || IsBefore(w, times[|list| - 1])
    {
      hide Wrap;
      OffSelf(times[ip]);
      if !IsBefore(w, times[ip]) {
        OffBefore(times[ip], w, times[|list| - 1]);
      }
    }

    lemma PeriodicInside(list: seq<Timer>) returns (ip: nat)
      requires periodic in list && periodic != sentinel && |list| > 0 && list[|list| - 1] == sentinel
      ensures ip < |list| - 1 && list[ip] == periodic
    {
      ip :| 0 <= ip < |list| && list[ip] == periodic;
    }

    /** The timer is on the list ahead of the periodic timer. */
    ghost predicate AheadOf(list: seq<Timer>, last: Timer) {
      exists a, b :: 0 <= a < b < |list| && list[a] == last && list[b] == periodic
    }

    lemma AheadIs(list: seq<Timer>, last: Timer, p: nat, ip: nat)
      requires Distinct(list) && AheadOf(list, last) && p < |list| && list[p] == last && ip < |list| && list[ip] == periodic
      ensures p < ip
    {
    }

    lemma AheadTail(list: seq<Timer>, last: Timer, k: nat)
      requires Distinct(list) && AheadOf(list, last) && k < |list| && last in list[k + 1..]
      ensures AheadOf(list[k + 1..], last)
    {
      var a, b :| 0 <= a < b < |list| && list[a] == last && list[b] == periodic;
      var l := list[k + 1..];
      var i :| 0 <= i < |l| && l[i] == last;
      assert list[k + 1 + i] == last;
      assert l[a - k - 1] == last && l[b - k - 1] == periodic;
    }

    lemma AheadInserted(list: seq<Timer>, last: Timer, k: nat, t: Timer)
      requires AheadOf(list, last) && k <= |list|
      ensures AheadOf(Inserted(list, k, t), last)
    {
      var a, b :| 0 <= a < b < |list| && list[a] == last && list[b] == periodic;
      InsertedAt(list, k, t);
      var r := Inserted(list, k, t);
      assert r[if a < k then a else a + 1] == last && r[if b < k then b else b + 1] == periodic;
    }

    lemma AheadFirst(list: seq<Timer>, last: Timer, add: Timer)
      requires AheadOf(list, last) && last != deleted
      ensures AheadOf([deleted, add] + (if list[0] == deleted then list[1..] else list), last)
    {
      var a, b :| 0 <= a < b < |list| && list[a] == last && list[b] == periodic;
      var d := if list[0] == deleted then 1 else 2;
      var l := [deleted, add] + (if list[0] == deleted then list[1..] else list);
      assert l[a + d] == last && l[b + d] == periodic;
    }

    /** The time behind the head, which was `second`, when a timer is added. */
    ghost function Behind(added: uint32, early: bool, second: uint32): uint32 {
      if !early && IsBefore(added, second) then added else second
    }

    lemma LaterPlace(w: uint32) returns (e: nat)
      requires Linked() && Settled() && !IsBefore(w, timerList.waketime)
      ensures 0 < e < |list| == |times| && IsBefore(w, times[e]) && !IsBefore(w, times[0])
    {
      hide SortedFrom, IsBefore, Wrap;
      var ip := PeriodicInside(list);
      MeetsLater(list, times, front, ip, w);
      e := if ip > 0 && IsBefore(w, times[ip]) then ip else |list| - 1;
    }

    method AddSorted(add: Timer)
      requires Linked() && Settled() && IsUser(add) && add !in list && !IsBefore(add.waketime, timerList.waketime)
      modifies this`list, this`times, this`front, add`next, list`next
      ensures Linked() && Settled() && Live() == old(Live()) + {add} && list[0] == old(list[0])
      ensures forall x :: x in list <==> x in old(list) || x == add
      ensures old(front) == 0 ==> front == 0
      ensures times[1] == Behind(add.waketime, false, old(times)[1])
      ensures AheadOf(old(list), lastInsert) ==> AheadOf(list, lastInsert)
    {
      hide SortedFrom, IsBefore, AheadOf, Wrap, Anchored, Chained, Distinct, Clocked, Users;
      ghost var e := LaterPlace(add.waketime);
      ghost var list0, times0 := list, times;
      ghost var k := InsertTimer(timerList, add, add.waketime, 0, e);
      InsertedAt(times0, k, add.waketime);
      InsertedShaped(list0, k, add, timerList, lastInsert);
      if AheadOf(list0, lastInsert) {
        AheadInserted(list0, lastInsert, k, add);
      }
    }

    // ---------------------------------------------------------------- a timer ahead of all others

    /** The list without deletedTimer, and its times. */
    ghost function Rest(): seq<Timer>
      reads this
      requires |list| > 0
    {
      if list[0] == deleted then list[1..] else list
    }

    ghost function RestTimes(): seq<uint32>
      reads this
      requires |list| > 0 && |times| > 0
    {
      if list[0] == deleted then times[1..] else times
    }

    lemma FirstShaped(list: seq<Timer>, rest: seq<Timer>, t: Timer, first: Timer, last: Timer)
      requires Distinct(list) && Shaped(list, first, last) && t !in list && IsUser(t)
      requires rest == if list[0] == deleted then list[1..] else list
      ensures Distinct([deleted, t] + rest) && Shaped([deleted, t] + rest, deleted, last)
      ensures Users([deleted, t] + rest) == Users(list) + {t}
    {
      var l := [deleted, t] + rest;
      RestMembers(list, rest);
      assert forall i :: 2 <= i < |l| ==> l[i] == rest[i - 2];
      assert forall x :: x in l <==> x == deleted || x == t || x in rest;
    }

    lemma RestMembers(list: seq<Timer>, rest: seq<Timer>)
      requires |list| > 0 && Distinct(list) && rest == (if list[0] == deleted then list[1..] else list)
      requires forall i :: 1 <= i < |list| ==> list[i] != deleted
      ensures Distinct(rest) && forall x :: x in rest <==> x in list && x != deleted
    {
      DistinctTail(list, 0);
      HeadApart(list);
    }

    lemma RestOrder(list: seq<Timer>, times: seq<uint32>, front: nat, first: Timer, last: Timer)
      requires Shaped(list, first, last) && Anchored(list, times, front) && SortedFrom(times, front)
      ensures var drop := list[0] == deleted;
        var rest := if drop then times[1..] else times;
        SortedFrom(rest, if drop && front > 0 then front - 1 else front)
    {
      if list[0] == deleted {
        var ip := PeriodicInside(list);
        assert Removed(times, 0) == times[1..];
        RemovedSorted(times, front, 0);
      }
    }

    /** Two equal times go ahead of the others: in order exactly when none of the others is before them. */
    lemma FirstOrder(rest: seq<uint32>, f: nat, w: uint32)
      requires SortedFrom(rest, f)
      ensures SortedFrom([w, w] + rest, f + 2)
      ensures f == 0 && NoneBefore(rest, w) ==> SortedFrom([w, w] + rest, 0)
      ensures SortedFrom([w, w] + rest, 0) ==> NoneBefore(rest, w)
    {
      hide Wrap;
      var all := [w, w] + rest;
      assert forall i :: 2 <= i < |all| ==> all[i] == rest[i - 2];
      if f == 0 && NoneBefore(rest, w) {
        PrependSorted(rest, w);
        PrependSorted([w] + rest, w);
        assert [w] + ([w] + rest) == all;
      }
      if SortedFrom(all, 0) {
        forall i | 0 <= i < |rest| - 1 ensures !IsBefore(rest[i], w) {
          assert all[i + 2] == rest[i];
        }
      }
    }

    method LinkFirst(add: Timer, w: uint32)
      requires Chained(list) && Clocked(list, times) && list[0] == timerList && |list| > 1
      requires add != deleted && add !in list && forall i :: 1 <= i < |list| ==> list[i] != deleted
      modifies this`list, this`times, this`timerList, add, deleted
      ensures list == [deleted, add] + old(Rest()) && times == [w, w] + old(RestTimes())
      ensures timerList == deleted && Chained(list) && Clocked(list, times) && add.waketime == deleted.waketime == w
    {
      ghost var rest, restTimes := Rest(), RestTimes();
      add.waketime := w;
      if timerList == deleted {
        add.next := deleted.next;
      } else {
        add.next := timerList;
      }
      deleted.waketime := w;
      deleted.next := add;
      timerList := deleted;
      list, times := [deleted, add] + rest, [w, w] + restTimes;
    }

    lemma FirstAnchored(list: seq<Timer>, times: seq<uint32>, front: nat, first: Timer, last: Timer, add: Timer, w: uint32, f: nat)
      requires Shaped(list, first, last) && Anchored(list, times, front) && IsUser(add)
      requires var drop := list[0] == deleted; f == 0 || f == (if drop && front > 0 then front - 1 else front) + 2
      ensures var drop := list[0] == deleted;
        Anchored([deleted, add] + (if drop then list[1..] else list), [w, w] + (if drop then times[1..] else times), f)
    {
      hide Wrap;
      var drop := list[0] == deleted;
      var l, ts := [deleted, add] + (if drop then list[1..] else list), [w, w] + (if drop then times[1..] else times);
      assert forall i :: 2 <= i < |l| ==>
        l[i] == list[if drop then i - 1 else i - 2] && ts[i] == times[if drop then i - 1 else i - 2];
    }

    /** All about the list with deletedTimer and `add` at its head. */
    lemma FirstSettled(list: seq<Timer>, times: seq<uint32>, front: nat, first: Timer, last: Timer, add: Timer, w: uint32)
      returns (f: nat)
      requires Distinct(list) && Shaped(list, first, last) && Anchored(list, times, front) && SortedFrom(times, front)
      requires IsUser(add) && add !in list
      ensures var drop := list[0] == deleted;
        var l, rest := [deleted, add] + (if drop then list[1..] else list), if drop then times[1..] else times;
        && Distinct(l) && Shaped(l, deleted, last) && Users(l) == Users(list) + {add}
        && Anchored(l, [w, w] + rest, f) && SortedFrom([w, w] + rest, f)
        && (front == 0 ==> (f == 0 <==> NoneBefore(rest, w)))
      ensures |list| > 1 && list[0] == first && forall i :: 1 <= i < |list| ==> list[i] != deleted
    {
      hide SortedFrom, NoneBefore, IsBefore, Wrap;
      var drop := list[0] == deleted;
      var rest, g := if drop then times[1..] else times, if drop && front > 0 then front - 1 else front;
      FirstShaped(list, if drop then list[1..] else list, add, first, last);
      RestOrder(list, times, front, first, last);
      FirstOrder(rest, g, w);
      f := if front == 0 && NoneBefore(rest, w) then 0 else g + 2;
      FirstAnchored(list, times, front, first, last, add, w, f);
    }

    /** The branch of sched_add_timer for a timer ahead of all others. */
    method AddEarly(add: Timer, now: uint32) returns (late: bool)
      requires Linked() && Settled() && IsUser(add) && add !in list
      modifies this`list, this`times, this`front, this`timerList, add, deleted
      ensures Linked() && Settled() && Live() == old(Live()) + {add}
      ensures late <==> IsBefore(old(add.waketime), now)
      ensures add.waketime == if late then Wrap(now + twoMicroseconds) else old(add.waketime)
      ensures list == [deleted, add] + old(Rest()) && deleted.waketime == add.waketime
      ensures old(front) == 0 ==> (front == 0 <==> NoneBefore(old(RestTimes()), add.waketime))
    {
      hide SortedFrom, NoneBefore, Anchored, Shaped, Distinct, Users, IsBefore, Wrap;
      late := IsBefore(add.waketime, now);
      var w := if late then Wrap(now + twoMicroseconds) else add.waketime;
      ghost var f := FirstSettled(list, times, front, timerList, lastInsert, add, w);
      LinkFirst(add, w);
      front := f;
    }

    /** sched_add_timer.  A timer ahead of all others goes behind deletedTimer at the head; when its
        time has already passed it is moved to two microseconds from now and still goes first. */
    method AddTimer(add: Timer, now: uint32) returns (late: bool)
      requires Linked() && Settled() && IsUser(add) && add !in list
      modifies this`list, this`times, this`front, this`timerList, add, deleted, list`next
      ensures Linked() && Settled() && Live() == old(Live()) + {add}
      ensures AheadOf(old(list), lastInsert) ==> AheadOf(list, lastInsert)
      ensures var early := IsBefore(old(add.waketime), old(timerList.waketime));
        && (late <==> early && IsBefore(old(add.waketime), now))
        && add.waketime == (if late then Wrap(now + twoMicroseconds) else old(add.waketime))
        && (early ==> list == [deleted, add] + old(Rest()))
        && (!early ==> list[0] == old(list[0]) && times[1] == Behind(add.waketime, false, old(times)[1]))
        && (!early ==> forall x :: x in list <==> x in old(list) || x == add)
        && (if early then deleted.waketime == add.waketime else deleted.waketime == old(deleted.waketime))
        && (old(Ordered()) ==> (Ordered() <==> !early || NoneBefore(old(RestTimes()), add.waketime)))
    {
      hide SortedFrom, NoneBefore, IsBefore, Wrap, AheadOf;
      if IsBefore(add.waketime, timerList.waketime) {
        if AheadOf(list, lastInsert) {
          AheadFirst(list, lastInsert, add);
        }
        late := AddEarly(add, now);
      } else {
        late := false;
        AddSorted(add);
      }
    }

    // ---------------------------------------------------------------- deleting

    /** Where the order begins after the timer at index k is gone. */
    ghost function Closed(front: nat, k: nat): nat { if k < front then front - 1 else front }

    lemma RemovedShaped(list: seq<Timer>, k: nat, first: Timer, last: Timer)
      requires Distinct(list) && Shaped(list, first, last) && 1 <= k < |list| - 1 && IsUser(list[k])
      ensures Distinct(Removed(list, k))
      ensures Shaped(Removed(list, k), first, if last == list[k] then periodic else last)
      ensures Users(Removed(list, k)) == Users(list) - {list[k]} && forall x <- Removed(list, k) :: x in list
    {
      RemovedDistinct(list, k);
      RemovedAt(list, k);
    }

    lemma RemovedAnchored(list: seq<Timer>, times: seq<uint32>, front: nat, k: nat)
      requires Anchored(list, times, front) && k < |list| - 1 && list[k] != periodic
      ensures Anchored(Removed(list, k), Removed(times, k), Closed(front, k))
    {
      hide Wrap;
      RemovedAt(list, k);
      RemovedAt(times, k);
    }

    lemma RemovedOrder(list: seq<Timer>, times: seq<uint32>, front: nat, k: nat)
      requires Anchored(list, times, front) && SortedFrom(times, front) && k < |list| - 1 && list[k] != periodic
      requires periodic in list && periodic != sentinel && list[|list| - 1] == sentinel
      ensures SortedFrom(Removed(times, k), Closed(front, k))
    {
      hide Wrap, SortedFrom;
      var ip := PeriodicInside(list);
      RemovedSorted(times, front, k);
    }

    method Unlink(prev: Timer, t: Timer, ghost k: nat)
      requires Chained(list) && Distinct(list) && Clocked(list, times)
      requires 1 <= k < |list| - 1 && prev == list[k - 1] && t == list[k]
      modifies this`list, this`times, prev`next
      ensures list == Removed(old(list), k) && times == Removed(old(times), k)
      ensures Chained(list) && Clocked(list, times)
    {
      prev.next := t.next;
      RemovedAt(list, k);
      RemovedAt(times, k);
      list, times := Removed(list, k), Removed(times, k);
    }

    /** The search of sched_del_timer. */
    method FindBefore(del: Timer) returns (prev: Timer?, ghost k: nat)
      requires Chained(list) && list[0] == timerList && timerList != del
      ensures prev == null ==> del !in list
      ensures prev != null ==> 1 <= k < |list| && prev == list[k - 1] && del == list[k]
    {
      var pos := timerList;
      ghost var i := 0;
      while pos.next != null
        invariant 0 <= i < |list| && pos == list[i]
        invariant del !in list[..i + 1]
        decreases |list| - i
      {
        if pos.next == del {
          return pos, i + 1;
        }
        pos := pos.next;
        i := i + 1;
      }
      NextAt(list, i);
      assert list[..i + 1] == list;
      return null, 0;
    }

    lemma ReplacedMembers(list: seq<Timer>)
      requires |list| > 1 && Distinct(list) && deleted !in list && IsUser(list[0])
      ensures var l := [deleted] + list[1..];
        Distinct(l) && (forall x :: x in l <==> x == deleted || (x in list && x != list[0])) && Users(l) == Users(list) - {list[0]}
    {
      DistinctTail(list, 0);
      HeadApart(list);
      var l := [deleted] + list[1..];
      assert forall i :: 1 <= i < |l| ==> l[i] == list[i];
    }

    lemma ReplacedHead(list: seq<Timer>, first: Timer, last: Timer)
      requires Distinct(list) && Shaped(list, first, last) && IsUser(list[0])
      ensures var l := [deleted] + list[1..];
        && Distinct(l) && Shaped(l, deleted, if last == list[0] then periodic else last)
        && Users(l) == Users(list) - {list[0]}
      ensures |list| > 1 && deleted !in list && periodic != deleted && list[0] == first
    {
      hide Distinct, Users;
      ReplacedMembers(list);
      var l := [deleted] + list[1..];
      assert forall i :: 1 <= i < |l| ==> l[i] == list[i];
    }

    lemma ReplacedAnchored(list: seq<Timer>, times: seq<uint32>, front: nat)
      requires |list| > 0 && Anchored(list, times, front) && IsUser(list[0]) && periodic != deleted
      ensures Anchored([deleted] + list[1..], times, front)
    {
      hide Wrap;
      var l := [deleted] + list[1..];
      assert forall i :: 1 <= i < |l| ==> l[i] == list[i];
    }

    method ReplaceHead(del: Timer)
      requires Chained(list) && Clocked(list, times) && list[0] == timerList == del && |list| > 1
      requires deleted !in list && del != deleted
      modifies this`list, this`timerList, deleted
      ensures list == [deleted] + old(list)[1..] && timerList == deleted && deleted.waketime == old(del.waketime)
      ensures Chained(list) && Clocked(list, times)
    {
      deleted.waketime := del.waketime;
      deleted.next := del.next;
      timerList := deleted;
      list := [deleted] + list[1..];
      assert forall i :: 1 <= i < |list| ==> list[i] == old(list)[i];
    }

    lemma HeadIs()
      requires Linked()
      ensures |list| > 1 && list[0] == timerList
    {
    }

    method DelHead(del: Timer)
      requires Linked() && Settled() && IsUser(del) && timerList == del
      modifies this`list, this`timerList, this`lastInsert, deleted
      ensures Linked() && Settled() && Live() == old(Live()) - {del}
      ensures forall x <- list :: x in old(list) || x == deleted
      ensures lastInsert == if old(lastInsert) == del then periodic else old(lastInsert)
      ensures deleted.waketime == del.waketime
    {
      hide SortedFrom, Wrap, Anchored, Distinct, Users, Shaped, Chained, Clocked;
      HeadIs();
      ReplacedHead(list, timerList, lastInsert);
      ReplacedAnchored(list, times, front);
      ReplaceHead(del);
      if lastInsert == del {
        lastInsert := periodic;
      }
    }

    method DelInner(prev: Timer, del: Timer, ghost k: nat)
      requires Linked() && Settled() && IsUser(del)
      requires 1 <= k < |list| && prev == list[k - 1] && del == list[k]
      modifies this`list, this`times, this`front, this`lastInsert, prev`next
      ensures Linked() && Settled() && Live() == old(Live()) - {del} && front <= old(front)
      ensures forall x <- list :: x in old(list)
      ensures lastInsert == if old(lastInsert) == del then periodic else old(lastInsert)
    {
      hide SortedFrom, Anchored, Wrap;
      RemovedShaped(list, k, timerList, lastInsert);
      RemovedOrder(list, times, front, k);
      RemovedAnchored(list, times, front, k);
      front := Closed(front, k);
      Unlink(prev, del, k);
      if lastInsert == del {
        lastInsert := periodic;
      }
    }

    /** sched_del_timer: t is no longer live, and nothing else changes, whether or not it was. */
    method DelTimer(del: Timer)
      requires Linked() && Settled() && IsUser(del)
      modifies this`list, this`times, this`front, this`timerList, this`lastInsert, deleted, list`next
      ensures Linked() && Settled() && Live() == old(Live()) - {del} && front <= old(front)
      ensures forall x <- list :: x in old(list) || (x == deleted && old(timerList) == del)
      ensures lastInsert == if old(lastInsert) == del then periodic else old(lastInsert)
      ensures deleted.waketime == if old(timerList) == del then del.waketime else old(deleted.waketime)
    {
      hide SortedFrom, Anchored, Wrap;
      if timerList == del {
        DelHead(del);
      } else {
        var prev, k := FindBefore(del);
        if prev != null {
          DelInner(prev, del, k);
        }
      }
    }

    // ---------------------------------------------------------------- the end of a dispatch

    /** Where the order begins behind index k. */
    ghost function TailFront(front: nat, k: nat): nat { if front > k then front - k - 1 else 0 }

    lemma TailOrder(list: seq<Timer>, times: seq<uint32>, front: nat, k: nat)
      requires Anchored(list, times, front) && SortedFrom(times, front) && k < |list| - 1
      requires periodic != sentinel && list[|list| - 1] == sentinel && periodic in list[k + 1..]
      ensures Anchored(list[k + 1..], times[k + 1..], TailFront(front, k))
      ensures SortedFrom(times[k + 1..], TailFront(front, k))
    {
      hide Wrap, SortedFrom;
      var l, ts := list[k + 1..], times[k + 1..];
      assert forall i :: 0 <= i < |l| ==> l[i] == list[k + 1 + i] && ts[i] == times[k + 1 + i];
      var ip := PeriodicInside(l);
      if front <= k {
        SortedTail(times, front, k + 1);
        SortedDrop(times, k + 1, k + 1);
      } else {
        SortedDrop(times, front, k + 1);
      }
    }

    lemma SortedDrop(times: seq<uint32>, f: nat, k: nat)
      requires SortedFrom(times, f) && k <= f
      ensures SortedFrom(times[k..], f - k)
    {
      hide Wrap, Off;
      var ts := times[k..];
      forall i | f - k <= i < |ts| - 1 ensures Off(ts[f - k], ts[i]) < HALF {
        assert ts[i] == times[k + i];
      }
      forall i, j | f - k <= i < j < |ts| - 1 ensures Off(ts[f - k], ts[i]) <= Off(ts[f - k], ts[j]) {
        assert ts[i] == times[k + i] && ts[j] == times[k + j];
      }
    }

    lemma TailShaped(was: seq<Timer>, k: nat, first: Timer, last: Timer, last': Timer)
      requires Distinct(was) && Shaped(was, first, last) && k < |was| - 1 && periodic in was[k + 1..]
      requires last in was[k..] && last' == if last == was[k] then was[k + 1] else last
      ensures Distinct(was[k + 1..]) && Shaped(was[k + 1..], was[k + 1], last')
    {
      var l := was[k + 1..];
      TailDeleted(was, k, first, last);
      assert l[0] == was[k + 1] && l[|l| - 1] == was[|was| - 1];
      if last == was[k] {
        var ip := PeriodicInside(l);
        assert was[k + 1] != was[|was| - 1];
      } else {
        LastBehind(was, k, last);
      }
      DistinctTail(was, k);
    }

    lemma TailChained(list: seq<Timer>, times: seq<uint32>, k: nat)
      requires Chained(list) && Clocked(list, times) && k < |list|
      ensures Chained(list[k..]) && Clocked(list[k..], times[k..])
    {
      var l := list[k..];
      forall i | 0 <= i < |l| - 1 ensures l[i].next == l[i + 1] {
        assert l[i] == list[k + i];
        assert list[k + i].next == list[k + i + 1];
      }
    }

    lemma HeadApart(list: seq<Timer>)
      requires Distinct(list) && |list| > 0
      ensures list[0] !in list[1..] && forall x :: x in list[1..] <==> x in list && x != list[0]
      ensures Users(list[1..]) == Users(list) - {list[0]}
    {
    }

    /** The end of sched_timer_dispatch after SF_DONE, with t at index k of the list: what is ahead of t
        is dropped with it. */
    method EndDone(t: Timer, ghost k: nat) returns (next: uint32)
      requires Linked() && Settled() && k < |list| - 1 && list[k] == t
      requires periodic in list[k + 1..] && lastInsert in list[k..]
      modifies this`list, this`times, this`front, this`timerList, this`lastInsert
      ensures Linked() && Settled() && list == old(list)[k + 1..] && times == old(times)[k + 1..]
      ensures front == TailFront(old(front), k) && next == list[0].waketime
      ensures lastInsert == if old(lastInsert) == t then list[0] else old(lastInsert)
    {
      hide SortedFrom, Anchored, Wrap, Distinct;
      NextAt(list, k);
      TailChained(list, times, k + 1);
      TailOrder(list, times, front, k);
      ghost var last := lastInsert;
      next := t.next.waketime;
      timerList := t.next;
      if lastInsert == t {
        lastInsert := t.next;
      }
      TailShaped(list, k, list[0], last, lastInsert);
      list, times, front := list[k + 1..], times[k + 1..], TailFront(front, k);
    }

    /** sched_timer_dispatch when the callback of the head returns SF_DONE.  The value returned is
        the time of the new head, for the hardware. */
    method DispatchDone(t: Timer) returns (next: uint32)
      requires Linked() && Settled() && timerList == t && t != periodic
      modifies this`list, this`times, this`front, this`timerList, this`lastInsert
      ensures Linked() && Settled() && Live() == old(Live()) - {t}
      ensures list == old(list)[1..] && next == list[0].waketime && front == if old(front) > 0 then old(front) - 1 else 0
      ensures lastInsert == if old(lastInsert) == t then list[0] else old(lastInsert)
    {
      hide SortedFrom, Anchored, Wrap;
      HeadApart(list);
      assert list[0..] == list;
      next := EndDone(t, 0);
    }

    /** The start of the walk: last_insert, unless it is later than the new time. */
    method WalkFrom(t: Timer, updated: uint32) returns (pos: Timer, ghost p: int)
      requires Clocked(list, times) && |list| > 1 && list[0] == timerList && !IsBefore(updated, times[0])
      requires t.waketime == updated && t.next == list[0]
      requires lastInsert == t || (lastInsert in list && lastInsert != list[|list| - 1])
      ensures -1 <= p < |list| - 1
      ensures p >= 0 ==> pos == list[p] && !IsBefore(updated, times[p])
      ensures p == -1 ==> pos == t
      ensures p > 0 ==> lastInsert == list[p]
    {
      OffSelf(updated);
      hide IsBefore;
      pos := lastInsert;
      if pos == t {
        p := -1;
      } else {
        p :| 0 <= p < |list| && list[p] == pos;
      }
      if IsBefore(updated, pos.waketime) {
        pos := timerList;
        p := 0;
      }
    }

    /** The walk from last_insert meets a later timer unless the new time is before the periodic timer
        and last_insert is not. */
    ghost predicate Met(updated: uint32, last: uint32, anchor: uint32) {
      IsBefore(updated, last) || !IsBefore(updated, anchor) || IsBefore(last, anchor)
    }

    /** What Reinsert needs of the list from which t has been unlinked. */
    ghost predicate Waiting(list: seq<Timer>, times: seq<uint32>, front: nat, first: Timer, last: Timer, t: Timer, updated: uint32) {
      && |list| > 1 && list[0] == first && list[|list| - 1] == sentinel && t !in list && t != deleted && t != sentinel
      && periodic != sentinel && periodic != deleted && sentinel != deleted
      && (forall i :: 0 <= i < |list| ==> list[i] != deleted)
      && (last == t || (last in list && last != sentinel))
      && (if t == periodic then front == 0 && |times| == |list| && times[|list| - 1] == Wrap(updated + HALF)
          else periodic in list && Anchored(list, times, front))
    }

    /** Narrows the ordered part if the new time is more than half the range after its beginning, and
        finds a timer at which the walk stops. */
    ghost method Foresee(t: Timer, updated: uint32, p: int) returns (e: nat)
      requires Distinct(list) && Clocked(list, times) && SortedFrom(times, front) && Waiting(list, times, front, timerList, lastInsert, t, updated) && -1 <= p < |list| - 1
      requires !IsBefore(updated, times[0]) && (p >= 0 ==> !IsBefore(updated, times[p]))
      requires t != periodic && p > 0 ==> Met(updated, times[p], periodic.waketime) || AheadOf(list, list[p])
      modifies this`front
      ensures SortedFrom(times, front) && Waiting(list, times, front, timerList, lastInsert, t, updated) && (old(front) == 0 ==> front == 0)
      ensures p < e < |list| && IsBefore(updated, times[e]) && (p > front ==> !IsBefore(updated, times[front]))
    {
      hide Wrap;
      OffSelf(updated);
      e := |list| - 1;
      if t != periodic {
        var ip := PeriodicInside(list);
        MeetsLater(list, times, front, ip, updated);
        if p > 0 && AheadOf(list, list[p]) {
          AheadIs(list, list[p], p, ip);
        }
        if p > ip {
          SortedTail(times, front, ip);
        }
        if p > front && IsBefore(updated, times[front]) {
          SortedTail(times, front, ip);
          front := ip;
        }
        if p < ip && IsBefore(updated, times[ip]) {
          e := ip;
        }
      }
    }

    method Reinsert(t: Timer, updated: uint32)
      requires Chained(list) && Distinct(list) && t.waketime == updated && t.next == list[0]
      requires Clocked(list, times) && SortedFrom(times, front) && !IsBefore(updated, times[0]) && 0 < period < HALF
      requires Waiting(list, times, front, timerList, lastInsert, t, updated)
      requires t == periodic || lastInsert == t || Met(updated, lastInsert.waketime, periodic.waketime) || AheadOf(list, lastInsert)
      modifies this`list, this`times, this`front, this`lastInsert, t`next, list`next
      ensures Linked() && Settled() && lastInsert == t && list[0] == old(list[0]) && (old(front) == 0 ==> front == 0)
      ensures Users(list) == Users(old(list)) + (if IsUser(t) then {t} else {}) && forall x <- list :: x in old(list) || x == t
    {
      hide SortedFrom, IsBefore, Wrap, Met, Waiting, Shaped, Users, Anchored, AheadOf, Chained, Distinct;
      WaitingFacts(list, times, front, timerList, lastInsert, t, updated);
      var pos, p := WalkFrom(t, updated);
      ghost var e := Foresee(t, updated, p);
      WaitingFacts(list, times, front, timerList, lastInsert, t, updated);
      ghost var list0, times0, front0 := list, times, front;
      ghost var k := InsertTimer(pos, t, updated, p, e);
      WaitingInserted(list0, times0, front0, timerList, lastInsert, t, updated, k);
      lastInsert := t;
    }

    lemma WaitingFacts(list: seq<Timer>, times: seq<uint32>, front: nat, first: Timer, last: Timer, t: Timer, updated: uint32)
      requires Waiting(list, times, front, first, last, t, updated)
      ensures |list| > 1 && list[0] == first && t !in list && (last == t || (last in list && last != list[|list| - 1]))
      ensures if t == periodic then front == 0 && |times| == |list| && times[|list| - 1] == Wrap(updated + HALF)
              else Anchored(list, times, front)
    {
    }

    lemma WaitingInserted(list: seq<Timer>, times: seq<uint32>, front: nat, first: Timer, last: Timer, t: Timer, updated: uint32, k: nat)
      requires Distinct(list) && Waiting(list, times, front, first, last, t, updated) && 1 <= k < |list|
      ensures Distinct(Inserted(list, k, t)) && Shaped(Inserted(list, k, t), first, t) && Inserted(list, k, t)[0] == list[0]
      ensures Users(Inserted(list, k, t)) == Users(list) + if IsUser(t) then {t} else {}
      ensures forall x <- Inserted(list, k, t) :: x in list || x == t
    {
      hide Anchored, Wrap;
      InsertedShaped(list, k, t, first, t);
    }

    /** The new time is not before that of the timer behind t, which is at index k: what is up to t is
        unlinked, and t is linked in again. */
    method Requeue(t: Timer, updated: uint32, ghost k: nat, ghost f: nat)
      requires Chained(list) && Distinct(list) && Clocked(list, times) && k < |list| - 1 && list[k] == t && t.waketime == updated
      requires SortedFrom(times[k + 1..], f) && !IsBefore(updated, times[k + 1]) && 0 < period < HALF
      requires Shaped(list, timerList, lastInsert) && lastInsert in list[k..] && t != deleted
      requires if t == periodic then f == 0 && times[|list| - 1] == Wrap(updated + HALF)
               else periodic in list[k + 1..] && Anchored(list[k + 1..], times[k + 1..], f)
      requires t == periodic || lastInsert == t || Met(updated, lastInsert.waketime, periodic.waketime) || AheadOf(list, lastInsert)
      modifies this`list, this`times, this`front, this`timerList, this`lastInsert, t`next, list`next
      ensures Linked() && Settled() && (f == 0 ==> front == 0) && list[0] == timerList == old(list)[k + 1] && lastInsert == t
      ensures Users(list) == Users(old(list)[k + 1..]) + (if IsUser(t) then {t} else {}) && forall x <- list :: x in old(list)
    {
      hide SortedFrom, IsBefore, Wrap, Met, Anchored, Users, Waiting, AheadOf, Distinct, Shaped;
      NextAt(list, k);
      TailChained(list, times, k + 1);
      AtLeastTwo(times[k + 1..], f);
      TailWaiting(list, times, k, f, timerList, lastInsert, updated);
      if lastInsert != t && AheadOf(list, lastInsert) {
        LastBehind(list, k, lastInsert);
        AheadTail(list, lastInsert, k);
      }
      timerList := t.next;
      list, times, front := list[k + 1..], times[k + 1..], f;
      Reinsert(t, updated);
    }

    lemma LastBehind(list: seq<Timer>, k: nat, last: Timer)
      requires k < |list| && last in list[k..] && last != list[k]
      ensures last in list[k + 1..]
    {
      assert list[k..] == [list[k]] + list[k + 1..];
    }

    lemma AtLeastTwo(times: seq<uint32>, f: nat)
      requires SortedFrom(times, f)
      ensures |times| >= 2
    {
    }

    lemma TailWaiting(list: seq<Timer>, times: seq<uint32>, k: nat, f: nat, first: Timer, last: Timer, updated: uint32)
      requires Distinct(list) && Shaped(list, first, last) && k < |list| - 2 && |times| == |list| && last in list[k..] && list[k] != deleted
      requires if list[k] == periodic then f == 0 && times[|list| - 1] == Wrap(updated + HALF)
               else periodic in list[k + 1..] && Anchored(list[k + 1..], times[k + 1..], f)
      ensures Distinct(list[k + 1..]) && Waiting(list[k + 1..], times[k + 1..], f, list[k + 1], last, list[k], updated)
    {
      hide Wrap, Anchored, Distinct;
      var l := list[k + 1..];
      DistinctTail(list, k);
      TailDeleted(list, k, first, last);
      if last != list[k] {
        LastBehind(list, k, last);
      }
      assert l[|l| - 1] == list[|list| - 1];
    }

    lemma TailDeleted(list: seq<Timer>, k: nat, first: Timer, last: Timer)
      requires Shaped(list, first, last) && k < |list|
      ensures deleted !in list[k + 1..]
    {
    }

    // ---------------------------------------------------------------- rescheduling

    /** The comparisons of sched_timer_dispatch agree: t stays first, or the walk stops on the list. */
    predicate Compares(t: Timer, updated: uint32)
      reads this, t, t.next, lastInsert, periodic
    {
      || (t.next != null && IsBefore(updated, t.next.waketime))
      || lastInsert == t || IsBefore(updated, lastInsert.waketime)
      || !IsBefore(updated, periodic.waketime) || IsBefore(lastInsert.waketime, periodic.waketime)
    }

    lemma StaysSorted(times: seq<uint32>, k: nat, g: nat, updated: uint32)
      requires k < |times| && SortedFrom(times[k + 1..], g)
      ensures SortedFrom(times[k := updated], k + 1 + g)
    {
      hide Wrap, Off;
      var ts, tail := times[k := updated], times[k + 1..];
      forall i | k + 1 + g <= i < |ts| - 1 ensures Off(ts[k + 1 + g], ts[i]) < HALF {
        assert ts[i] == tail[i - k - 1];
      }
      forall i, j | k + 1 + g <= i < j < |ts| - 1 ensures Off(ts[k + 1 + g], ts[i]) <= Off(ts[k + 1 + g], ts[j]) {
        assert ts[i] == tail[i - k - 1] && ts[j] == tail[j - k - 1];
      }
    }

    /** With a new time at the head the list is in order exactly when no other timer is before it. */
    lemma HeadSorted(times: seq<uint32>, updated: uint32)
      requires |times| > 0 && SortedFrom(times[1..], 0)
      ensures SortedFrom(times[0 := updated], 0) <==> NoneBefore(times[1..], updated)
    {
      hide Wrap;
      var ts, tail := times[0 := updated], times[1..];
      if NoneBefore(tail, updated) {
        PrependSorted(tail, updated);
        assert [updated] + tail == ts;
      }
      if SortedFrom(ts, 0) {
        forall i | 0 <= i < |tail| - 1 ensures !IsBefore(tail[i], updated) {
          assert ts[i + 1] == tail[i];
        }
      }
    }

    lemma StaysAnchored(list: seq<Timer>, times: seq<uint32>, k: nat, g: nat, updated: uint32, f: nat)
      requires |times| == |list| && k < |list| - 1 && Anchored(list[k + 1..], times[k + 1..], g)
      requires periodic !in list[..k + 1] && f <= k + 1 + g
      ensures Anchored(list, times[k := updated], f)
    {
      hide Wrap;
      var l, ts := list[k + 1..], times[k + 1..];
      forall i | 0 <= i <= k ensures list[i] != periodic {
        assert list[..k + 1][i] == list[i];
      }
      forall i | k < i < |list| && list[i] == periodic
        ensures f <= i && times[k := updated][|list| - 1] == Wrap(times[k := updated][i] + HALF)
      {
        assert l[i - k - 1] == list[i] && ts[i - k - 1] == times[i] && ts[|ts| - 1] == times[|list| - 1];
      }
    }

    /** The end of sched_timer_dispatch after the callback of t, at index k of the list, has set a new time.
        If t has to move, what is ahead of it is dropped. */
    method EndReschedule(t: Timer, updated: uint32, ghost k: nat) returns (next: uint32)
      requires Linked() && Settled() && k < |list| - 1 && list[k] == t && IsUser(t) && lastInsert in list[k..]
      requires periodic in list[k + 1..] && periodic !in list[..k + 1] && (Compares(t, updated) || AheadOf(list, lastInsert))
      modifies this`list, this`times, this`front, this`timerList, this`lastInsert, t, list`next
      ensures Linked() && Settled() && t.waketime == updated && forall x <- list :: x in old(list)
      ensures var moved := !IsBefore(updated, old(times)[k + 1]);
        && next == (if moved then old(times)[k + 1] else updated)
        && (moved ==> Users(list) == Users(old(list)[k + 1..]) + {t} && list[0] == old(list)[k + 1] && lastInsert == t)
        && (!moved ==> list == old(list) && lastInsert == old(lastInsert))
        && (k == 0 && old(front) == 0 ==> (front == 0 <==> moved || NoneBefore(old(times)[1..], updated)))
    {
      hide SortedFrom, NoneBefore, IsBefore, Wrap, Anchored, Users, AheadOf;
      NextAt(list, k);
      TailOrder(list, times, front, k);
      ghost var g, ts := TailFront(front, k), times;
      ClockedAt(list, times, k);
      t.waketime := updated;
      times := times[k := updated];
      assert times[k + 1..] == ts[k + 1..];
      if !IsBefore(updated, t.next.waketime) {
        next := t.next.waketime;
        Requeue(t, updated, k, g);
      } else {
        next := updated;
        StaysSorted(ts, k, g, updated);
        if k == 0 && g == 0 {
          HeadSorted(ts, updated);
        }
        front := if k == 0 && g == 0 && NoneBefore(ts[1..], updated) then 0 else k + 1 + g;
        StaysAnchored(list, ts, k, g, updated, front);
      }
    }

    lemma ClockedAt(list: seq<Timer>, times: seq<uint32>, k: nat)
      requires Clocked(list, times) && k < |list| - 1
      ensures |times| == |list| && list[k].waketime == times[k] && list[k + 1].waketime == times[k + 1]
    {
    }

    /** sched_timer_dispatch when the callback of the head reschedules it for `updated`. */
    method DispatchReschedule(t: Timer, updated: uint32) returns (next: uint32)
      requires Linked() && Settled() && timerList == t && IsUser(t) && (Compares(t, updated) || AheadOf(list, lastInsert))
      modifies this`list, this`times, this`front, this`timerList, this`lastInsert, t, list`next
      ensures Linked() && Settled() && Live() == old(Live()) && t.waketime == updated && next == list[0].waketime
      ensures forall x <- list :: x in old(list)
      ensures if IsBefore(updated, old(times)[1]) then list == old(list) && lastInsert == old(lastInsert)
              else list[0] == old(list)[1] && lastInsert == t
      ensures old(Ordered()) ==> (Ordered() <==> !IsBefore(updated, old(times)[1]) || NoneBefore(old(times)[1..], updated))
    {
      hide SortedFrom, NoneBefore, IsBefore, Wrap, Anchored, Compares, AheadOf;
      HeadApart(list);
      assert list[0..] == list && list[..1] == [t];
      ClockedAt(list, times, 0);
      next := EndReschedule(t, updated, 0);
    }

    /** While the list is in order, the comparisons agree for every new time. */
    lemma OrderedCompares(t: Timer, updated: uint32)
      requires Linked() && Ordered() && timerList == t && IsUser(t)
      ensures Compares(t, updated)
    {
      hide Wrap;
      NextAt(list, 0);
      var b := times[1];
      if !IsBefore(updated, b) && lastInsert != t {
        var p :| 0 <= p < |list| && list[p] == lastInsert;
        var ip := PeriodicInside(list);
        SortedTail(times, 0, 1);
        OffBefore(b, updated, times[p]);
        OffBefore(b, updated, times[ip]);
        OffBefore(b, times[p], times[ip]);
      }
    }

    /** If they do not agree and last_insert is not ahead of the periodic timer, the walk of insert_timer,
        from the p-th timer on, finds no later timer and runs past the sentinel. */
    lemma WalkRunsOff(t: Timer, updated: uint32, p: nat, i: nat)
      requires Linked() && Settled() && !Compares(t, updated) && !AheadOf(list, lastInsert)
      requires p < |list| && list[p] == lastInsert && p <= i < |list|
      ensures !IsBefore(updated, times[i])
    {
      hide Wrap;
      var ip := PeriodicInside(list);
      assert ip < p;
      SortedTail(times, front, ip);
      var a, li := times[ip], times[p];
      OffSelf(a);
      assert Off(a, updated) >= HALF && Off(li, updated) < HALF && Off(a, li) < HALF;
      OffSum(a, li, updated);
      assert Off(a, li) <= Off(a, times[i]) <= HALF;
      OffPast(a, updated, times[i]);
    }

    // ---------------------------------------------------------------- the periodic timer

    lemma PeriodicStays(times: seq<uint32>, u: uint32)
      requires SortedFrom(times, 0) && u == Wrap(times[0] + period) && 0 < period < HALF
      requires |times| > 2 ==> IsBefore(u, times[1])
      ensures SortedFrom(times[0 := u][|times| - 1 := Wrap(u + HALF)], 0)
    {
      hide Wrap, Off, IsBefore;
      var b, r := times[0], times[0 := u][|times| - 1 := Wrap(u + HALF)];
      OffSelf(u);
      OffPeriod(b, u);
      forall i | 1 <= i < |times| - 1 ensures Off(u, r[i]) == Off(b, times[i]) - period {
        OffBefore(b, u, times[1]);
        OffShift(b, u, times[i]);
      }
      forall i | 0 <= i < |r| - 1 ensures Off(u, r[i]) < HALF {
        assert i == 0 || 1 <= i;
      }
      forall i, j | 0 <= i < j < |r| - 1 ensures Off(u, r[i]) <= Off(u, r[j]) {
        assert i == 0 || 1 <= i;
      }
    }

    lemma OffPeriod(b: uint32, u: uint32)
      requires u == Wrap(b + period) && 0 < period < HALF
      ensures Off(b, u) == period
    {
    }

    /** periodic_event, with the periodic timer at the head. */
    method PeriodicEvent()
      requires Chained(list) && Distinct(list) && Clocked(list, times) && |list| > 1
      requires list[0] == periodic && list[|list| - 1] == sentinel
      modifies this`times, periodic`waketime, sentinel`waketime
      ensures Chained(list) && Clocked(list, times)
      ensures var u := Wrap(old(times)[0] + period);
        && times == old(times)[0 := u][|list| - 1 := Wrap(u + HALF)]
        && periodic.waketime == u && sentinel.waketime == Wrap(u + HALF)
    {
      hide Wrap;
      periodic.waketime := Wrap(periodic.waketime + period);
      sentinel.waketime := Wrap(periodic.waketime + HALF);
      times := times[0 := periodic.waketime][|list| - 1 := sentinel.waketime];
    }

    lemma PeriodicHead(list: seq<Timer>, times: seq<uint32>, front: nat, first: Timer, last: Timer)
      requires Distinct(list) && Shaped(list, first, last) && Anchored(list, times, front) && list[0] == periodic
      ensures front == 0 && last in list[0..] && |list| == |times| > 1 && Users(list[1..]) == Users(list)
      ensures list[|list| - 1] == sentinel && periodic != deleted && list[0] == first
    {
      hide Wrap;
      assert list[0..] == list;
      HeadApart(list);
    }

    lemma PeriodicAnchored(list: seq<Timer>, times: seq<uint32>)
      requires Distinct(list) && |times| == |list| > 1 && list[0] == periodic && times[|list| - 1] == Wrap(times[0] + HALF)
      ensures Anchored(list, times, 0)
    {
      hide Wrap;
    }

    /** sched_timer_dispatch with the periodic timer at the head: periodic_event moves the sentinel along. */
    method DispatchPeriodic() returns (next: uint32)
      requires Linked() && Settled() && timerList == periodic
      modifies this`list, this`times, this`front, this`timerList, this`lastInsert, periodic, sentinel`waketime, list`next
      ensures Linked() && Ordered() && Live() == old(Live()) && next == list[0].waketime
      ensures forall x <- list :: x in old(list)
      ensures periodic.waketime == Wrap(old(periodic.waketime) + period) && sentinel.waketime == Wrap(periodic.waketime + HALF)
    {
      hide SortedFrom, IsBefore, Wrap, Users, Anchored, Distinct, Shaped, Chained, Clocked;
      var t := timerList;
      HeadIs();
      PeriodicHead(list, times, front, timerList, lastInsert);
      ghost var ts := times;
      ClockedAt(list, times, 0);
      PeriodicEvent();
      next := periodic.waketime;
      NextAt(list, 0);
      ClockedAt(list, times, 0);
      if !IsBefore(next, t.next.waketime) {
        PeriodicMoves(ts, next);
        Requeue(t, next, 0, 0);
        next := timerList.waketime;
      } else {
        PeriodicStays(ts, next);
        PeriodicAnchored(list, times);
      }
    }

    lemma PeriodicMoves(ts: seq<uint32>, u: uint32)
      requires SortedFrom(ts, 0) && !IsBefore(u, ts[0 := u][|ts| - 1 := Wrap(u + HALF)][1])
      ensures |ts| > 2 && SortedFrom(ts[0 := u][|ts| - 1 := Wrap(u + HALF)][1..], 0)
    {
      OffSelf(u);
      hide Wrap;
      SortedTail(ts, 0, 1);
      var r := ts[0 := u][|ts| - 1 := Wrap(u + HALF)][1..];
      assert forall i :: 0 <= i < |r| - 1 ==> r[i] == ts[i + 1];
    }

    // ---------------------------------------------------------------- reset

    lemma ResetOrder(l: seq<Timer>, p: uint32)
      requires l == [deleted, periodic, sentinel] && periodic != sentinel && periodic != deleted && sentinel != deleted
      ensures Distinct(l) && Shaped(l, deleted, periodic) && Users(l) == {}
      ensures Anchored(l, [p, p, Wrap(p + HALF)], 0) && SortedFrom([p, p, Wrap(p + HALF)], 0)
    {
      OffSelf(p);
      hide Wrap;
    }

    /** The periodic timer and the sentinel are half the range apart. */
    lemma SentinelTime()
      requires Linked() && Settled()
      ensures sentinel.waketime == Wrap(periodic.waketime + HALF) && sentinel.next == null
      ensures periodic != sentinel && periodic != deleted && sentinel != deleted
    {
      hide Wrap, SortedFrom;
      var ip := PeriodicInside(list);
      assert list[|list| - 1] == sentinel;
    }

    /** sched_timer_reset: no user timer stays live. */
    method Reset()
      requires Linked() && Settled()
      modifies this`list, this`times, this`front, this`timerList, this`lastInsert, deleted, periodic`next
      ensures Linked() && Ordered() && Live() == {} && timerList == deleted
    {
      hide SortedFrom, Anchored, Wrap, Distinct, Shaped, Users;
      SentinelTime();
      timerList := deleted;
      deleted.waketime := periodic.waketime;
      deleted.next := periodic;
      lastInsert := periodic;
      periodic.next := sentinel;
      var p := periodic.waketime;
      list, times, front := [deleted, periodic, sentinel], [p, p, Wrap(p + HALF)], 0;
      ResetOrder(list, p);
    }

    // ---------------------------------------------------------------- adding inside a callback

    /** t is at index k of the list, and the periodic timer and last_insert are not ahead of it. */
    ghost predicate Within(list: seq<Timer>, last: Timer, k: nat, t: Timer) {
      && k < |list| - 1 && list[k] == t && last in list[k..]
      && periodic in list[k + 1..] && periodic !in list[..k + 1]
    }

    lemma LaterList(list: seq<Timer>, last: Timer)
      requires |list| > 0 && Distinct(list) && Shaped(list, list[0], last) && IsUser(list[0])
      ensures Within(list, last, 0, list[0]) && Users(list[1..]) == Users(list) - {list[0]}
    {
      HeadApart(list);
      assert list[0..] == list && list[..1] == [list[0]];
    }

    lemma EarlyList(was: seq<Timer>, last: Timer, add: Timer)
      requires |was| > 0 && Distinct(was) && Shaped(was, was[0], last) && IsUser(was[0]) && IsUser(add)
      ensures var l := [deleted, add] + was;
        Within(l, last, 2, was[0]) && l[3..] == was[1..] && Users(was[1..]) == Users(was) - {was[0]}
    {
      var l := [deleted, add] + was;
      HeadApart(was);
      assert l[3..] == was[1..] && l[2..] == was && l[..3] == [deleted, add, was[0]];
    }

    /** sched_add_timer from the callback of t, which is then at index k. */
    method AddDuring(t: Timer, add: Timer, now: uint32) returns (ghost k: nat)
      requires Linked() && Settled() && timerList == t && IsUser(t) && IsUser(add) && add !in list
      modifies this`list, this`times, this`front, this`timerList, add, deleted, list`next
      ensures Linked() && Settled() && Within(list, lastInsert, k, t) && Live() == old(Live()) + {add}
      ensures AheadOf(old(list), lastInsert) ==> AheadOf(list, lastInsert)
      ensures forall x <- list :: x in old(list) || x == add || x == deleted
      ensures var early := IsBefore(old(add.waketime), old(t.waketime));
        && times[k + 1] == Behind(old(add.waketime), early, old(times)[1])
        && (early ==> Users(list[k + 1..]) == old(Live()) - {t})
        && (!early ==> Users(list[k + 1..]) == old(Live()) + {add} - {t})
    {
      hide SortedFrom, NoneBefore, IsBefore, Wrap, Anchored, Users, Chained, Distinct, Within, AheadOf;
      ghost var list0, times0, early := list, times, IsBefore(add.waketime, t.waketime);
      var late := AddTimer(add, now);
      if early {
        EarlyList(list0, lastInsert, add);
        k := 2;
        ClockedAt(list, times, 2);
        assert list[3] == list0[1];
      } else {
        LaterList(list, lastInsert);
        k := 0;
      }
    }

    /** The whole dispatch of a callback that adds a timer and then finishes, or reschedules itself for
        `again`.  The added timer is live afterwards unless it is earlier than the running one and that one
        does not stay first: then it was linked ahead of the running timer, and is dropped with it. */
    method AddInCallback(t: Timer, add: Timer, now: uint32, again: Option<uint32>)
      requires Linked() && Settled() && timerList == t && IsUser(t) && IsUser(add) && add !in list
      requires again.Some? ==>
        || lastInsert == t || Met(again.value, lastInsert.waketime, periodic.waketime) || AheadOf(list, lastInsert)
        || IsBefore(again.value, Behind(add.waketime, IsBefore(add.waketime, t.waketime), times[1]))
      modifies this`list, this`times, this`front, this`timerList, this`lastInsert, add, t, deleted, list`next
      ensures Linked() && Settled()
      ensures Live() - {add} == old(Live()) - if again.None? then {t} else {}
      ensures add in Live() <==>
        || !IsBefore(old(add.waketime), old(t.waketime))
        || (again.Some? && IsBefore(again.value, old(times)[1]))
    {
      hide SortedFrom, IsBefore, Wrap, Anchored, Users, AheadOf;
      UsersAre(list, t, add);
      ghost var list0 := list;
      ghost var k := AddDuring(t, add, now);
      assert forall i :: 0 <= i < |list| ==> list[i] in list0 || list[i] == add || list[i] == deleted;
      if again.Some? {
        var next := EndReschedule(t, again.value, k);
      } else {
        var next := EndDone(t, k);
      }
    }

    // ---------------------------------------------------------------- any run

    /** Whether last_insert is ahead of the periodic timer. */
    method LastAhead() returns (ahead: bool)
      requires Linked()
      ensures ahead <==> AheadOf(list, lastInsert)
    {
      ghost var p :| 0 <= p < |list| && list[p] == lastInsert;
      var pos := lastInsert;
      ghost var i := p;
      while pos.next != null
        invariant p <= i < |list| && pos == list[i]
        invariant forall j :: p < j <= i ==> list[j] != periodic
        decreases |list| - i
      {
        NextAt(list, i);
        pos := pos.next;
        i := i + 1;
        if pos == periodic {
          return true;
        }
      }
      NextAt(list, i);
      return false;
    }

    /** A timer interrupt.  The head finishes, or sets a new time if it is `again`; it is refused when the
        walk would run off the list, which cannot be while the list is in order. */
    method Interrupt(again: Option<uint32>, ghost b: uint32, ghost span: nat) returns (ok: bool, t: Timer)
      requires Linked() && Settled()
      modifies this`list, this`times, this`front, this`timerList, this`lastInsert, list
      ensures t == old(timerList) && Linked() && Settled() && (forall x <- list :: x in old(list))
      ensures ok ==> Live() == old(Live()) - if again.None? then {t} else {}
      ensures !ok ==> again.Some? && !Compares(t, again.value) && !AheadOf(list, lastInsert) && list == old(list) && timerList == t
      ensures old(Ordered()) ==> ok
      ensures var fits := (again.Some? ==> Off(b, again.value) <= span) && (t == periodic ==> Off(b, Wrap(old(t.waketime) + period)) <= span);
        old(Ordered() && InWindow(b, span)) && span < HALF && fits ==> Ordered() && InWindow(b, span)
    {
      hide SortedFrom, IsBefore, Wrap, Anchored, Compares, AheadOf, NoneBefore;
      t, ok := timerList, true;
      if t == periodic {
        var next := DispatchPeriodic();
      } else if t == deleted || again.None? {
        var next := DispatchDone(t);
      } else {
        ok := Compares(t, again.value);
        if !ok {
          ok := LastAhead();
        }
        if Ordered() {
          OrderedCompares(t, again.value);
          if InWindow(b, span) && span < HALF && Off(b, again.value) <= span && IsBefore(again.value, times[1]) {
            WindowTimes(b, span);
            NoneEarlier(times, b, span, again.value, 1);
          }
        }
        if ok {
          var next := DispatchReschedule(t, again.value);
        }
      }
    }

    /** Any mix of commands and interrupts: the list stays sound, and no live timer is lost.  It ends
        early only at a new time for which the walk would run off the list. */
    method Run(ops: seq<Op>, ghost all: set<Timer>) returns (n: nat, ran: seq<Timer>)
      requires Linked() && Settled() && deleted in all && forall x <- list :: x in all
      requires forall op <- ops :: (op.Add? || op.Delete?) ==> op.t in all && IsUser(op.t)
      modifies this`list, this`times, this`front, this`timerList, this`lastInsert, all
      ensures Linked() && Settled() && n <= |ops| && |ran| == n
      ensures n < |ops| ==> ops[n].Again? && !Compares(timerList, ops[n].updated) && !AheadOf(list, lastInsert)
      ensures Live() == LiveAfter(old(Live()), ops[..n], ran)
    {
      hide SortedFrom, IsBefore, Wrap, Anchored, Compares, Chained, Distinct, Shaped, Users, Clocked, AheadOf;
      n, ran := 0, [];
      while n < |ops|
        invariant Linked() && Settled() && n <= |ops| && |ran| == n && forall x <- list :: x in all
        invariant Live() == LiveAfter(old(Live()), ops[..n], ran)
      {
        var ok, t := Perform(ops[n], all, 0, 0);
        if !ok {
          return;
        }
        assert ops[..n + 1][..n] == ops[..n] && (ran + [t])[..n] == ran;
        n, ran := n + 1, ran + [t];
      }
    }

    method Perform(op: Op, ghost all: set<Timer>, ghost b: uint32, ghost span: nat) returns (ok: bool, t: Timer)
      requires Linked() && Settled() && deleted in all && forall x <- list :: x in all
      requires (op.Add? || op.Delete?) ==> op.t in all && IsUser(op.t)
      modifies this`list, this`times, this`front, this`timerList, this`lastInsert, all
      ensures Linked() && Settled() && forall x <- list :: x in all
      ensures ok ==> Live() == match op
        case Add(u, _, _) => old(Live()) + {u}
        case Delete(u) => old(Live()) - {u}
        case Done => old(Live()) - {t}
        case Again(_) => old(Live())
      ensures !ok ==> op.Again? && !Compares(timerList, op.updated) && !AheadOf(list, lastInsert) && Live() == old(Live())
      ensures old(Ordered() && InWindow(b, span) && Fits(op, b, span)) ==> ok && Ordered() && InWindow(b, span)
    {
      hide SortedFrom, IsBefore, Wrap, Anchored, Compares, Chained, Distinct, Shaped, Users, Clocked, AheadOf;
      ok := true;
      match op
      case Add(u, waketime, now) =>
        t := u;
        Readd(u, waketime, now, b, span);
      case Delete(u) =>
        t := u;
        Remove(u, b, span);
      case Done => ok, t := Interrupt(None, b, span);
      case Again(updated) => ok, t := Interrupt(Some(updated), b, span);
    }

    // ---------------------------------------------------------------- runs on time

    /** No timer but the sentinel is more than `span` after b. */
    ghost predicate InWindow(b: uint32, span: nat)
      reads this, list
    {
      forall x <- list :: x != sentinel ==> Off(b, x.waketime) <= span
    }

    /** What the operation sets is in the window too, and no timer is added late. */
    ghost predicate Fits(op: Op, b: uint32, span: nat)
      reads this, timerList
    {
      && span < HALF
      && (op.Add? ==> Off(b, op.waketime) <= span && !IsBefore(op.waketime, op.now))
      && (op.Again? ==> Off(b, op.updated) <= span)
      && ((op.Again? || op.Done?) && timerList == periodic ==> Off(b, Wrap(timerList.waketime + period)) <= span)
    }

    lemma WindowTimes(b: uint32, span: nat)
      requires Linked() && Settled() && InWindow(b, span)
      ensures forall i :: 0 <= i < |times| - 1 ==> Off(b, times[i]) <= span
    {
      hide Wrap, Off;
      forall i | 0 <= i < |times| - 1 ensures Off(b, times[i]) <= span {
        assert list[i] in list && list[i] != list[|list| - 1];
      }
    }

    method Remove(u: Timer, ghost b: uint32, ghost span: nat)
      requires Linked() && Settled() && IsUser(u)
      modifies this`list, this`times, this`front, this`timerList, this`lastInsert, deleted, list`next
      ensures Linked() && Settled() && Live() == old(Live()) - {u} && u !in list && front <= old(front)
      ensures forall x <- list :: x in old(list) || x == deleted
      ensures old(InWindow(b, span)) ==> InWindow(b, span)
    {
      hide SortedFrom, IsBefore, Wrap, Anchored, Chained, Distinct, Users, Clocked, Off;
      DelTimer(u);
      NotLive(u);
    }

    /** A time in the window before that of the head is before all others. */
    lemma EarlyFits(b: uint32, span: nat, w: uint32)
      requires Linked() && Ordered() && InWindow(b, span) && span < HALF && Off(b, w) <= span
      ensures IsBefore(w, timerList.waketime) ==> |times| == |list| > 0 && NoneBefore(RestTimes(), w)
    {
      hide SortedFrom, IsBefore, Wrap, Off, NoneBefore;
      if IsBefore(w, timerList.waketime) {
        WindowTimes(b, span);
        NoneEarlier(times, b, span, w, 0);
        assert times[0..] == times;
        TailNone(times, w);
      }
    }

    lemma TailNone(times: seq<uint32>, w: uint32)
      requires NoneBefore(times, w) && |times| > 0
      ensures NoneBefore(times[1..], w)
    {
    }

    method Readd(u: Timer, waketime: uint32, now: uint32, ghost b: uint32, ghost span: nat)
      requires Linked() && Settled() && IsUser(u)
      modifies this`list, this`times, this`front, this`timerList, this`lastInsert, u, deleted, list`next
      ensures Linked() && Settled() && Live() == old(Live()) + {u}
      ensures forall x <- list :: x in old(list) || x == deleted || x == u
      ensures old(Ordered() && InWindow(b, span)) && span < HALF && Off(b, waketime) <= span && !IsBefore(waketime, now) ==>
        Ordered() && InWindow(b, span)
    {
      hide SortedFrom, IsBefore, Wrap, Anchored, Chained, Distinct, Users, Clocked, Off, AheadOf, NoneBefore;
      ghost var list0 := list;
      Remove(u, b, span);
      u.waketime := waketime;
      assert forall i :: 0 <= i < |list| ==> list[i] in list0 || list[i] == deleted;
      if Ordered() && InWindow(b, span) && span < HALF && Off(b, waketime) <= span {
        EarlyFits(b, span, waketime);
      }
      var late := AddTimer(u, now);
    }

    /** Time goes on to `now`, at most d after the time of the head: the window moves along. */
    lemma WindowMoves(prev: int, now: int, w: nat, d: nat)
      requires Linked() && Ordered() && InWindow(Wrap(prev - d), w + d) && w + d < HALF
      requires prev <= now <= Due(prev, d, timerList.waketime) + d
      ensures InWindow(Wrap(now - d), w + d) && Due(now, d, timerList.waketime) == Due(prev, d, timerList.waketime)
    {
      hide Wrap, Off;
      var b, b' := Wrap(prev - d), Wrap(now - d);
      WindowTimes(b, w + d);
      ClockedAt(list, times, 0);
      OffLater(prev - d, now - d, times[0]);
      forall x | x in list && x != sentinel ensures Off(b', x.waketime) <= w + d {
        var i :| 0 <= i < |list| && list[i] == x;
        OffForward(b, times[0], times[i]);
        OffLater(prev - d, now - d, times[i]);
      }
    }

    /** An operation on time fits the window. */
    lemma OnTimeFits(op: Op, prev: int, now: int, w: nat, d: nat)
      requires OnTime(op, prev, now, timerList.waketime, w, d) && w + d < HALF && 0 < period <= w
      requires Due(now, d, timerList.waketime) == Due(prev, d, timerList.waketime)
      ensures Fits(op, Wrap(now - d), w + d)
    {
      if op.Add? {
        OffEarlier(now, d, op.waketime);
      }
      if (op.Again? || op.Done?) && timerList == periodic {
        OffPlus(Wrap(now - d), timerList.waketime, period);
      }
    }

    /** A run on time: time does not go back, no head is more than d overdue, interrupts do not come early,
        nothing is added late, and no new time is more than w ahead.  The list stays in order, every walk
        stops on it, and no live timer is lost.  The run ends early only at an operation that is not on
        time. */
    method RunOnTime(ops: seq<Op>, at: seq<int>, start: int, w: nat, d: nat, ghost all: set<Timer>) returns (n: nat, ran: seq<Timer>)
      requires Linked() && Ordered() && InWindow(Wrap(start - d), w + d) && w + d < HALF && period <= w && |at| == |ops|
      requires deleted in all && (forall x <- list :: x in all) && forall op <- ops :: (op.Add? || op.Delete?) ==> op.t in all && IsUser(op.t)
      modifies this`list, this`times, this`front, this`timerList, this`lastInsert, all
      ensures Linked() && Ordered() && n <= |ops| && |ran| == n && InWindow(Wrap(Before(at, start, n) - d), w + d)
      ensures n < |ops| ==> !OnTime(ops[n], Before(at, start, n), at[n], timerList.waketime, w, d)
      ensures n == 0 ==> timerList == old(timerList) && timerList.waketime == old(timerList.waketime)
      ensures Live() == LiveAfter(old(Live()), ops[..n], ran)
    {
      hide SortedFrom, IsBefore, Wrap, Off, Anchored, Chained, Distinct, Shaped, Users, Clocked, AheadOf, OnTime, Fits, InWindow, Compares;
      n, ran := 0, [];
      while n < |ops|
        invariant Linked() && Ordered() && n <= |ops| && |ran| == n && forall x <- list :: x in all
        invariant InWindow(Wrap(Before(at, start, n) - d), w + d)
        invariant n == 0 ==> timerList == old(timerList) && timerList.waketime == old(timerList.waketime)
        invariant Live() == LiveAfter(old(Live()), ops[..n], ran)
      {
        var prev, now := Before(at, start, n), at[n];
        if !OnTime(ops[n], prev, now, timerList.waketime, w, d) {
          return;
        }
        OnTimeNow(ops[n], prev, now, timerList.waketime, w, d);
        WindowMoves(prev, now, w, d);
        OnTimeFits(ops[n], prev, now, w, d);
        var ok, t := Perform(ops[n], all, Wrap(now - d), w + d);
        assert ops[..n + 1][..n] == ops[..n] && (ran + [t])[..n] == ran;
        n, ran := n + 1, ran + [t];
      }
    }

    lemma Neighbours()
      requires Linked() && Settled()
      ensures |list| == |times| > 1 && list[0] == timerList && timerList.next == list[1] && list[1].waketime == times[1]
      ensures periodic != deleted && periodic != sentinel && sentinel != deleted && lastInsert != deleted
    {
    }

    lemma ThreeTimers(l: Timer)
      requires Linked() && list[0] == periodic && l in Live() && forall x <- list :: x == l || x == periodic || x == sentinel
      ensures list == [periodic, l, sentinel]
    {
      var i :| 0 <= i < |list| && list[i] == l;
      assert list[1] in list && list[1] == l;
      assert list[2] in list && list[2] == sentinel;
    }

    lemma NotLive(t: Timer)
      requires IsUser(t) && t !in Live()
      ensures t !in list
    {
    }

    lemma UsersAre(list: seq<Timer>, t: Timer, add: Timer)
      requires IsUser(t) && t in list && add !in list
      ensures t in Users(list) && add !in Users(list)
    {
    }
  }

  /** Late adds can lead to a walk off the list.  With two microseconds as 5 ticks and the periodic timer at
      1000, l is moved behind that timer; x and t are added late and go ahead of it; then t sets a time more
      than half the range ahead. */
  method WalkOff() returns (s: Sched, updated: uint32)
    ensures fresh(s) && s.Linked() && s.Settled() && s.IsUser(s.timerList)
    ensures !s.Compares(s.timerList, updated) && !s.AheadOf(s.list, s.lastInsert)
  {
    hide Wrap, IsBefore, SortedFrom, Chained, Distinct, Clocked, Sched.Anchored, Sched.Shaped;
    WalkOffTimes();
    var l;
    s, l := MoveBehind();
    var x := new Timer(990);
    s.Neighbours();
    AddHead(s, x, 1005);
    var t := new Timer(991);
    s.Neighbours();
    AddHead(s, t, 1005);
    updated := HALF + 1005;
    s.Neighbours();
    NoneAhead(s, t, x, l);
  }

  /** A timer added at 900 sets the time 1020, behind the periodic timer. */
  method MoveBehind() returns (s: Sched, l: Timer)
    ensures fresh(s) && fresh(l) && fresh(s.periodic) && fresh(s.sentinel) && fresh(s.deleted) && s.Linked() && s.Settled()
    ensures s.list == [s.periodic, l, s.sentinel] && s.lastInsert == l && s.IsUser(l) && s.twoMicroseconds == 5
    ensures s.periodic.waketime == 1000 && l.waketime == 1020
  {
    hide Wrap, IsBefore, SortedFrom, Chained, Distinct, Clocked, Sched.Anchored, Sched.Shaped;
    WalkOffTimes();
    var p := new Timer(1000);
    l := new Timer(900);
    var e := new Timer(HALF + 1000);
    var d := new Timer(0);
    s := new Sched(p, e, d, 5, 1000);
    s.Neighbours();
    AddHead(s, l, 0);
    s.Neighbours();
    var next := s.DispatchReschedule(l, 1020);
    s.ThreeTimers(l);
  }

  /** A timer before all others is added, and the interrupt for deletedTimer follows. */
  method AddHead(s: Sched, t: Timer, now: uint32)
    requires s.Linked() && s.Settled() && s.IsUser(t) && t !in s.list && s.deleted !in s.list
    requires IsBefore(t.waketime, s.timerList.waketime)
    modifies s`list, s`times, s`front, s`timerList, s`lastInsert, s.deleted, t, s.list`next
    ensures s.Linked() && s.Settled() && s.list == [t] + old(s.list) && s.lastInsert == old(s.lastInsert) && s.Live() == old(s.Live()) + {t}
    ensures t.waketime == if IsBefore(old(t.waketime), now) then Wrap(now + s.twoMicroseconds) else old(t.waketime)
  {
    hide Wrap, IsBefore, SortedFrom, Chained, Distinct, Clocked, Sched.Anchored, Sched.Shaped;
    s.Neighbours();
    var late := s.AddTimer(t, now);
    s.Neighbours();
    var next := s.DispatchDone(s.deleted);
  }

  lemma NoneAhead(s: Sched, t: Timer, x: Timer, l: Timer)
    requires s.Linked() && s.list == [t, x, s.periodic, l, s.sentinel]
    ensures !s.AheadOf(s.list, l)
  {
    assert s.list[2] == s.periodic && s.list[3] == l;
  }

  lemma WalkOffTimes()
    ensures Wrap(1000 + HALF) == HALF + 1000 && Wrap(1005 + 5) == 1010
    ensures IsBefore(900, 1000) && !IsBefore(900, 0) && !IsBefore(1020, 1000)
    ensures IsBefore(990, 1000) && IsBefore(990, 1005) && IsBefore(991, 1010) && IsBefore(991, 1005)
    ensures !IsBefore(HALF + 1005, 1010) && !IsBefore(HALF + 1005, 1020) && IsBefore(HALF + 1005, 1000)
  {
  }

  // -------------------------------------------------------------------- any run

  /** A command that (re)schedules or removes a timer, or a timer interrupt whose callback finishes or sets
      a new time. */
  datatype Op = Add(t: Timer, waketime: uint32, now: uint32) | Delete(t: Timer) | Done | Again(updated: uint32)

  /** The time for which a waketime stands at time `now`, if it is no more than d past. */
  function Due(now: int, d: nat, x: uint32): int { now - d + Off(Wrap(now - d), x) }

  /** The time of the operation before the k-th. */
  function Before(at: seq<int>, start: int, k: nat): int
    requires k <= |at|
  {
    if k == 0 then start else at[k - 1]
  }

  /** An operation at time `now`, after one at `prev`, with `head` the waketime of the first timer. */
  predicate OnTime(op: Op, prev: int, now: int, head: uint32, w: nat, d: nat) {
    && prev <= now <= Due(prev, d, head) + d
    && match op
       case Add(_, waketime, readTime) => readTime == Wrap(now) && Off(readTime, waketime) <= w
       case Delete(_) => true
       case Done => Due(prev, d, head) <= now
       case Again(updated) => Due(prev, d, head) <= now && Off(Wrap(now - d), updated) <= w + d
  }

  lemma OnTimeNow(op: Op, prev: int, now: int, head: uint32, w: nat, d: nat)
    requires OnTime(op, prev, now, head, w, d)
    ensures prev <= now <= Due(prev, d, head) + d
  {
  }

  lemma OffLater(base: int, later: int, x: uint32)
    requires base <= later <= base + Off(Wrap(base), x)
    ensures Off(Wrap(later), x) == Off(Wrap(base), x) - (later - base)
  {
    OffAhead(base, later);
    hide Wrap;
    OffShift(Wrap(base), Wrap(later), x);
  }

  lemma OffAhead(base: int, later: int)
    requires base <= later < base + WRAP
    ensures Off(Wrap(base), Wrap(later)) == later - base
  {
    WrapDifference(later, base);
  }

  lemma OffEarlier(now: int, d: nat, x: uint32)
    requires Off(Wrap(now), x) + d < HALF
    ensures Off(Wrap(now - d), x) == Off(Wrap(now), x) + d && !IsBefore(x, Wrap(now))
  {
    OffAhead(now - d, now);
    hide Wrap;
    OffSum(Wrap(now - d), Wrap(now), x);
  }

  lemma OffPlus(b: uint32, x: uint32, more: nat)
    requires Off(b, x) + more < HALF
    ensures Off(b, Wrap(x + more)) == Off(b, x) + more
  {
    WrapAdd(x + more, 0 - b);
    WrapAdd(x - b, more);
  }

  /** The live timers after a run in which `ran` are the timers that the operations were about. */
  ghost function LiveAfter(live: set<Timer>, ops: seq<Op>, ran: seq<Timer>): set<Timer>
    requires |ran| == |ops|
  {
    if |ops| == 0 then live
    else
      var n := |ops| - 1;
      var before := LiveAfter(live, ops[..n], ran[..n]);
      match ops[n]
      case Add(t, _, _) => before + {t}
      case Delete(t) => before - {t}
      case Done => before - {ran[n]}
      case Again(_) => before
  }
}
