/** The 32-bit tick counter and its comparison (src/generic/timer_irq.c). */
module Timer32 {
  const WRAP := 0x1_0000_0000
  const HALF := 0x8000_0000

  type uint32 = n: int | 0 <= n < WRAP

  function Wrap(t: int): uint32 { t % WRAP }

  /** timer_is_before: the 32-bit difference, read as a signed number, is negative. */
  predicate IsBefore(a: uint32, b: uint32) { Wrap(a - b) >= HALF }

  /** For times no more than half the range apart, the wrapped comparison is the real one. */
  lemma IsBeforeExact(a: int, b: int)
    requires -HALF < b - a <= HALF
    ensures IsBefore(Wrap(a), Wrap(b)) <==> a < b
  {
    WrapDifference(a, b);
    if a < b {
      assert (a - b) % WRAP == a - b + WRAP;
    } else {
      assert (a - b) % WRAP == a - b;
    }
  }

  lemma WrapDifference(a: int, b: int)
    ensures Wrap(Wrap(a) - Wrap(b)) == Wrap(a - b)
  {
    var qa, qb := a / WRAP, b / WRAP;
    assert Wrap(a) - Wrap(b) == (a - b) - (qa - qb) * WRAP;
    WrapMultiple(a - b, -(qa - qb));
  }

  lemma WrapMultiple(a: int, k: int)
    ensures (a + k * WRAP) % WRAP == a % WRAP
  {
  }

  lemma WrapAdd(a: int, b: int)
    ensures Wrap(Wrap(a) + b) == Wrap(a + b)
  {
    WrapMultiple(a + b, -(a / WRAP));
  }

  /** Outside that window the comparison is wrong: half the range plus one ahead reads as past. */
  lemma IsBeforeWrongBeyondHalf(a: int)
    ensures !IsBefore(Wrap(a), Wrap(a + HALF + 1))
  {
    WrapDifference(a, a + HALF + 1);
  }

  // ------------------------------------------------------------------ offsets

  /** How far t is ahead of base, going forward round the clock. */
  function Off(base: uint32, t: uint32): uint32 { Wrap(t - base) }

  /** Offsets from one base give the offset between two times. */
  lemma OffBetween(base: uint32, m: uint32, t: uint32)
    ensures Off(m, t) == Wrap(Off(base, t) - Off(base, m))
  {
    WrapDifference(t - base, m - base);
  }

  lemma OffShift(base: uint32, m: uint32, t: uint32)
    requires Off(base, m) <= Off(base, t)
    ensures Off(m, t) == Off(base, t) - Off(base, m)
  {
    OffBetween(base, m, t);
  }

  lemma OffSelf(base: uint32)
    ensures Off(base, base) == 0 && Off(base, Wrap(base + HALF)) == HALF
    ensures !IsBefore(base, base) && IsBefore(base, Wrap(base + HALF))
  {
  }

  /** Seen from a base that both are at most half the range ahead of, the comparison is that of offsets. */
  lemma OffBefore(base: uint32, a: uint32, b: uint32)
    requires Off(base, a) < HALF && Off(base, b) <= HALF
    ensures IsBefore(a, b) <==> Off(base, a) < Off(base, b)
  {
    OffBetween(base, b, a);
  }
}
