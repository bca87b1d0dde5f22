/** src/basecmd.c: the fixed pool of move nodes shared by all queues.  A node is known by its place
    in the storage area. */
module MovePool {
  class Pool {
    const count: nat
    var free: seq<nat>
    var used: int      // usedMoveQueueNumber
    var waterLine: int // usedMoveQueueWaterLine

    constructor (count: nat)
      ensures this.count == count && free == All(count) && used == waterLine == 0
    {
      this.count := count;
      free, used, waterLine := All(count), 0, 0;
    }

    /** move_alloc: nothing is left means a shutdown. */
    method Alloc() returns (ok: bool, node: nat)
      modifies this
      ensures ok <==> old(free) != []
      ensures ok ==> old(free) == [node] + free && used == old(used) + 1
      ensures !ok ==> free == old(free) && used == old(used)
      ensures ok ==> forall queued :: Conserved(count, old(free), queued) ==> Conserved(count, free, queued + multiset{node})
    {
      if free == [] {
        return false, 0;
      }
      ok, node := true, free[0];
      free := free[1..];
      used := used + 1;
      if waterLine < used {
        waterLine := used;
      }
    }

    /** move_free. */
    method Free(node: nat)
      modifies this
      ensures free == [node] + old(free) && used == old(used) - 1
      ensures forall queued :: Conserved(count, old(free), queued + multiset{node}) ==> Conserved(count, free, queued)
    {
      free := [node] + free;
      used := used - 1;
    }

    /** move_reset: every node is free again. */
    method Reset()
      modifies this
      ensures free == All(count) && used == old(used)
    {
      free := [];
      for i := 0 to count
        invariant free == All(i) && used == old(used)
      {
        free := free + [i];
      }
    }
  }

  function All(n: nat): seq<nat> { if n == 0 then [] else All(n - 1) + [n - 1] }

  /** Every node of the pool is in exactly one place: on the free list or in one of the queues. */
  ghost predicate Conserved(count: nat, free: seq<nat>, queued: multiset<nat>) {
    multiset(free) + queued == multiset(All(count))
  }

  lemma {:induction false} AllOnce(n: nat, x: nat)
    ensures multiset(All(n))[x] == if x < n then 1 else 0
  {
    if n > 0 {
      AllOnce(n - 1, x);
    }
  }

  /** No node is in two places at once. */
  lemma NoSharing(count: nat, free: seq<nat>, queued: multiset<nat>, x: nat)
    requires Conserved(count, free, queued)
    ensures x < count ==> (x in multiset(free)) != (x in queued)
    ensures multiset(free)[x] <= 1 && queued[x] <= 1
  {
    AllOnce(count, x);
    assert (multiset(free) + queued)[x] == multiset(free)[x] + queued[x];
  }
}
