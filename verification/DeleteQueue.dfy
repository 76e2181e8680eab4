/**
 The delete queue, in place.
 */
module DeleteQueues {
  import opened Common
  import opened Store

  class ConcurrentDeleteQueue {
    var elements: seq<Tomb>

    constructor ()
      ensures elements == []
    {
      elements := [];
    }

    /** Pops from the front while the version there is at or below the bound. */
    method PopFront(bound: nat) returns (rids: seq<RecordId>)
      modifies this
      ensures var n := DueIn(old(elements), bound);
              && elements == old(elements)[n..] && |rids| == n
              && forall i :: 0 <= i < n ==> rids[i] == old(elements)[i].rid
    {
      rids := [];
      while elements != [] && elements[0].version <= bound
        invariant |rids| + |elements| == |old(elements)| && elements == old(elements)[|rids|..]
        invariant forall i :: 0 <= i < |rids| ==> rids[i] == old(elements)[i].rid && old(elements)[i].version <= bound
        invariant DueIn(old(elements), bound) == |rids| + DueIn(elements, bound)
        decreases |elements|
      {
        rids := rids + [elements[0].rid];
        elements := elements[1..];
      }
    }

    method PushBack(more: seq<Tomb>)
      modifies this
      ensures elements == old(elements) + more
    {
      elements := elements + more;
    }
  }

  /** In a queue that is ordered by version, what is popped is everything at or below the bound. */
  lemma {:induction false} OrderedQueuePopsAll(q: seq<Tomb>, bound: nat, i: nat)
    requires i < |q| && forall j, k :: 0 <= j < k < |q| ==> q[j].version <= q[k].version
    ensures i < DueIn(q, bound) <==> q[i].version <= bound
  {
    if q[0].version <= bound && i > 0 {
      OrderedQueuePopsAll(q[1..], bound, i - 1);
    }
  }
}
