/** The queues of free context ids: one copy of id 0 per unit of concurrency for
    ordinary models, one distinct id per context for sequence models. */
module CtxIdTracker {

  /** The ids FifoCtxIdTracker::Reset puts in: 0, 1, ..., count - 1. */
  function DistinctIds(count: nat): (ids: seq<nat>)
    ensures |ids| == count
    ensures forall i :: 0 <= i < count ==> ids[i] == i
  {
    seq(count, i => i)
  }

  /** The ids ConcurrencyCtxIdTracker::Reset puts in: count copies of 0. */
  function ZeroIds(count: nat): (ids: seq<nat>)
    ensures |ids| == count
    ensures forall i :: 0 <= i < count ==> ids[i] == 0
  {
    seq(count, i => 0)
  }

  /** The content of the tracker right after Reset(count). */
  function ResetIds(sequence: bool, count: nat): (ids: seq<nat>)
    ensures |ids| == count
    ensures sequence ==> forall i :: 0 <= i < count ==> ids[i] == i
    ensures !sequence ==> forall i :: 0 <= i < count ==> ids[i] == 0
  {
    if sequence then DistinctIds(count) else ZeroIds(count)
  }

  datatype GetResult = Id(id: nat) | EmptyError

  /** A tracker created for a concurrency worker; `distinct` tells the FIFO
      variant from the variant with copies of id 0. */
  class QueueCtxIdTracker {
    const distinct: bool
    var freeIds: seq<nat>

    constructor (distinct: bool)
      ensures this.distinct == distinct && freeIds == []
    {
      this.distinct := distinct;
      freeIds := [];
    }

    method Restore(id: nat)
      modifies this
      ensures freeIds == old(freeIds) + [id]
    {
      freeIds := freeIds + [id];
    }

    method IsAvailable() returns (available: bool)
      ensures available <==> freeIds != []
    {
      available := |freeIds| > 0;
    }

    /** Takes the oldest id, or reports the empty queue. */
    method Get() returns (r: GetResult)
      modifies this
      ensures r.EmptyError? <==> old(freeIds) == []
      ensures r.EmptyError? ==> freeIds == old(freeIds)
      ensures r.Id? ==> [r.id] + freeIds == old(freeIds)
    {
      var available := IsAvailable();
      if !available {
        return EmptyError;
      }
      r := Id(freeIds[0]);
      freeIds := freeIds[1..];
    }

    method Clear()
      modifies this
      ensures freeIds == []
    {
      freeIds := [];
    }

    method Reset(count: nat)
      modifies this
      ensures freeIds == ResetIds(distinct, count)
    {
      Clear();
      for i := 0 to count
        invariant freeIds == ResetIds(distinct, i)
      {
        freeIds := freeIds + [if distinct then i else 0];
        assert freeIds == ResetIds(distinct, i + 1);
      }
    }
  }

  lemma {:induction false} DistinctIdsOnce(count: nat, id: nat)
    ensures multiset(DistinctIds(count))[id] == if id < count then 1 else 0
  {
    if count > 0 {
      DistinctIdsOnce(count - 1, id);
      assert DistinctIds(count) == DistinctIds(count - 1) + [count - 1];
    }
  }
}
