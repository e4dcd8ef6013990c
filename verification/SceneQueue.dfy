/** The bounded queue of operations waiting for the engine, as the file companion keeps it. */
module SceneQueue {
  import opened Bytes
  import opened SceneCatalog

  const MAX_PENDING: nat := 64

  predicate AllValid(ops: seq<Op>) { forall k :: 0 <= k < |ops| ==> OpIsValid(ops[k]) }

  predicate QueueFits(ops: seq<Op>) { |ops| <= MAX_PENDING && AllValid(ops) }

  /** The last `count` operations, or all of them. */
  function Newest(ops: seq<Op>, count: nat): (kept: seq<Op>)
    ensures |kept| <= count
  {
    if |ops| <= count then ops else ops[|ops| - count..]
  }

  /** Appended at the end; when full, trimmed at the front first. */
  class CustomSceneSyncQueue {
    var operations: seq<Op>

    ghost predicate Valid()
      reads this
    {
      QueueFits(operations)
    }

    constructor ()
      ensures Valid() && operations == []
    {
      operations := [];
    }

    method Enqueue(operation: Op) returns (accepted: bool)
      requires Valid()
      modifies this
      ensures Valid() && accepted == OpIsValid(operation)
      ensures operations == if accepted then Newest(old(operations), MAX_PENDING - 1) + [operation] else old(operations)
    {
      if !OpIsValid(operation) {
        return false;
      }
      while |operations| >= MAX_PENDING
        invariant |operations| <= |old(operations)| && operations == old(operations)[|old(operations)| - |operations|..]
        invariant |operations| < |old(operations)| ==> |operations| >= MAX_PENDING - 1
      {
        operations := operations[1..];
      }
      operations := operations + [operation];
      return true;
    }

    /** A complete candidate is validated before it replaces the queue. */
    method Load(items: seq<Op>) returns (loaded: bool)
      requires Valid()
      modifies this
      ensures Valid() && loaded == QueueFits(items)
      ensures operations == if loaded then items else old(operations)
    {
      if |items| > MAX_PENDING {
        return false;
      }
      for index := 0 to |items|
        invariant AllValid(items[..index]) && unchanged(this)
      {
        if !OpIsValid(items[index]) {
          return false;
        }
      }
      operations := items;
      return true;
    }
  }

  /** Re-queueing the pending operations one by one gives a queue that holds exactly them. */
  method Requeued(pending: seq<Op>) returns (queue: CustomSceneSyncQueue, accepted: bool)
    requires |pending| <= MAX_PENDING
    ensures fresh(queue) && queue.Valid() && accepted == AllValid(pending)
    ensures accepted ==> queue.operations == pending
  {
    queue := new CustomSceneSyncQueue();
    for index := 0 to |pending|
      invariant fresh(queue) && queue.Valid() && queue.operations == pending[..index] && AllValid(pending[..index])
    {
      var queued := queue.Enqueue(pending[index]);
      if !queued {
        return queue, false;
      }
      assert pending[..index + 1] == pending[..index] + [pending[index]];
    }
    assert pending[..|pending|] == pending;
    return queue, true;
  }
}
