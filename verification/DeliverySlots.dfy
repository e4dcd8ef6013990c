/** The process-loopback capture slots and their synchronisation with the routing plan. */
module DeliverySlots {
  const SLOTS: nat := 8

  /** A capture source is identified by the process it listens to and the lane it feeds. */
  datatype Key = Key(processId: nat, lane: string)

  datatype Slot = Slot(active: bool, key: Key, failures: nat)

  predicate InPlan(plan: seq<Key>, key: Key) { key in plan }

  predicate HasActive(slots: seq<Slot>, key: Key) {
    exists s :: 0 <= s < |slots| && slots[s].active && slots[s].key == key
  }

  /** A slot whose source left the plan is stopped; its lane label stays behind. */
  function Stopped(slot: Slot): Slot { Slot(false, Key(0, slot.key.lane), 0) }

  function Kept(slot: Slot, plan: seq<Key>): Slot {
    if slot.active && !InPlan(plan, slot.key) then Stopped(slot) else slot
  }

  function Pruned(slots: seq<Slot>, plan: seq<Key>): (r: seq<Slot>)
    ensures |r| == |slots| && forall s :: 0 <= s < |r| ==> r[s] == Kept(slots[s], plan)
  {
    seq(|slots|, s requires 0 <= s < |slots| => Kept(slots[s], plan))
  }

  /** The first free slot at or after `from`. */
  function NextFree(slots: seq<Slot>, from: nat): (s: nat)
    requires from <= |slots|
    ensures from <= s <= |slots|
    ensures s < |slots| ==> !slots[s].active
    ensures forall t :: from <= t < s ==> slots[t].active
    decreases |slots| - from
  {
    if from == |slots| || !slots[from].active then from else NextFree(slots, from + 1)
  }

  /** The slots of one pass, and for every slot tried in it the plan entry it was tried with. */
  datatype Pass = Pass(slots: seq<Slot>, tried: map<nat, nat>)

  function Tried(pass: Pass, plan: seq<Key>, starts: seq<bool>, i: nat, slot: nat): (r: Pass)
    requires i < |plan| == |starts| && slot < |pass.slots|
    ensures |r.slots| == |pass.slots|
  {
    Pass(if starts[i] then pass.slots[slot := Slot(true, plan[i], 0)] else pass.slots, pass.tried[slot := i])
  }

  /** The pass from plan entry `i` on, with the slots before `next` used up. */
  function StartFrom(pass: Pass, plan: seq<Key>, starts: seq<bool>, i: nat, next: nat): (r: Pass)
    requires i <= |plan| == |starts| && next <= |pass.slots|
    ensures |r.slots| == |pass.slots|
    decreases |plan| - i
  {
    if i == |plan| || next >= |pass.slots| then pass
    else if HasActive(pass.slots, plan[i]) then StartFrom(pass, plan, starts, i + 1, next)
    else
      var slot := NextFree(pass.slots, next);
      if slot >= |pass.slots| then pass
      else StartFrom(Tried(pass, plan, starts, i, slot), plan, starts, i + 1, slot + 1)
  }

  function Synced(slots: seq<Slot>, plan: seq<Key>, starts: seq<bool>): (r: Pass)
    requires |starts| == |plan|
    ensures |r.slots| == |slots|
  {
    StartFrom(Pass(Pruned(slots, plan), map[]), plan, starts, 0, 0)
  }

  ghost predicate DistinctKeys(slots: seq<Slot>) {
    forall s, t :: 0 <= s < t < |slots| && slots[s].active && slots[t].active ==> slots[s].key != slots[t].key
  }

  /** Only planned sources run. */
  ghost predicate OnlyPlanned(slots: seq<Slot>, plan: seq<Key>) {
    forall s :: 0 <= s < |slots| && slots[s].active ==> InPlan(plan, slots[s].key)
  }

  /** Sources that ran and are still planned are exactly as they were. */
  ghost predicate Untouched(before: seq<Slot>, after: seq<Slot>, plan: seq<Key>) {
    && |before| == |after|
    && forall s :: 0 <= s < |before| && before[s].active && InPlan(plan, before[s].key) ==> after[s] == before[s]
  }

  /** Plan entry `i` was tried in this pass and its source failed to start. */
  ghost predicate FailedToStart(pass: Pass, starts: seq<bool>, i: nat)
    requires i < |starts|
  {
    !starts[i] && exists s :: s in pass.tried && pass.tried[s] == i
  }

  /** No slot is left that is free and was not tried. */
  ghost predicate Exhausted(pass: Pass) {
    forall s :: 0 <= s < |pass.slots| ==> pass.slots[s].active || s in pass.tried
  }

  /** What holds in the middle of a pass. */
  ghost predicate Progress(pass: Pass, plan: seq<Key>, starts: seq<bool>, i: nat, next: nat)
    requires i <= |plan| == |starts|
  {
    && next <= |pass.slots|
    && DistinctKeys(pass.slots) && OnlyPlanned(pass.slots, plan)
    && (forall s :: s in pass.tried ==> s < next && pass.tried[s] < i)
    && (forall s :: 0 <= s < next ==> pass.slots[s].active || s in pass.tried)
    && (forall j :: 0 <= j < i ==> HasActive(pass.slots, plan[j]) || FailedToStart(pass, starts, j))
    && (forall s :: s in pass.tried && starts[pass.tried[s]] ==> pass.slots[s].active)
  }

  lemma TryKeepsProgress(pass: Pass, plan: seq<Key>, starts: seq<bool>, i: nat, next: nat)
    requires i < |plan| == |starts| && Progress(pass, plan, starts, i, next)
    requires !HasActive(pass.slots, plan[i]) && NextFree(pass.slots, next) < |pass.slots|
    ensures var slot := NextFree(pass.slots, next);
            Progress(Tried(pass, plan, starts, i, slot), plan, starts, i + 1, slot + 1)
  {
    var slot := NextFree(pass.slots, next);
    var after := Tried(pass, plan, starts, i, slot);
    assert after.tried[slot] == i;
    forall j | 0 <= j < i + 1 ensures HasActive(after.slots, plan[j]) || FailedToStart(after, starts, j) {
      if j == i {
        assert starts[i] ==> after.slots[slot].active && after.slots[slot].key == plan[i];
      } else if HasActive(pass.slots, plan[j]) {
        var s :| 0 <= s < |pass.slots| && pass.slots[s].active && pass.slots[s].key == plan[j];
        assert after.slots[s] == pass.slots[s];
      } else {
        var s :| s in pass.tried && pass.tried[s] == j;
        assert after.tried[s] == j;
      }
    }
  }

  /**
   * The result of a pass: distinct planned keys only, and a plan entry without a source either failed
   * to start in this pass or found no slot that was neither running nor tried.
   */
  ghost predicate Complete(pass: Pass, plan: seq<Key>, starts: seq<bool>)
    requires |plan| == |starts|
  {
    && DistinctKeys(pass.slots) && OnlyPlanned(pass.slots, plan)
    && (Exhausted(pass)
        || forall j :: 0 <= j < |plan| ==> HasActive(pass.slots, plan[j]) || FailedToStart(pass, starts, j))
    && (forall s :: s in pass.tried
                    ==> s < |pass.slots| && pass.tried[s] < |plan| && (starts[pass.tried[s]] ==> pass.slots[s].active))
  }

  lemma ProgressEnds(pass: Pass, plan: seq<Key>, starts: seq<bool>, i: nat, next: nat)
    requires i <= |plan| == |starts| && Progress(pass, plan, starts, i, next)
    requires i == |plan| || NextFree(pass.slots, next) == |pass.slots|
    ensures Complete(pass, plan, starts)
  {
    if i < |plan| {
      forall s | 0 <= s < |pass.slots| ensures pass.slots[s].active || s in pass.tried {}
    }
  }

  lemma {:induction false} PassIsComplete(pass: Pass, plan: seq<Key>, starts: seq<bool>, i: nat, next: nat)
    requires i <= |plan| == |starts| && Progress(pass, plan, starts, i, next)
    ensures Complete(StartFrom(pass, plan, starts, i, next), plan, starts)
    decreases |plan| - i
  {
    if i == |plan| || NextFree(pass.slots, next) == |pass.slots| {
      ProgressEnds(pass, plan, starts, i, next);
      NothingFree(pass, plan, starts, i, next);
    } else if HasActive(pass.slots, plan[i]) {
      PassIsComplete(pass, plan, starts, i + 1, next);
    } else {
      var slot := NextFree(pass.slots, next);
      TryKeepsProgress(pass, plan, starts, i, next);
      PassIsComplete(Tried(pass, plan, starts, i, slot), plan, starts, i + 1, slot + 1);
    }
  }

  /** Without a free slot the rest of the pass changes nothing. */
  lemma {:induction false} NothingFree(pass: Pass, plan: seq<Key>, starts: seq<bool>, i: nat, next: nat)
    requires i <= |plan| == |starts| && next <= |pass.slots|
    requires i == |plan| || NextFree(pass.slots, next) == |pass.slots|
    ensures StartFrom(pass, plan, starts, i, next) == pass
    decreases |plan| - i
  {
    if i < |plan| {
      NothingFree(pass, plan, starts, i + 1, next);
    }
  }

  /** A pass never touches a slot that is running. */
  lemma {:induction false} PassKeepsRunning(pass: Pass, plan: seq<Key>, starts: seq<bool>, i: nat, next: nat)
    requires i <= |plan| == |starts| && next <= |pass.slots|
    ensures var r := StartFrom(pass, plan, starts, i, next);
            forall s :: 0 <= s < |pass.slots| && pass.slots[s].active ==> r.slots[s] == pass.slots[s]
    decreases |plan| - i
  {
    if i < |plan| && next < |pass.slots| {
      if HasActive(pass.slots, plan[i]) {
        PassKeepsRunning(pass, plan, starts, i + 1, next);
      } else if NextFree(pass.slots, next) < |pass.slots| {
        var slot := NextFree(pass.slots, next);
        PassKeepsRunning(Tried(pass, plan, starts, i, slot), plan, starts, i + 1, slot + 1);
      }
    }
  }

  /** One synchronisation, whatever starts succeed. */
  lemma SyncIsComplete(slots: seq<Slot>, plan: seq<Key>, starts: seq<bool>)
    requires |starts| == |plan| && DistinctKeys(slots)
    ensures Complete(Synced(slots, plan, starts), plan, starts)
    ensures Untouched(slots, Synced(slots, plan, starts).slots, plan)
  {
    PassIsComplete(Pass(Pruned(slots, plan), map[]), plan, starts, 0, 0);
    PassKeepsRunning(Pass(Pruned(slots, plan), map[]), plan, starts, 0, 0);
  }

  /** The slot was taken for a planned source whose start succeeded. */
  predicate Started(plan: seq<Key>, starts: seq<bool>, slot: Slot)
    requires |starts| == |plan|
  {
    exists i :: 0 <= i < |plan| && starts[i] && slot == Slot(true, plan[i], 0)
  }

  lemma {:induction false} PassStartsOrLeaves(pass: Pass, plan: seq<Key>, starts: seq<bool>, i: nat, next: nat, s: nat)
    requires i <= |plan| == |starts| && next <= |pass.slots| && s < |pass.slots|
    ensures var after := StartFrom(pass, plan, starts, i, next).slots[s];
            after == pass.slots[s] || (!pass.slots[s].active && Started(plan, starts, after))
    decreases |plan| - i
  {
    if i < |plan| && next < |pass.slots| {
      if HasActive(pass.slots, plan[i]) {
        PassStartsOrLeaves(pass, plan, starts, i + 1, next, s);
      } else if NextFree(pass.slots, next) < |pass.slots| {
        var slot := NextFree(pass.slots, next);
        PassStartsOrLeaves(Tried(pass, plan, starts, i, slot), plan, starts, i + 1, slot + 1, s);
      }
    }
  }

  /**
   * What one synchronisation makes of a slot: running and planned, it stays; otherwise it is taken for a
   * source that did start, or it is stopped with its label kept, or it was free and stays as it was.
   */
  lemma SyncedSlot(slots: seq<Slot>, plan: seq<Key>, starts: seq<bool>, s: nat)
    requires |starts| == |plan| && s < |slots|
    ensures var before, after := slots[s], Synced(slots, plan, starts).slots[s];
            if before.active && before.key in plan then after == before
            else
              || Started(plan, starts, after)
              || (before.active && !after.active && after.key == Key(0, before.key.lane) && after.failures == 0)
              || (!before.active && after == before)
  {
    PassStartsOrLeaves(Pass(Pruned(slots, plan), map[]), plan, starts, 0, 0, s);
  }

  ghost function ActiveKeys(slots: seq<Slot>): set<Key> {
    set s | 0 <= s < |slots| && slots[s].active :: slots[s].key
  }

  ghost function PlanKeys(plan: seq<Key>): set<Key> { set k | k in plan }

  lemma {:induction false} RunningSlotsHaveAsManyKeys(slots: seq<Slot>)
    requires DistinctKeys(slots) && forall s :: 0 <= s < |slots| ==> slots[s].active
    ensures |ActiveKeys(slots)| == |slots|
  {
    if slots == [] {
      assert ActiveKeys(slots) == {};
    } else {
      var last := |slots| - 1;
      RunningSlotsHaveAsManyKeys(slots[..last]);
      assert ActiveKeys(slots) == ActiveKeys(slots[..last]) + {slots[last].key};
      assert slots[last].key !in ActiveKeys(slots[..last]);
    }
  }

  /** When every start succeeds and the plan fits, one synchronisation makes the slots run the plan exactly. */
  lemma SyncReachesThePlan(slots: seq<Slot>, plan: seq<Key>, starts: seq<bool>)
    requires |starts| == |plan| && DistinctKeys(slots)
    requires forall i :: 0 <= i < |starts| ==> starts[i]
    requires |PlanKeys(plan)| <= |slots|
    ensures ActiveKeys(Synced(slots, plan, starts).slots) == PlanKeys(plan)
  {
    var r := Synced(slots, plan, starts);
    SyncIsComplete(slots, plan, starts);
    assert ActiveKeys(r.slots) <= PlanKeys(plan);
    forall j | 0 <= j < |plan| ensures HasActive(r.slots, plan[j]) {
      if Exhausted(r) {
        RunningSlotsHaveAsManyKeys(r.slots);
        SubsetOfEqualSize(ActiveKeys(r.slots), PlanKeys(plan));
        assert plan[j] in PlanKeys(plan);
      }
    }
    forall k | k in PlanKeys(plan) ensures k in ActiveKeys(r.slots) {
      var j :| 0 <= j < |plan| && plan[j] == k;
      assert HasActive(r.slots, plan[j]);
    }
  }

  lemma SubsetOfEqualSize(small: set<Key>, large: set<Key>)
    requires small <= large && |small| >= |large|
    ensures small == large
  {
    assert |large - small| == |large| - |small|;
    assert large == small + (large - small);
  }

  lemma {:induction false} NothingToStart(pass: Pass, plan: seq<Key>, starts: seq<bool>, i: nat, next: nat)
    requires i <= |plan| == |starts| && next <= |pass.slots|
    requires forall j :: 0 <= j < |plan| ==> HasActive(pass.slots, plan[j])
    ensures StartFrom(pass, plan, starts, i, next) == pass
    decreases |plan| - i
  {
    if i < |plan| {
      NothingToStart(pass, plan, starts, i + 1, next);
    }
  }

  /** Synchronising again with a plan that is already running changes nothing. */
  lemma SyncIsIdempotent(slots: seq<Slot>, plan: seq<Key>, starts: seq<bool>)
    requires |starts| == |plan| && ActiveKeys(slots) == PlanKeys(plan)
    ensures Synced(slots, plan, starts).slots == slots
  {
    forall s | 0 <= s < |slots| && slots[s].active ensures InPlan(plan, slots[s].key) {
      assert slots[s].key in ActiveKeys(slots);
    }
    assert Pruned(slots, plan) == slots;
    forall j | 0 <= j < |plan| ensures HasActive(slots, plan[j]) {
      assert plan[j] in PlanKeys(plan);
    }
    NothingToStart(Pass(slots, map[]), plan, starts, 0, 0);
  }

  /** The slot array of the delivery state, edited in place by the control loop. */
  class ProcessDelivery {
    const lanes: array<Slot>

    ghost predicate Valid()
      reads this, lanes
    {
      lanes.Length == SLOTS && DistinctKeys(lanes[..])
    }

    constructor ()
      ensures Valid() && fresh(lanes) && forall s :: 0 <= s < SLOTS ==> !lanes[s].active
    {
      lanes := new Slot[SLOTS](_ => Slot(false, Key(0, ""), 0));
    }

    method Prune(plan: seq<Key>)
      requires Valid()
      modifies lanes
      ensures lanes[..] == Pruned(old(lanes[..]), plan)
    {
      ghost var before := lanes[..];
      for s := 0 to lanes.Length
        invariant forall t :: 0 <= t < s ==> lanes[t] == Kept(before[t], plan)
        invariant forall t :: s <= t < lanes.Length ==> lanes[t] == before[t]
      {
        if lanes[s].active {
          var found := false;
          for i := 0 to |plan|
            invariant found <==> lanes[s].key in plan[..i]
          {
            if plan[i] == lanes[s].key {
              found := true;
              break;
            }
          }
          if !found {
            assert plan[..|plan|] == plan;
            lanes[s] := Stopped(lanes[s]);
          }
        }
      }
    }

    method IsRunning(key: Key) returns (running: bool)
      ensures running == HasActive(lanes[..], key)
    {
      for s := 0 to lanes.Length
        invariant forall t :: 0 <= t < s ==> !(lanes[t].active && lanes[t].key == key)
      {
        if lanes[s].active && lanes[s].key == key {
          assert lanes[..][s].active;
          return true;
        }
      }
      return false;
    }

    /**
     * Stops the sources that left the plan and starts the missing ones in free slots, lowest slot
     * first. `starts[i]` says whether the source of plan entry i starts; `tried` records the attempts.
     */
    method Sync(plan: seq<Key>, starts: seq<bool>) returns (ghost tried: map<nat, nat>)
      requires Valid() && |starts| == |plan|
      modifies lanes
      ensures Valid()
      ensures Pass(lanes[..], tried) == Synced(old(lanes[..]), plan, starts)
    {
      SyncIsComplete(lanes[..], plan, starts);
      ghost var goal := Synced(lanes[..], plan, starts);
      Prune(plan);
      tried := map[];
      var nextSlot := 0;
      var i := 0;
      while i < |plan| && nextSlot < SLOTS
        invariant lanes.Length == SLOTS && i <= |plan| && nextSlot <= SLOTS
        invariant StartFrom(Pass(lanes[..], tried), plan, starts, i, nextSlot) == goal
        decreases |plan| - i
      {
        var running := IsRunning(plan[i]);
        if !running {
          ghost var free := NextFree(lanes[..], nextSlot);
          while nextSlot < SLOTS && lanes[nextSlot].active
            invariant nextSlot <= SLOTS && NextFree(lanes[..], nextSlot) == free
          {
            nextSlot := nextSlot + 1;
          }
          if nextSlot >= SLOTS {
            break;
          }
          ghost var before := Pass(lanes[..], tried);
          if starts[i] {
            lanes[nextSlot] := Slot(true, plan[i], 0);
          }
          tried := tried[nextSlot := i];
          assert Pass(lanes[..], tried) == Tried(before, plan, starts, i, nextSlot);
          nextSlot := nextSlot + 1;
        }
        i := i + 1;
      }
    }
  }
}
