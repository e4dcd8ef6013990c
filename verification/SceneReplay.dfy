/** Replaying a saved queue the engine has already seen, and a history after which that costs a scene. */
module SceneReplay {
  import opened Bytes
  import opened Wrappers
  import opened SceneCatalog
  import opened SceneQueue
  import opened SceneSync
  import opened SceneRuns

  /** What the engine is left with after receiving these operations, refusals included. */
  function Drain(engine: Scenes, ops: seq<Op>): Scenes
    decreases |ops|
  {
    if ops == [] then engine else Drain(Consume(engine, ops[0]), ops[1..])
  }

  /** Ids whose last operation is an upsert that finds the engine full. */
  function LostIds(engine: Scenes, ops: seq<Op>): set<Id>
    decreases |ops|
  {
    if ops == [] then {}
    else
      (if Refuses(engine, ops[0]) && !Names(ops[1..], ops[0].sceneId) then {ops[0].sceneId} else {})
      + LostIds(Consume(engine, ops[0]), ops[1..])
  }

  lemma {:induction false} OutcomeOfBoth(first: seq<Op>, second: seq<Op>, id: Id, before: Option<Shown>)
    ensures Outcome(first + second, id, before) == Outcome(second, id, Outcome(first, id, before))
    decreases |second|
  {
    if second == [] {
      assert first + second == first;
    } else {
      var front := second[..|second| - 1];
      assert (first + second)[..|first + second| - 1] == first + front;
      OutcomeOfBoth(first, front, id, before);
    }
  }

  /** A bounded engine and an unbounded one end alike at an id unless its last upsert is refused. */
  lemma {:induction false} DrainAt(engine: Scenes, ops: seq<Op>, id: Id, before: Option<Shown>)
    ensures !Names(ops, id) ==> At(Drain(engine, ops), id) == At(engine, id) && id !in LostIds(engine, ops)
    ensures Names(ops, id) ==> (At(Drain(engine, ops), id) == Outcome(ops, id, before) <==> id !in LostIds(engine, ops))
    decreases |ops|
  {
    if ops != [] {
      var op, rest := ops[0], ops[1..];
      assert ops == [op] + rest;
      var start := if op.sceneId == id then Effect(op) else before;
      NamesOfFirst(op, rest, id);
      OutcomeOfFirst(op, rest, id, before);
      OutcomeWhenNamed(rest, id, start, start);
      ConsumeAt(engine, op, id);
      DrainAt(Consume(engine, op), rest, id, start);
    }
  }

  /** An engine that received `done` operations of a history is sent all from `from` on again. */
  lemma ReplayedAt(scenes: Scenes, ops: seq<Op>, from: nat, done: nat, id: Id)
    requires from <= done <= |ops|
    ensures Outcome(ops[from..], id, Outcome(ops[..done], id, At(scenes, id))) == Outcome(ops, id, At(scenes, id))
  {
    var before := At(scenes, id);
    assert ops == ops[..from] + ops[from..];
    assert ops[..done] == ops[..from] + ops[from..done];
    OutcomeOfBoth(ops[..from], ops[from..], id, before);
    OutcomeOfBoth(ops[..from], ops[from..done], id, before);
    OutcomeWhenNamed(ops[from..], id, Outcome(ops[..done], id, before), Outcome(ops[..from], id, before));
    OutcomeWhenNamed(ops[from..done], id, Outcome(ops[..from], id, before), None);
  }

  lemma SameScenes(one: Scenes, other: Scenes)
    ensures (forall id :: At(one, id) == At(other, id)) <==> one == other
  {
    if forall id :: At(one, id) == At(other, id) {
      forall id ensures id in one <==> id in other {
        assert At(one, id) == At(other, id);
      }
      forall id | id in one ensures one[id] == other[id] {
        assert At(one, id) == At(other, id);
      }
    }
  }

  /** On a catalog without a bound, replaying any stale tail of the history is harmless. */
  lemma StaleReplayIsHarmlessUnbounded(scenes: Scenes, ops: seq<Op>, from: nat, done: nat)
    requires from <= done <= |ops|
    ensures Replay(Replay(scenes, ops[..done]), ops[from..]) == Replay(scenes, ops)
  {
    var engine := Replay(scenes, ops[..done]);
    forall id ensures At(Replay(engine, ops[from..]), id) == At(Replay(scenes, ops), id) {
      ReplayAt(scenes, ops[..done], id);
      ReplayAt(engine, ops[from..], id);
      ReplayAt(scenes, ops, id);
      ReplayedAt(scenes, ops, from, done, id);
    }
    SameScenes(Replay(engine, ops[from..]), Replay(scenes, ops));
  }

  lemma StaleReplayAt(scenes: Scenes, ops: seq<Op>, from: nat, done: nat, id: Id)
    requires from <= done <= |ops|
    ensures var engine := Replay(scenes, ops[..done]);
            At(Drain(engine, ops[from..]), id) == At(Replay(scenes, ops), id) <==> id !in LostIds(engine, ops[from..])
  {
    var engine := Replay(scenes, ops[..done]);
    ReplayAt(scenes, ops[..done], id);
    ReplayAt(scenes, ops, id);
    ReplayedAt(scenes, ops, from, done, id);
    OutcomeWhenNamed(ops[from..], id, At(engine, id), At(engine, id));
    DrainAt(engine, ops[from..], id, At(engine, id));
  }

  lemma SameScenesExactly(one: Scenes, other: Scenes, differing: set<Id>)
    requires forall id :: At(one, id) == At(other, id) <==> id !in differing
    ensures one == other <==> differing == {}
  {
    SameScenes(one, other);
    if one == other {
      forall id ensures id !in differing {
        assert At(one, id) == At(other, id);
      }
    }
  }

  /** On the engine's bounded catalog it is harmless exactly when no last upsert is refused on the way. */
  lemma StaleReplayIsHarmlessExactly(scenes: Scenes, ops: seq<Op>, from: nat, done: nat)
    requires from <= done <= |ops|
    ensures var engine := Replay(scenes, ops[..done]);
            Drain(engine, ops[from..]) == Replay(scenes, ops) <==> LostIds(engine, ops[from..]) == {}
  {
    var engine := Replay(scenes, ops[..done]);
    forall id
      ensures At(Drain(engine, ops[from..]), id) == At(Replay(scenes, ops), id) <==> id !in LostIds(engine, ops[from..])
    {
      StaleReplayAt(scenes, ops, from, done, id);
    }
    SameScenesExactly(Drain(engine, ops[from..]), Replay(scenes, ops), LostIds(engine, ops[from..]));
  }

  // The same for the machine: a restart reads the file back, and a connection sends it.

  predicate AllAcked(steps: seq<FlushStep>) { forall k :: 0 <= k < |steps| ==> steps[k].send.Acked? }

  /** When every send is acknowledged, the flush empties the queue into the engine. */
  lemma {:induction false} FlushDrains(s: State, steps: seq<FlushStep>)
    requires AllEncodable(s.pending) && |steps| >= |s.pending| && AllAcked(steps) && s.connected
    ensures var t := Flushed(s, steps);
            t.pending == [] && t.connected && t.mirror == s.mirror && t.engine == Drain(s.engine, s.pending)
    decreases |s.pending|
  {
    if s.pending != [] {
      HeadSentEffect(s, steps[0]);
      HeadSentToEngine(s, steps[0]);
      FlushDrains(HeadSent(s, steps[0]), steps[1..]);
    }
  }

  lemma ConnectDrains(s: State, steps: seq<FlushStep>)
    requires AllEncodable(s.pending) && |steps| >= |s.pending| && AllAcked(steps)
    ensures var t := Next(s, Connect(true, steps));
            t.pending == [] && t.connected && t.mirror == s.mirror && t.engine == Drain(s.engine, s.pending)
  {
    FlushDrains(s.(connected := true), steps);
  }

  lemma UnsavedTurn(s: State, step: FlushStep)
    requires s.pending != [] && !step.saved
    ensures HeadSent(s, step).queueFile == s.queueFile
  {
  }

  /** A flush whose saves all fail leaves the queue file as it was. */
  lemma {:induction false} UnsavedFlush(s: State, steps: seq<FlushStep>)
    requires forall k :: 0 <= k < |steps| ==> !steps[k].saved
    ensures Flushed(s, steps).queueFile == s.queueFile
    decreases |s.pending|
  {
    if s.pending != [] {
      var step := StepAt(steps);
      UnsavedTurn(s, step);
      if HeadLeaves(s, step) {
        UnsavedFlush(HeadSent(s, step), if steps == [] then [] else steps[1..]);
      }
    }
  }

  /** When every prefix fits the engine, nothing is refused on the way. */
  lemma {:induction false} FittingDrain(engine: Scenes, ops: seq<Op>)
    requires PrefixesFit(engine, ops)
    ensures Drain(engine, ops) == Replay(engine, ops)
    decreases |ops|
  {
    if ops != [] {
      FittingHeadIsTaken(engine, ops);
      PrefixesShrink(engine, ops);
      FittingDrain(Apply(engine, ops[0]), ops[1..]);
    }
  }

  lemma RestartDrains(s: State, steps: seq<FlushStep>)
    requires AllEncodable(s.queueFile) && |steps| >= |s.queueFile| && AllAcked(steps)
    ensures Next(Next(s, Restart), Connect(true, steps)).engine == Drain(s.engine, s.queueFile)
    ensures Next(Next(s, Restart), Connect(true, steps)).mirror == s.cardFile
  {
    RestartEffect(s);
    ConnectDrains(Next(s, Restart), steps);
  }

  /**
   * A restart with a stale queue file, from anywhere in a history the engine has followed up to
   * `done`, ends where the history ends exactly when no last upsert in the file is refused.
   */
  lemma RestartIsHarmlessExactly(s: State, scenes: Scenes, ops: seq<Op>, from: nat, done: nat, steps: seq<FlushStep>)
    requires from <= done <= |ops| && s.engine == Replay(scenes, ops[..done]) && s.queueFile == ops[from..]
    requires AllEncodable(s.queueFile) && |steps| >= |s.queueFile| && AllAcked(steps)
    ensures Next(Next(s, Restart), Connect(true, steps)).engine == Replay(scenes, ops)
            <==> LostIds(s.engine, s.queueFile) == {}
  {
    RestartDrains(s, steps);
    StaleReplayIsHarmlessExactly(scenes, ops, from, done);
  }

  function UpsertIds(ops: seq<Op>): set<Id> { set k | 0 <= k < |ops| && ops[k].isUpsert :: ops[k].sceneId }

  /** Enough before sending: the engine has room for its own scenes and every scene still queued. */
  lemma {:induction false} RoomForAllLosesNothing(engine: Scenes, ops: seq<Op>)
    requires |engine.Keys + UpsertIds(ops)| <= ENGINE_CAPACITY
    ensures LostIds(engine, ops) == {}
    decreases |ops|
  {
    if ops != [] {
      var after := Consume(engine, ops[0]);
      var all := engine.Keys + UpsertIds(ops);
      if Refuses(engine, ops[0]) {
        assert ops[0].sceneId in UpsertIds(ops);
        SubsetSize(engine.Keys + {ops[0].sceneId}, all);
      }
      forall x | x in after.Keys + UpsertIds(ops[1..]) ensures x in all {
        if x in UpsertIds(ops[1..]) {
          var k :| 0 <= k < |ops[1..]| && ops[1..][k].isUpsert && ops[1..][k].sceneId == x;
          assert ops[k + 1].sceneId == x;
        } else if x !in engine.Keys {
          assert x == ops[0].sceneId && ops[0].isUpsert;
        }
      }
      SubsetSize(after.Keys + UpsertIds(ops[1..]), all);
      RoomForAllLosesNothing(after, ops[1..]);
    }
  }

  lemma SubsetSize(a: set<Id>, b: set<Id>)
    requires a <= b
    ensures |a| <= |b|
  {
    assert b == a + (b - a);
  }

  // The history that shows the bound matters.

  function Put(id: Id, shown: Shown): Op {
    Op(true, id, shown.name, [0x6D], shown.irReference, shown.loudnessLiveUpdate)
  }

  /** Remove x, add y, remove w, add x back, remove y, add v. */
  function Shuffle(x: Id, w: Id, y: Id, v: Id, shown: Shown): seq<Op> {
    [RemoveOp(x), Put(y, shown), RemoveOp(w), Put(x, shown), RemoveOp(y), Put(v, shown)]
  }

  /** A list of the catalogs on the way. */
  ghost predicate IsWay(scenes: Scenes, ops: seq<Op>, way: seq<Scenes>) {
    && |way| == |ops| + 1 && way[0] == scenes
    && forall k :: 0 <= k < |ops| ==> way[k + 1] == Apply(way[k], ops[k])
  }

  lemma {:induction false} WayAt(scenes: Scenes, ops: seq<Op>, way: seq<Scenes>, k: nat)
    requires IsWay(scenes, ops, way) && k <= |ops|
    ensures Replay(scenes, ops[..k]) == way[k]
  {
    if k == 0 {
      assert ops[..0] == [];
    } else {
      WayAt(scenes, ops, way, k - 1);
      ReplayOfLast(scenes, ops[..k - 1], ops[k - 1]);
      assert ops[..k] == ops[..k - 1] + [ops[k - 1]];
      assert way[(k - 1) + 1] == Apply(way[k - 1], ops[k - 1]);
    }
  }

  /** When each catalog on the way is small enough, every prefix fits. */
  lemma PrefixesByStep(scenes: Scenes, ops: seq<Op>, way: seq<Scenes>)
    requires IsWay(scenes, ops, way) && forall k :: 0 <= k < |way| ==> |way[k]| <= ENGINE_CAPACITY
    ensures PrefixesFit(scenes, ops) && Replay(scenes, ops) == way[|ops|]
  {
    forall k | 0 <= k <= |ops| ensures Replay(scenes, ops[..k]) == way[k] {
      WayAt(scenes, ops, way, k);
    }
    assert ops[..|ops|] == ops;
  }

  /** The catalogs on the way through the shuffle. */
  function ShuffleWay(scenes: Scenes, x: Id, w: Id, y: Id, v: Id, shown: Shown): (way: seq<Scenes>) {
    var s1 := scenes - {x};
    var s2 := s1[y := shown];
    var s3 := s2 - {w};
    var s4 := s3[x := shown];
    var s5 := s4 - {y};
    [scenes, s1, s2, s3, s4, s5, s5[v := shown]]
  }

  lemma ShuffleSizes(scenes: Scenes, x: Id, w: Id, y: Id, v: Id, shown: Shown)
    requires |scenes| == ENGINE_CAPACITY && x in scenes && w in scenes && x != w
    requires y !in scenes && v !in scenes && y != v
    ensures var way := ShuffleWay(scenes, x, w, y, v, shown);
            (forall k :: 0 <= k < |way| ==> |way[k]| <= ENGINE_CAPACITY) && |way[6]| == ENGINE_CAPACITY
  {
    var way := ShuffleWay(scenes, x, w, y, v, shown);
    var keys := scenes.Keys;
    assert way[1].Keys == keys - {x};
    assert way[2].Keys == keys - {x} + {y};
    assert way[3].Keys == keys - {x} + {y} - {w};
    assert way[4].Keys == keys - {x} + {y} - {w} + {x};
    assert way[5].Keys == keys - {x} + {y} - {w} + {x} - {y};
    assert way[6].Keys == keys - {x} + {y} - {w} + {x} - {y} + {v};
  }

  lemma ShuffleEnd(scenes: Scenes, x: Id, w: Id, y: Id, v: Id, shown: Shown)
    requires x in scenes && w in scenes && x != w && y !in scenes && v !in scenes && y != v
    ensures ShuffleWay(scenes, x, w, y, v, shown)[6] == (scenes - {w})[x := shown][v := shown]
  {
  }

  /** Sent once, every step of the shuffle is taken. */
  lemma ShuffledOnce(scenes: Scenes, x: Id, w: Id, y: Id, v: Id, shown: Shown)
    requires |scenes| == ENGINE_CAPACITY && x in scenes && w in scenes && x != w
    requires y !in scenes && v !in scenes && y != v
    ensures var ops := Shuffle(x, w, y, v, shown);
            var once := (scenes - {w})[x := shown][v := shown];
            && PrefixesFit(scenes, ops) && Replay(scenes, ops) == once && |once| == ENGINE_CAPACITY
  {
    ShuffleSizes(scenes, x, w, y, v, shown);
    PrefixesByStep(scenes, Shuffle(x, w, y, v, shown), ShuffleWay(scenes, x, w, y, v, shown));
    ShuffleEnd(scenes, x, w, y, v, shown);
  }

  lemma ShuffleIsRefused(once: Scenes, x: Id, w: Id, y: Id, shown: Shown)
    requires |once| == ENGINE_CAPACITY && x in once && w !in once && y !in once && y != w
    ensures var t2 := Consume(Consume(once, RemoveOp(x)), Put(y, shown));
            x !in t2 && |t2| == ENGINE_CAPACITY && Consume(t2, RemoveOp(w)) == t2
  {
    var t1 := Consume(once, RemoveOp(x));
    assert t1.Keys == once.Keys - {x};
    var t2 := Consume(t1, Put(y, shown));
    assert t2.Keys == t1.Keys + {y};
    assert Consume(t2, RemoveOp(w)) == t2;
  }

  lemma ShuffleEndsWithout(t2: Scenes, x: Id, y: Id, v: Id, shown: Shown)
    requires x !in t2 && x != v && |t2| == ENGINE_CAPACITY
    ensures Consume(t2, Put(x, shown)) == t2
    ensures x !in Consume(Consume(t2, RemoveOp(y)), Put(v, shown))
  {
  }

  lemma FirstIsConsumed(engine: Scenes, ops: seq<Op>, op: Op, after: Scenes, rest: seq<Op>)
    requires ops == [op] + rest && after == Consume(engine, op)
    ensures Drain(engine, ops) == Drain(after, rest)
  {
    assert ops[1..] == rest;
  }

  /** Sent a second time, the full engine refuses to take x back. */
  lemma ShuffledAgain(once: Scenes, x: Id, w: Id, y: Id, v: Id, shown: Shown)
    requires |once| == ENGINE_CAPACITY && x in once && v in once && x != v
    requires w !in once && y !in once && y != w
    ensures x !in Drain(once, Shuffle(x, w, y, v, shown))
  {
    var t1 := Consume(once, RemoveOp(x));
    var t2 := Consume(t1, Put(y, shown));
    ShuffleIsRefused(once, x, w, y, shown);
    ShuffleEndsWithout(t2, x, y, v, shown);
    var t5 := Consume(t2, RemoveOp(y));
    var t6 := Consume(t5, Put(v, shown));
    var ops := Shuffle(x, w, y, v, shown);
    FirstIsConsumed(once, ops, ops[0], t1, ops[1..]);
    FirstIsConsumed(t1, ops[1..], ops[1], t2, ops[2..]);
    FirstIsConsumed(t2, ops[2..], ops[2], t2, ops[3..]);
    FirstIsConsumed(t2, ops[3..], ops[3], t2, ops[4..]);
    FirstIsConsumed(t2, ops[4..], ops[4], t5, ops[5..]);
    FirstIsConsumed(t5, ops[5..], ops[5], t6, []);
    assert x !in t6;
  }

  /** Sent twice to a full engine, the shuffle loses x, although every step fits the first time. */
  lemma ShuffledTwiceLosesAScene(scenes: Scenes, x: Id, w: Id, y: Id, v: Id, shown: Shown)
    requires |scenes| == ENGINE_CAPACITY && x in scenes && w in scenes && x != w
    requires y !in scenes && v !in scenes && y != v
    ensures var ops := Shuffle(x, w, y, v, shown);
            && PrefixesFit(scenes, ops) && x in Replay(scenes, ops)
            && x !in Drain(Replay(scenes, ops), ops)
  {
    ShuffledOnce(scenes, x, w, y, v, shown);
    ShuffledAgain((scenes - {w})[x := shown][v := shown], x, w, y, v, shown);
  }
}
