/** Runs of the scene synchronisation in which nothing is lost. */
module SceneRuns {
  import opened Bytes
  import opened Wrappers
  import opened SceneCatalog
  import opened SceneQueue
  import opened SceneSync

  /** The exchange and the queue write of one edit do no harm: nothing is evicted, cancelled, or applied unqueued. */
  predicate EditIsBenign(s: State, saves: Saves, send: Send) {
    if s.connected then !send.Cancelled? && (send.ReplyLost? ==> saves.queue) else |s.pending| < MAX_PENDING
  }

  /**
   * The limits within which the protocol loses nothing: ids short enough for the encoder, output
   * groups the queue accepts, room in the queue, queue writes that succeed when they are needed, no
   * cancelled sends, no restart while the card file is behind, and an engine that keeps its catalog.
   */
  predicate Benign(s: State, event: Event) {
    match event
    case Add(card, outputGroup, saves, send) =>
      |card.id| <= 26 && GroupIsValid(outputGroup) && EditIsBenign(s, saves, send)
    case Remove(id, saves, send) => EditIsBenign(s, saves, send)
    case Connect(reached, steps) => forall k :: 0 <= k < |steps| ==> steps[k].saved && !steps[k].send.Cancelled?
    case Disconnect => true
    case Restart => s.cardFile == s.mirror
    case EngineRestart => false
  }

  predicate BenignRun(s: State, events: seq<Event>)
    decreases |events|
  {
    events == [] || (Benign(s, events[0]) && BenignRun(Next(s, events[0]), events[1..]))
  }

  function ShownTable(mirror: map<Id, Card>): Scenes { map id | id in mirror :: ShownOf(mirror[id]) }

  // Every catalog on the way through the queue fits the engine.

  ghost predicate PrefixesFit(engine: Scenes, ops: seq<Op>) {
    forall k :: 0 <= k <= |ops| ==> |Replay(engine, ops[..k])| <= ENGINE_CAPACITY
  }

  lemma {:induction false} ReplayOfLast(scenes: Scenes, ops: seq<Op>, op: Op)
    ensures Replay(scenes, ops + [op]) == Apply(Replay(scenes, ops), op)
    decreases |ops|
  {
    if ops == [] {
      assert ops + [op] == [op];
      assert [op][1..] == [];
    } else {
      assert (ops + [op])[1..] == ops[1..] + [op];
      ReplayOfLast(Apply(scenes, ops[0]), ops[1..], op);
    }
  }

  lemma PrefixesGrow(engine: Scenes, ops: seq<Op>, op: Op)
    requires PrefixesFit(engine, ops) && |Replay(engine, ops + [op])| <= ENGINE_CAPACITY
    ensures PrefixesFit(engine, ops + [op])
  {
    var longer := ops + [op];
    forall k | 0 <= k <= |longer| ensures |Replay(engine, longer[..k])| <= ENGINE_CAPACITY {
      assert if k <= |ops| then longer[..k] == ops[..k] else longer[..k] == longer;
    }
  }

  lemma PrefixesShrink(engine: Scenes, ops: seq<Op>)
    requires PrefixesFit(engine, ops) && ops != []
    ensures PrefixesFit(Apply(engine, ops[0]), ops[1..])
  {
    forall k | 0 <= k <= |ops[1..]| ensures |Replay(Apply(engine, ops[0]), ops[1..][..k])| <= ENGINE_CAPACITY {
      var prefix := ops[..k + 1];
      assert prefix[0] == ops[0] && prefix[1..] == ops[1..][..k];
    }
  }

  /** The head was applied but its reply was lost: applying it again changes no catalog on the way. */
  lemma PrefixesRepeat(engine: Scenes, ops: seq<Op>)
    requires PrefixesFit(engine, ops) && ops != []
    ensures PrefixesFit(Apply(engine, ops[0]), ops)
  {
    var after := Apply(engine, ops[0]);
    assert Apply(after, ops[0]) == after;
    forall k | 0 <= k <= |ops| ensures |Replay(after, ops[..k])| <= ENGINE_CAPACITY {
      if k == 0 {
        assert ops[..1][0] == ops[0] && ops[..1][1..] == [];
        assert Replay(engine, ops[..1]) == after;
        assert ops[..0] == [];
      } else {
        assert ops[..k][0] == ops[0];
        assert Replay(after, ops[..k]) == Replay(engine, ops[..k]);
      }
    }
  }

  lemma FittingHeadIsTaken(engine: Scenes, ops: seq<Op>)
    requires PrefixesFit(engine, ops) && ops != []
    ensures !Refuses(engine, ops[0])
  {
    assert ops[..1][0] == ops[0] && ops[..1][1..] == [];
    assert Replay(engine, ops[..1]) == Apply(engine, ops[0]);
    if ops[0].isUpsert && ops[0].sceneId !in engine {
      assert Apply(engine, ops[0]).Keys == engine.Keys + {ops[0].sceneId};
    }
  }

  // The strong invariant.

  predicate AllEncodable(ops: seq<Op>) { forall k :: 0 <= k < |ops| ==> Encodable(ops[k]) }

  /** Nothing is lost, the queue file is current, and the engine has room for every pending step. */
  ghost predicate Whole(s: State) {
    && Invariant(s) && s.lost == {} && s.overtaken == {} && s.queueFile == s.pending
    && AllEncodable(s.pending) && PrefixesFit(s.engine, s.pending)
  }

  ghost predicate InStep(s: State) { Whole(s) && (s.connected ==> s.pending == []) }

  lemma SameTable(scenes: Scenes, mirror: map<Id, Card>)
    requires forall id :: At(scenes, id) == MirrorAt(mirror, id)
    ensures scenes == ShownTable(mirror) && |scenes| == |mirror|
  {
    forall id ensures id in scenes <==> id in mirror {
      assert At(scenes, id) == MirrorAt(mirror, id);
    }
    forall id | id in scenes ensures scenes[id] == ShownOf(mirror[id]) {
      assert At(scenes, id) == MirrorAt(mirror, id);
    }
    assert scenes.Keys == mirror.Keys;
  }

  lemma WholeAgrees(s: State)
    requires Invariant(s) && s.lost == {}
    ensures Replay(s.engine, s.pending) == ShownTable(s.mirror)
    ensures |Replay(s.engine, s.pending)| == |s.mirror| <= ENGINE_CAPACITY
  {
    forall id ensures At(Replay(s.engine, s.pending), id) == MirrorAt(s.mirror, id) {
      ReplayAt(s.engine, s.pending, id);
    }
    SameTable(Replay(s.engine, s.pending), s.mirror);
  }

  /** With nothing pending the engine holds the mirror, so an accepted edit is never refused. */
  lemma EditIsTaken(s: State, op: Op)
    requires Whole(s) && s.pending == []
    requires op.isUpsert ==> op.sceneId in s.mirror || |s.mirror| < MAX_SCENES
    ensures !Refuses(s.engine, op)
  {
    WholeAgrees(s);
    assert ShownTable(s.mirror).Keys == s.mirror.Keys;
  }

  /** What carrying an edit on leaves, when it can be queued. */
  lemma QueuedStaysWhole(s: State, op: Op, t: State)
    requires AllEncodable(s.pending) && PrefixesFit(s.engine, s.pending) && s.lost == {} && |s.pending| < MAX_PENDING
    requires Encodable(op)
    requires t == QueueSaved(Enqueued(s, op)) && Invariant(t)
    ensures Whole(t)
  {
    assert Trimmed(s) == s;
    assert t.pending == s.pending + [op] && t.lost == {} && t.engine == s.engine;
    WholeAgrees(t);
    PrefixesGrow(s.engine, s.pending, op);
  }

  lemma PersistedStaysWhole(s: State, before: map<Id, Card>, op: Op, saves: Saves)
    requires AllEncodable(s.pending) && PrefixesFit(s.engine, s.pending)
    requires s.lost == {} && s.overtaken == {} && s.queueFile == s.pending && |s.pending| < MAX_PENDING
    requires OpIsValid(op) && Encodable(op) && AllValid(s.pending)
    requires Invariant(Persisted(s, before, op, saves, false))
    ensures Whole(Persisted(s, before, op, saves, false))
  {
    var u := Enqueued(s, op);
    assert u.pending == s.pending + [op];
    if saves.queue {
      QueuedStaysWhole(s, op, QueueSaved(u));
    }
  }

  /** Offline: the edit is queued or undone. */
  lemma OfflineStaysInStep(s: State, edited: State, op: Op, saves: Saves, send: Send)
    requires InStep(s) && !s.connected && edited == Edited(s, edited.mirror) && EditIsBenign(s, saves, send)
    requires OpIsValid(op) && Encodable(op) && Carries(edited, s.mirror, op)
    ensures InStep(Forwarded(edited, s.mirror, op, saves, send))
  {
    EditCarries(s, edited.mirror, op);
    ForwardedKeeps(edited, s.mirror, op, saves, send);
    PersistedStaysWhole(edited, s.mirror, op, saves);
  }

  /** Online: acknowledged, queued after a failed send, or undone when the send did not arrive. */
  lemma OnlineStaysInStep(s: State, edited: State, op: Op, saves: Saves, send: Send)
    requires InStep(s) && s.connected && edited == Edited(s, edited.mirror) && EditIsBenign(s, saves, send)
    requires OpIsValid(op) && Encodable(op) && Carries(edited, s.mirror, op) && !Refuses(s.engine, op)
    ensures InStep(Forwarded(edited, s.mirror, op, saves, send))
  {
    EditCarries(s, edited.mirror, op);
    ForwardedKeeps(edited, s.mirror, op, saves, send);
    ExchangedMoves(edited, op, send);
    var t := Exchanged(edited, op, send);
    NothingPending(t);
    if !send.Acked? {
      UnconfirmedStaysInStep(t, s.mirror, op, saves, send);
    } else {
      NothingPending(Forwarded(edited, s.mirror, op, saves, send));
    }
  }

  lemma NothingPending(s: State)
    requires s.pending == [] && |s.engine| <= ENGINE_CAPACITY
    ensures PrefixesFit(s.engine, s.pending) && AllEncodable(s.pending)
  {
    assert s.pending[..0] == [];
  }

  lemma UnconfirmedStaysInStep(t: State, before: map<Id, Card>, op: Op, saves: Saves, send: Send)
    requires t.pending == [] && t.queueFile == [] && !t.connected
    requires PrefixesFit(t.engine, []) && t.lost == {} && t.overtaken == {}
    requires OpIsValid(op) && Encodable(op) && !send.Cancelled? && !send.Acked?
    requires send.ReplyLost? ==> saves.queue
    requires Invariant(Persisted(t, before, op, saves, send.ReplyLost?))
    ensures InStep(Persisted(t, before, op, saves, send.ReplyLost?))
  {
    assert Enqueued(t, op).pending == [op];
    if send.ReplyLost? {
      QueuedStaysWhole(t, op, QueueSaved(Enqueued(t, op)));
    } else {
      PersistedStaysWhole(t, before, op, saves);
    }
  }

  lemma EditStaysInStep(s: State, mirror: map<Id, Card>, op: Op, saves: Saves, send: Send)
    requires InStep(s) && EditIsBenign(s, saves, send)
    requires OpIsValid(op) && Encodable(op) && Carries(Edited(s, mirror), s.mirror, op)
    requires op.isUpsert ==> op.sceneId in s.mirror || |s.mirror| < MAX_SCENES
    ensures InStep(Forwarded(Edited(s, mirror), s.mirror, op, saves, send))
  {
    if s.connected {
      EditIsTaken(s, op);
      OnlineStaysInStep(s, Edited(s, mirror), op, saves, send);
    } else {
      OfflineStaysInStep(s, Edited(s, mirror), op, saves, send);
    }
  }

  lemma AddStaysInStep(s: State, card: Card, outputGroup: seq<Byte>, saves: Saves, send: Send)
    requires InStep(s) && Benign(s, Add(card, outputGroup, saves, send))
    ensures InStep(AfterAdd(s, card, outputGroup, saves, send))
  {
    if AddAccepted(s.mirror, card) && saves.cards {
      var op := UpsertOp(card, outputGroup);
      CardsGiveValidOps(card, outputGroup);
      EncodableExactly(op);
      PlacedFits(s.mirror, card);
      PlacedDiffers(s.mirror, card, outputGroup);
      EditCarries(s, s.mirror[card.id := card], op);
      EditStaysInStep(s, s.mirror[card.id := card], op, saves, send);
    }
  }

  lemma RemoveStaysInStep(s: State, id: Id, saves: Saves, send: Send)
    requires InStep(s) && Benign(s, Event.Remove(id, saves, send))
    ensures InStep(AfterRemove(s, id, saves, send))
  {
    if id in s.mirror && saves.cards {
      var op := RemoveOp(id);
      CardsGiveValidOps(s.mirror[id], []);
      EncodableExactly(op);
      RemovedFits(s.mirror, id);
      EditCarries(s, s.mirror - {id}, op);
      EditStaysInStep(s, s.mirror - {id}, op, saves, send);
    }
  }

  lemma HeadSentStaysWhole(s: State, step: FlushStep)
    requires Whole(s) && s.pending != [] && (step.send.Acked? ==> step.saved)
    ensures Whole(HeadSent(s, step)) && HeadLeaves(s, step) == step.send.Acked?
    ensures !Refuses(s.engine, s.pending[0])
  {
    HeadSentKeeps(s, step);
    FittingHeadIsTaken(s.engine, s.pending);
    PrefixesShrink(s.engine, s.pending);
    PrefixesRepeat(s.engine, s.pending);
  }

  lemma {:induction false} FlushedStaysInStep(s: State, steps: seq<FlushStep>)
    requires Whole(s) && s.connected
    requires forall k :: 0 <= k < |steps| ==> steps[k].saved && !steps[k].send.Cancelled?
    ensures InStep(Flushed(s, steps))
    decreases |s.pending|
  {
    if s.pending != [] {
      var step := StepAt(steps);
      HeadSentStaysWhole(s, step);
      if HeadLeaves(s, step) {
        FlushedStaysInStep(HeadSent(s, step), if steps == [] then [] else steps[1..]);
      }
    }
  }

  lemma RestartStaysInStep(s: State)
    requires InStep(s) && s.cardFile == s.mirror
    ensures InStep(AfterRestart(s))
  {
    RestartKeeps(s);
    forall id ensures id !in Apart(s) {
      NotApart(s, id);
      OutcomeIsLast(s.queueFile, id, At(s.engine, id));
    }
  }

  lemma ConnectionStaysWhole(s: State, connected: bool)
    requires Whole(s)
    ensures Whole(s.(connected := connected))
  {
    ConnectionKeeps(s, connected);
  }

  lemma StepStaysInStep(s: State, event: Event)
    requires InStep(s) && Benign(s, event)
    ensures InStep(Next(s, event))
  {
    match event
    case Add(card, outputGroup, saves, send) => AddStaysInStep(s, card, outputGroup, saves, send);
    case Remove(id, saves, send) => RemoveStaysInStep(s, id, saves, send);
    case Connect(reached, steps) =>
      ConnectionStaysWhole(s, reached);
      if reached {
        FlushedStaysInStep(s.(connected := true), steps);
      }
    case Disconnect => ConnectionStaysWhole(s, false);
    case Restart => RestartStaysInStep(s);
    case EngineRestart =>
  }

  lemma {:induction false} RunStaysInStep(s: State, events: seq<Event>)
    requires InStep(s) && BenignRun(s, events)
    ensures InStep(Run(s, events))
    decreases |events|
  {
    if events != [] {
      StepStaysInStep(s, events[0]);
      RunStaysInStep(Next(s, events[0]), events[1..]);
    }
  }

  /**
   * In every run within the limits nothing is lost: replaying the pending operations, or those in
   * the file, gives exactly the mirror, and a connected engine shows exactly the mirror.
   */
  lemma NothingIsLostWithinTheLimits(events: seq<Event>)
    requires BenignRun(START, events)
    ensures var s := Run(START, events);
            && Replay(s.engine, s.pending) == ShownTable(s.mirror) && s.queueFile == s.pending
            && (s.connected ==> s.engine == ShownTable(s.mirror))
  {
    assert START.pending[..0] == [];
    RunStaysInStep(START, events);
    WholeAgrees(Run(START, events));
  }

  // The card file.

  /** Every roll-back of this run is written to the card file. */
  predicate RollBacksAreWritten(events: seq<Event>) {
    forall k :: 0 <= k < |events| ==>
      (events[k].Add? || events[k].Remove? ==> events[k].saves.restore)
  }

  lemma {:induction false} FlushedKeepsCards(s: State, steps: seq<FlushStep>)
    ensures Flushed(s, steps).mirror == s.mirror && Flushed(s, steps).cardFile == s.cardFile
    decreases |s.pending|
  {
    if s.pending != [] {
      HeadSentEffect(s, StepAt(steps));
    }
    if s.pending != [] && HeadLeaves(s, StepAt(steps)) {
      FlushedKeepsCards(HeadSent(s, StepAt(steps)), if steps == [] then [] else steps[1..]);
    }
  }

  lemma {:induction false} TrimmedKeepsCards(s: State)
    ensures Trimmed(s).mirror == s.mirror && Trimmed(s).cardFile == s.cardFile
    decreases |s.pending|
  {
    if |s.pending| >= MAX_PENDING {
      TrimmedKeepsCards(Evicted(s));
    }
  }

  lemma ForwardedKeepsCardFile(s: State, before: map<Id, Card>, op: Op, saves: Saves, send: Send)
    requires s.cardFile == s.mirror && saves.restore
    ensures Forwarded(s, before, op, saves, send).cardFile == Forwarded(s, before, op, saves, send).mirror
  {
    TrimmedKeepsCards(s);
    TrimmedKeepsCards(Exchanged(s, op, send));
  }

  lemma StepKeepsCardFile(s: State, event: Event)
    requires s.cardFile == s.mirror && (event.Add? || event.Remove? ==> event.saves.restore)
    ensures Next(s, event).cardFile == Next(s, event).mirror
  {
    match event
    case Add(card, outputGroup, saves, send) =>
      ForwardedKeepsCardFile(Edited(s, s.mirror[card.id := card]), s.mirror, UpsertOp(card, outputGroup), saves, send);
    case Remove(id, saves, send) =>
      ForwardedKeepsCardFile(Edited(s, s.mirror - {id}), s.mirror, RemoveOp(id), saves, send);
    case Connect(reached, steps) => FlushedKeepsCards(s.(connected := true), steps);
    case Disconnect =>
    case Restart =>
    case EngineRestart =>
  }

  /** The card file is never behind in a run whose roll-backs are all written, whatever else fails. */
  lemma {:induction false} CardFileIsCurrent(s: State, events: seq<Event>)
    requires s.cardFile == s.mirror && RollBacksAreWritten(events)
    ensures Run(s, events).cardFile == Run(s, events).mirror
    decreases |events|
  {
    if events != [] {
      StepKeepsCardFile(s, events[0]);
      CardFileIsCurrent(Next(s, events[0]), events[1..]);
    }
  }
}
