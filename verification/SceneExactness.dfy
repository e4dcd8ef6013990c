/** For each way the scenes can fall out of step: exactly when one step of it does so. */
module SceneExactness {
  import opened Bytes
  import opened Wrappers
  import opened SceneCatalog
  import opened SceneQueue
  import opened SceneSync
  import opened SceneRuns
  import opened SceneReplay

  /** Replaying the pending operations on the engine's catalog gives the mirror at this id. */
  predicate AgreesAt(s: State, id: Id) { Outcome(s.pending, id, At(s.engine, id)) == MirrorAt(s.mirror, id) }

  // Restarts of the program.

  lemma FileOutcomeExactly(s: State, id: Id)
    requires Invariant(s) && id !in s.lost
    ensures Outcome(s.queueFile, id, At(s.engine, id)) == MirrorAt(s.cardFile, id) <==> SavedAlike(s, id)
  {
    OutcomeIsLast(s.queueFile, id, At(s.engine, id));
    OutcomeWhenNamed(s.pending, id, At(s.engine, id), None);
  }

  /** Whatever saves failed before: a restart leaves an id in agreement exactly when the files are alike on it. */
  lemma RestartAgreesExactly(s: State, id: Id)
    requires Invariant(s) && id !in s.lost
    ensures AgreesAt(Next(s, Restart), id) <==> SavedAlike(s, id)
  {
    FileOutcomeExactly(s, id);
    RestartEffect(s);
  }

  lemma TableExactly(scenes: Scenes, cards: map<Id, Card>)
    ensures scenes == ShownTable(cards) <==> forall id :: At(scenes, id) == MirrorAt(cards, id)
  {
    if forall id :: At(scenes, id) == MirrorAt(cards, id) {
      SameTable(scenes, cards);
    }
  }

  lemma ReplayedFileAt(s: State, id: Id)
    requires Invariant(s) && id !in s.lost
    ensures At(Replay(s.engine, s.queueFile), id) == MirrorAt(s.cardFile, id) <==> SavedAlike(s, id)
  {
    FileOutcomeExactly(s, id);
    ReplayAt(s.engine, s.queueFile, id);
  }

  /** Replaying the queue file gives exactly the saved cards if and only if the files are alike on every id. */
  lemma RestartGivesTheCardsExactly(s: State)
    requires Invariant(s) && s.lost == {}
    ensures Replay(s.engine, s.queueFile) == ShownTable(s.cardFile) <==> forall id :: SavedAlike(s, id)
  {
    TableExactly(Replay(s.engine, s.queueFile), s.cardFile);
    forall id ensures At(Replay(s.engine, s.queueFile), id) == MirrorAt(s.cardFile, id) <==> SavedAlike(s, id) {
      ReplayedFileAt(s, id);
    }
  }

  /** A refused last upsert leaves its id out of the engine. */
  lemma {:induction false} LostMeansAbsent(engine: Scenes, ops: seq<Op>, id: Id)
    requires id in LostIds(engine, ops)
    ensures id !in Drain(engine, ops)
    decreases |ops|
  {
    var op, rest := ops[0], ops[1..];
    if id in LostIds(Consume(engine, op), rest) {
      LostMeansAbsent(Consume(engine, op), rest, id);
    } else {
      DrainAt(Consume(engine, op), rest, id, None);
      assert At(Drain(engine, ops), id) == At(engine, id);
    }
  }

  /** What the bounded engine shows after receiving these operations. */
  lemma DrainedAt(engine: Scenes, ops: seq<Op>, id: Id)
    ensures At(Drain(engine, ops), id) == if id in LostIds(engine, ops) then None else Outcome(ops, id, At(engine, id))
  {
    OutcomeWhenNamed(ops, id, At(engine, id), None);
    DrainAt(engine, ops, id, At(engine, id));
    if id in LostIds(engine, ops) {
      LostMeansAbsent(engine, ops, id);
    }
  }

  lemma DrainedFileAt(s: State, id: Id)
    requires Invariant(s) && id !in s.lost
    ensures At(Drain(s.engine, s.queueFile), id) == MirrorAt(s.cardFile, id)
            <==> if id in LostIds(s.engine, s.queueFile) then id !in s.cardFile else SavedAlike(s, id)
  {
    FileOutcomeExactly(s, id);
    DrainedAt(s.engine, s.queueFile, id);
  }

  /** Restart, reconnect and an acknowledged replay, on the bounded engine. */
  lemma RestartShowsExactly(s: State, steps: seq<FlushStep>, id: Id)
    requires Invariant(s) && id !in s.lost
    requires AllEncodable(s.queueFile) && |steps| >= |s.queueFile| && AllAcked(steps)
    ensures var t := Next(Next(s, Restart), Connect(true, steps));
            At(t.engine, id) == MirrorAt(t.mirror, id)
            <==> if id in LostIds(s.engine, s.queueFile) then id !in s.cardFile else SavedAlike(s, id)
  {
    RestartDrains(s, steps);
    DrainedFileAt(s, id);
  }

  // Restarts of the engine.

  /** A scene survives an engine restart exactly when a queued operation still names it. */
  lemma EngineRestartAgreesExactly(s: State, id: Id)
    requires Invariant(s) && id !in s.lost
    ensures AgreesAt(Next(s, EngineRestart), id) <==> id !in s.mirror || Names(s.pending, id)
  {
    EngineRestartKeeps(s);
  }

  // Edits.

  /** An edit of the mirror at one id, carried on by an operation. */
  function EditSent(s: State, mirror: map<Id, Card>, op: Op, saves: Saves, send: Send): State {
    Forwarded(Edited(s, mirror), s.mirror, op, saves, send)
  }

  /**
   * An acknowledged direct send leaves its id in agreement exactly when no queued operation will
   * overwrite it with something else and the engine had room.
   */
  lemma DirectSendAgreesExactly(s: State, mirror: map<Id, Card>, op: Op, saves: Saves)
    requires s.connected && Encodable(op) && MirrorAt(mirror, op.sceneId) == Effect(op)
    ensures AgreesAt(EditSent(s, mirror, op, saves, Acked), op.sceneId)
            <==> match LastNaming(s.pending, op.sceneId)
                 case Some(queued) => Effect(queued) == Effect(op)
                 case None => !Refuses(s.engine, op)
  {
    var id := op.sceneId;
    ConsumeAt(s.engine, op, id);
    OutcomeIsLast(s.pending, id, At(Consume(s.engine, op), id));
  }

  /**
   * An edit whose send and queue write both failed is rolled back; it leaves its id in agreement
   * exactly when the engine did not apply it, or applied what the mirror showed anyway, or a queued
   * operation will put it right.
   */
  lemma RollBackAgreesExactly(s: State, mirror: map<Id, Card>, op: Op, saves: Saves, send: Send)
    requires s.connected && Encodable(op) && !send.Acked? && !saves.queue && AgreesAt(s, op.sceneId)
    ensures AgreesAt(EditSent(s, mirror, op, saves, send), op.sceneId)
            <==> || Names(s.pending, op.sceneId) || !Delivers(send) || Refuses(s.engine, op)
                 || Effect(op) == MirrorAt(s.mirror, op.sceneId)
  {
    var id := op.sceneId;
    ConsumeAt(s.engine, op, id);
    OutcomeWhenNamed(s.pending, id, At(Consume(s.engine, op), id), At(s.engine, id));
    OutcomeWhenNamed(s.pending, id, At(s.engine, id), None);
  }

  /** An online upsert that cannot be encoded leaves its id in agreement exactly when it changed nothing shown. */
  lemma UnsentAgreesExactly(s: State, mirror: map<Id, Card>, op: Op, saves: Saves, send: Send)
    requires s.connected && !Encodable(op) && AgreesAt(s, op.sceneId) && MirrorAt(mirror, op.sceneId) == Effect(op)
    ensures AgreesAt(EditSent(s, mirror, op, saves, send), op.sceneId)
            <==> Effect(op) == MirrorAt(s.mirror, op.sceneId)
  {
  }

  lemma PersistedAgrees(t: State, before: map<Id, Card>, op: Op, saves: Saves, applied: bool)
    requires AllValid(t.pending) && OpIsValid(op) && saves.queue && MirrorAt(t.mirror, op.sceneId) == Effect(op)
    ensures AgreesAt(Persisted(t, before, op, saves, applied), op.sceneId)
  {
    TrimmedKeeps(t);
    var ops := Enqueued(t, op).pending;
    assert ops[|ops| - 1] == op;
  }

  /** An edit that reaches the queue leaves its id in agreement, whatever was lost before. */
  lemma QueuedAgrees(s: State, mirror: map<Id, Card>, op: Op, saves: Saves, send: Send)
    requires Invariant(s) && OpIsValid(op) && saves.queue && MirrorAt(mirror, op.sceneId) == Effect(op)
    requires s.connected ==> Encodable(op) && !send.Acked?
    ensures AgreesAt(EditSent(s, mirror, op, saves, send), op.sceneId)
  {
    var edited := Edited(s, mirror);
    if s.connected {
      PersistedAgrees(Exchanged(edited, op, send), s.mirror, op, saves, Delivers(send) && !Refuses(s.engine, op));
    } else {
      PersistedAgrees(edited, s.mirror, op, saves, false);
    }
  }

  /** Dropping the oldest operation changes an id's replay exactly when only it named the id, to another effect. */
  lemma EvictionAgreesExactly(s: State, id: Id)
    requires s.pending != []
    ensures Outcome(Evicted(s).pending, id, At(s.engine, id)) == Outcome(s.pending, id, At(s.engine, id))
            <==> || s.pending[0].sceneId != id || Names(s.pending[1..], id)
                 || Effect(s.pending[0]) == At(s.engine, id)
  {
    var op, rest := s.pending[0], s.pending[1..];
    assert s.pending == [op] + rest;
    OutcomeOfFirst(op, rest, id, At(s.engine, id));
    OutcomeWhenNamed(rest, id, Effect(op), At(s.engine, id));
    OutcomeWhenNamed(rest, id, At(s.engine, id), None);
  }

  // The same for the two operations of the view model.

  lemma AddIsAnEdit(s: State, card: Card, outputGroup: seq<Byte>, saves: Saves, send: Send)
    requires AddAccepted(s.mirror, card) && saves.cards
    ensures var mirror := s.mirror[card.id := card];
            && Next(s, Add(card, outputGroup, saves, send))
               == EditSent(s, mirror, UpsertOp(card, outputGroup), saves, send)
            && MirrorAt(mirror, card.id) == Effect(UpsertOp(card, outputGroup))
  {
  }

  lemma RemoveIsAnEdit(s: State, id: Id, saves: Saves, send: Send)
    requires id in s.mirror && saves.cards
    ensures var mirror := s.mirror - {id};
            && Next(s, Event.Remove(id, saves, send)) == EditSent(s, mirror, RemoveOp(id), saves, send)
            && MirrorAt(mirror, id) == Effect(RemoveOp(id))
  {
  }
}
