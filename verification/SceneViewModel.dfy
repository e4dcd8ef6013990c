/** The view model's scene operations as they are coded, refining the synchronisation machine. */
module SceneViewModel {
  import opened Bytes
  import opened Wrappers
  import opened SceneCatalog
  import opened SceneQueue
  import opened SceneSync

  /** What an edit answers: done, not done, or an exception from the command encoder. */
  datatype Answer = Done | NotDone | Threw

  function FindCard(cards: seq<Card>, id: Id): Option<Card> {
    var index := FindIndex(cards, id);
    if index >= 0 then Some(cards[index]) else None
  }

  /** The list before an edit of `id`, restored: the old card back in the table, or the new one out of it. */
  ghost function Reverted(table: map<Id, Card>, previous: Option<Card>, id: Id): map<Id, Card> {
    if previous.Some? then table[id := previous.value] else table - {id}
  }

  /** The answer follows from where the edit ended up. */
  ghost function AnswerTo(s: State, op: Op, saves: Saves, send: Send): Answer {
    if s.connected && !Encodable(op) then Threw
    else if s.connected then (if send.Acked? then Done else NotDone)
    else if saves.queue && OpIsValid(op) then Done
    else NotDone
  }

  /** Only the new operation can make a queue unsavable. */
  lemma SavableExactly(s: State, op: Op)
    requires AllValid(s.pending)
    ensures AllValid(Enqueued(s, op).pending) <==> OpIsValid(op)
  {
    TrimmedKeeps(s);
    var ops := Enqueued(s, op).pending;
    assert ops[|ops| - 1] == op;
  }

  /** After a card is replaced the old one can still be stored. */
  lemma PlacedAcceptsTheOld(cards: seq<Card>, card: Card)
    requires ListFits(cards)
    ensures FindCard(cards, card.id).Some? ==> Accepts(Placed(cards, card), FindCard(cards, card.id).value)
  {
    var index := FindIndex(cards, card.id);
    if index >= 0 {
      assert Placed(cards, card)[index].id == card.id;
    }
  }

  lemma FoundCard(cards: seq<Card>, id: Id)
    requires UniqueIds(cards)
    ensures FindCard(cards, id) == if id in Table(cards) then Some(Table(cards)[id]) else None
  {
    FoundInTable(cards, id);
  }

  lemma AcceptedIsValid(s: State, card: Card, outputGroup: seq<Byte>)
    ensures AddAccepted(s.mirror, card) ==> (OpIsValid(UpsertOp(card, outputGroup)) <==> GroupIsValid(outputGroup))
  {
    if AddAccepted(s.mirror, card) {
      CardsGiveValidOps(card, outputGroup);
    }
  }

  lemma RemovalIsValid(s: State, id: Id)
    requires Invariant(s)
    ensures id in s.mirror ==> OpIsValid(RemoveOp(id)) && Encodable(RemoveOp(id))
  {
    if id in s.mirror {
      CardsGiveValidOps(s.mirror[id], []);
      EncodableExactly(RemoveOp(id));
    }
  }

  class SceneSynchroniser {
    const scenes: CustomSceneCatalog
    var pending: seq<Op>
    var dropped: nat
    var connected: bool

    // The two files and the engine on the other side of the pipe.
    var cardFile: seq<Card>
    var queueFile: seq<Op>
    var droppedFile: nat
    var engine: Scenes

    ghost var lost: set<Id>
    ghost var overtaken: set<Id>

    ghost function Model(): State
      reads this, scenes
    {
      State(Table(scenes.scenes), Table(cardFile), pending, queueFile, dropped, droppedFile, connected, engine,
            lost, overtaken)
    }

    ghost predicate Lists()
      reads this, scenes
    {
      scenes.Valid() && ListFits(cardFile)
    }

    ghost predicate Valid()
      reads this, scenes
    {
      Lists() && Invariant(Model())
    }

    constructor ()
      ensures Valid() && fresh(scenes) && Model() == START
    {
      scenes := new CustomSceneCatalog();
      pending, dropped, connected := [], 0, false;
      cardFile, queueFile, droppedFile, engine := [], [], 0, map[];
      lost, overtaken := {}, {};
    }

    /** One exchange: the engine may have applied the command whatever the outcome says. */
    method Exchange(op: Op, send: Send) returns (sent: bool)
      requires connected
      modifies this`engine, this`connected
      ensures Model() == Exchanged(old(Model()), op, send) && sent == send.Acked?
    {
      if Delivers(send) {
        engine := Consume(engine, op);
      }
      connected := send.Acked? || send.Cancelled?;
      return send.Acked?;
    }

    /** The pending operations are re-queued into a fresh companion and written as a whole. */
    method SavePendingSceneCatalogOps(written: bool) returns (saved: bool)
      requires |pending| <= MAX_PENDING
      modifies this`queueFile, this`droppedFile, this`overtaken
      ensures saved == (written && AllValid(pending))
      ensures Model() == if saved then QueueSaved(old(Model())) else old(Model())
    {
      var queue, accepted := Requeued(pending);
      if !accepted || !written {
        return false;
      }
      queueFile, droppedFile := queue.operations, dropped;
      overtaken := {};
      return true;
    }

    /** Oldest operations make room for the new one. */
    method EnqueueSceneCatalogOp(op: Op)
      modifies this`pending, this`dropped, this`lost
      ensures Model() == Enqueued(old(Model()), op) && |pending| <= MAX_PENDING
    {
      while |pending| >= MAX_PENDING
        invariant Trimmed(Model()) == Trimmed(old(Model()))
        decreases |pending|
      {
        lost := Evicted(Model()).lost;
        pending := pending[1..];
        dropped := dropped + 1;
      }
      pending := pending + [op];
      lost := lost - {op.sceneId};
    }

    /** Both the queue and its file take the operation, or the queue is put back as it was. */
    method TryPersistOfflineSceneOp(op: Op, written: bool) returns (persisted: bool)
      modifies this`pending, this`dropped, this`queueFile, this`droppedFile, this`lost, this`overtaken
      ensures persisted == (written && AllValid(Enqueued(old(Model()), op).pending))
      ensures Model() == if persisted then QueueSaved(Enqueued(old(Model()), op)) else old(Model())
    {
      var previousOps, previousDropped := pending, dropped;
      ghost var previousLost := lost;
      EnqueueSceneCatalogOp(op);
      persisted := SavePendingSceneCatalogOps(written);
      if !persisted {
        pending, dropped := previousOps, previousDropped;
        lost := previousLost;
      }
    }

    /** The list goes back: the old card is stored again, or the new one removed. */
    method PutBack(previous: Option<Card>, id: Id)
      requires scenes.Valid()
      requires previous.Some? ==> previous.value.id == id && Accepts(scenes.scenes, previous.value)
      modifies scenes
      ensures scenes.Valid() && Table(scenes.scenes) == Reverted(old(Table(scenes.scenes)), previous, id)
    {
      if previous.None? {
        DroppedFromTable(scenes.scenes, id);
        var _ := scenes.Remove(id);
      } else {
        PlacedInTable(scenes.scenes, previous.value);
        var _ := scenes.Upsert(previous.value);
      }
    }

    /** The list goes back, and its file too if the write succeeds. */
    method RestoreCustomSceneMirror(previous: Option<Card>, id: Id, written: bool, ghost applied: bool)
      requires Lists()
      requires previous.Some? ==> previous.value.id == id && Accepts(scenes.scenes, previous.value)
      modifies scenes, this`cardFile, this`lost
      ensures Lists()
      ensures var s := old(Model());
              var before := Reverted(s.mirror, previous, id);
              Model() == s.(mirror := before, cardFile := if written then before else s.cardFile,
                            lost := if applied then s.lost + {id} else s.lost)
    {
      PutBack(previous, id);
      if written {
        cardFile := scenes.scenes;
      }
      lost := if applied then lost + {id} else lost;
    }

    /** A card that can go back where an edit of `id` took it from. */
    ghost predicate CanPutBack(previous: Option<Card>, id: Id, before: map<Id, Card>)
      reads this, scenes
    {
      && Lists()
      && (previous.Some? ==> previous.value.id == id && Accepts(scenes.scenes, previous.value))
      && before == Reverted(Table(scenes.scenes), previous, id)
    }

    /** The edit is visible and saved; queue it, or undo it. */
    method Persist(op: Op, previous: Option<Card>, saves: Saves, ghost applied: bool, ghost before: map<Id, Card>)
      returns (persisted: bool)
      requires cardFile == scenes.scenes && CanPutBack(previous, op.sceneId, before)
      modifies this, scenes
      ensures Lists() && Model() == Persisted(old(Model()), before, op, saves, applied)
      ensures persisted == (saves.queue && AllValid(Enqueued(old(Model()), op).pending))
    {
      persisted := TryPersistOfflineSceneOp(op, saves.queue);
      if !persisted {
        RestoreCustomSceneMirror(previous, op.sceneId, saves.restore, applied);
      }
    }

    /** The edit is sent; when that is not confirmed it is queued. */
    method SendOrPersist(op: Op, previous: Option<Card>, saves: Saves, send: Send, ghost before: map<Id, Card>)
      returns (sent: bool)
      requires connected && Encodable(op)
      requires cardFile == scenes.scenes && CanPutBack(previous, op.sceneId, before)
      modifies this, scenes
      ensures Lists() && Model() == Forwarded(old(Model()), before, op, saves, send) && sent == send.Acked?
    {
      ghost var refused := Refuses(engine, op);
      sent := Exchange(op, send);
      if !sent {
        var _ := Persist(op, previous, saves, Delivers(send) && !refused, before);
        return false;
      }
      ghost var confirmed := Confirmed(Model(), refused, op);
      lost, overtaken := confirmed.lost, confirmed.overtaken;
    }

    /** Online the edit is sent, and queued if that fails; offline it is queued. */
    method Forward(op: Op, previous: Option<Card>, saves: Saves, send: Send, ghost before: map<Id, Card>)
      returns (answer: Answer)
      requires cardFile == scenes.scenes && CanPutBack(previous, op.sceneId, before) && AllValid(pending)
      modifies this, scenes
      ensures Lists() && Model() == Forwarded(old(Model()), before, op, saves, send)
      ensures answer == AnswerTo(old(Model()), op, saves, send)
    {
      if !connected {
        SavableExactly(Model(), op);
        var persisted := Persist(op, previous, saves, false, before);
        return if persisted then Done else NotDone;
      }
      if !Encodable(op) {
        lost := lost + {op.sceneId};
        return Threw;
      }
      var sent := SendOrPersist(op, previous, saves, send, before);
      return if sent then Done else NotDone;
    }

    /** The list update of an edit, read as a table. */
    method StoreCard(card: Card) returns (accepted: bool, previous: Option<Card>)
      requires scenes.Valid()
      modifies scenes
      ensures scenes.Valid()
      ensures var table := old(Table(scenes.scenes));
              && accepted == AddAccepted(table, card)
              && previous == (if card.id in table then Some(table[card.id]) else None)
              && Table(scenes.scenes) == if accepted then table[card.id := card] else table
      ensures previous.Some? && accepted ==> previous.value.id == card.id && Accepts(scenes.scenes, previous.value)
    {
      AcceptsByTable(scenes.scenes, card);
      FoundCard(scenes.scenes, card.id);
      PlacedInTable(scenes.scenes, card);
      previous := FindCard(scenes.scenes, card.id);
      PlacedAcceptsTheOld(scenes.scenes, card);
      accepted := scenes.Upsert(card);
    }

    /** The new card in the list and in the card file, or neither. */
    method EditCard(card: Card, written: bool) returns (edited: bool, previous: Option<Card>)
      requires Lists()
      modifies scenes, this`cardFile
      ensures Lists() && edited == (AddAccepted(old(Model()).mirror, card) && written)
      ensures Model() == if edited then Edited(old(Model()), old(Model()).mirror[card.id := card]) else old(Model())
      ensures edited ==> cardFile == scenes.scenes && CanPutBack(previous, card.id, old(Model()).mirror)
    {
      UndoAdd(Table(scenes.scenes), card);
      var accepted;
      accepted, previous := StoreCard(card);
      if !accepted {
        return false, previous;
      }
      if !written {
        PutBack(previous, card.id);
        return false, previous;
      }
      cardFile := scenes.scenes;
      return true, previous;
    }

    /** The card out of the list and out of the card file, or neither. */
    method DropCard(id: Id, written: bool) returns (edited: bool, previous: Option<Card>)
      requires Lists()
      modifies scenes, this`cardFile
      ensures Lists() && edited == (id in old(Model()).mirror && written)
      ensures Model() == if edited then Edited(old(Model()), old(Model()).mirror - {id}) else old(Model())
      ensures edited ==> cardFile == scenes.scenes && CanPutBack(previous, id, old(Model()).mirror)
    {
      FoundCard(scenes.scenes, id);
      DroppedFromTable(scenes.scenes, id);
      UndoRemove(Table(scenes.scenes), id);
      previous := FindCard(scenes.scenes, id);
      if previous.None? {
        return false, previous;
      }
      var _ := scenes.Remove(id);
      if !written {
        PutBack(previous, id);
        return false, previous;
      }
      cardFile := scenes.scenes;
      return true, previous;
    }

    method AddCustomSceneCore(card: Card, outputGroup: seq<Byte>, saves: Saves, send: Send) returns (answer: Answer)
      requires Lists() && AllValid(pending)
      modifies this, scenes
      ensures Lists() && Model() == AfterAdd(old(Model()), card, outputGroup, saves, send)
      ensures answer == if AddAccepted(old(Model()).mirror, card) && saves.cards
                        then AnswerTo(old(Model()), UpsertOp(card, outputGroup), saves, send) else NotDone
    {
      ghost var mirror := Table(scenes.scenes);
      var edited, previous := EditCard(card, saves.cards);
      if !edited {
        return NotDone;
      }
      answer := Forward(UpsertOp(card, outputGroup), previous, saves, send, mirror);
    }

    method RemoveCustomSceneCore(id: Id, saves: Saves, send: Send) returns (answer: Answer)
      requires Lists() && AllValid(pending)
      modifies this, scenes
      ensures Lists() && Model() == AfterRemove(old(Model()), id, saves, send)
      ensures answer == if id in old(Model()).mirror && saves.cards
                        then AnswerTo(old(Model()), RemoveOp(id), saves, send) else NotDone
    {
      ghost var mirror := Table(scenes.scenes);
      var edited, previous := DropCard(id, saves.cards);
      if !edited {
        return NotDone;
      }
      answer := Forward(RemoveOp(id), previous, saves, send, mirror);
    }

    /**
     * Done exactly when the card is accepted and saved, and the engine confirmed the edit or, offline,
     * its replay is on disk. It throws exactly for a saved edit that is sent and cannot be encoded.
     */
    method AddCustomScene(card: Card, outputGroup: seq<Byte>, saves: Saves, send: Send) returns (answer: Answer)
      requires Valid()
      modifies this, scenes
      ensures Valid() && Model() == Next(old(Model()), Add(card, outputGroup, saves, send))
      ensures answer.Done? <==>
                && AddAccepted(old(Model()).mirror, card) && saves.cards
                && if old(connected) then Encodable(UpsertOp(card, outputGroup)) && send.Acked?
                   else saves.queue && GroupIsValid(outputGroup)
      ensures answer.Threw? <==>
                && AddAccepted(old(Model()).mirror, card) && saves.cards
                && old(connected) && !Encodable(UpsertOp(card, outputGroup))
    {
      StepKeepsInvariant(Model(), Add(card, outputGroup, saves, send));
      AcceptedIsValid(Model(), card, outputGroup);
      answer := AddCustomSceneCore(card, outputGroup, saves, send);
    }

    /** Likewise; a removal can always be queued and encoded, so it never throws. */
    method RemoveCustomScene(id: Id, saves: Saves, send: Send) returns (answer: Answer)
      requires Valid()
      modifies this, scenes
      ensures Valid() && Model() == Next(old(Model()), Event.Remove(id, saves, send))
      ensures answer.Done? <==>
                id in old(Model()).mirror && saves.cards && if old(connected) then send.Acked? else saves.queue
      ensures !answer.Threw?
    {
      StepKeepsInvariant(Model(), Event.Remove(id, saves, send));
      RemovalIsValid(Model(), id);
      answer := RemoveCustomSceneCore(id, saves, send);
    }

    /** One turn of the flush: the head is sent, or dropped when it cannot be encoded. */
    method SendHead(step: FlushStep) returns (left: bool)
      requires connected && 0 < |pending| <= MAX_PENDING
      modifies this
      ensures Model() == HeadSent(old(Model()), step) && left == HeadLeaves(old(Model()), step)
      ensures cardFile == old(cardFile) && (left ==> connected)
    {
      var operation := pending[0];
      ghost var unreached := !Encodable(operation) || Refuses(engine, operation);
      if Encodable(operation) {
        var sent := Exchange(operation, step.send);
        if !sent {
          return false;
        }
      }
      lost := if unreached then Unreached(Model(), operation, pending[1..]).lost else lost;
      pending := pending[1..];
      var _ := SavePendingSceneCatalogOps(step.saved);
      return true;
    }

    /** The pending operations are sent head first until none is left or a send fails. */
    method FlushPendingSceneCatalogOps(steps: seq<FlushStep>) returns (flushed: bool)
      requires Valid() && connected
      modifies this
      ensures Valid() && Model() == Flushed(old(Model()), steps)
      ensures flushed == (pending == [])
    {
      var left := steps;
      while |pending| > 0
        invariant Valid() && connected
        invariant Flushed(Model(), left) == Flushed(old(Model()), steps)
        decreases |pending|
      {
        HeadSentKeeps(Model(), StepAt(left));
        var leaves := SendHead(StepAt(left));
        if !leaves {
          return false;
        }
        left := if left == [] then [] else left[1..];
      }
      return true;
    }

    method Connect(reached: bool, steps: seq<FlushStep>) returns (online: bool)
      requires Valid()
      modifies this
      ensures Valid() && Model() == Next(old(Model()), Event.Connect(reached, steps)) && online == connected
      ensures !reached ==> !online && Model() == old(Model()).(connected := false)
    {
      ConnectionKeeps(Model(), reached);
      connected := reached;
      if connected && |pending| > 0 {
        var _ := FlushPendingSceneCatalogOps(steps);
      }
      return connected;
    }

    method Disconnect()
      requires Valid()
      modifies this`connected
      ensures Valid() && Model() == Next(old(Model()), Event.Disconnect) == old(Model()).(connected := false)
    {
      ConnectionKeeps(Model(), false);
      connected := false;
    }

    /** The queue is loaded from its file, which holds nothing the queue would refuse. */
    method LoadPendingSceneCatalogOps() returns (loaded: bool)
      requires QueueFits(queueFile)
      modifies this`pending, this`dropped
      ensures loaded && pending == queueFile && dropped == droppedFile
    {
      var queue := new CustomSceneSyncQueue();
      loaded := queue.Load(queueFile);
      pending, dropped := queue.operations, droppedFile;
    }

    /** A new start of the program: the cards are loaded, then the queue. */
    method LoadCustomScenes() returns (loaded: bool)
      requires Lists() && QueueFits(queueFile)
      modifies this, scenes
      ensures Lists() && loaded && Model() == Next(old(Model()), Event.Restart)
      ensures Table(scenes.scenes) == Table(cardFile) && pending == queueFile && dropped == droppedFile && !connected
      ensures cardFile == old(cardFile) && queueFile == old(queueFile) && droppedFile == old(droppedFile)
    {
      ghost var apart := Apart(Model());
      connected := false;
      loaded := scenes.Load(cardFile);
      if loaded {
        loaded := LoadPendingSceneCatalogOps();
      }
      lost, overtaken := lost + apart, {};
    }
  }

  lemma UndoAdd(mirror: map<Id, Card>, card: Card)
    ensures var previous := if card.id in mirror then Some(mirror[card.id]) else None;
            Reverted(mirror[card.id := card], previous, card.id) == mirror
  {
  }

  lemma UndoRemove(mirror: map<Id, Card>, id: Id)
    ensures id in mirror ==> Reverted(mirror - {id}, Some(mirror[id]), id) == mirror
  {
  }
}
