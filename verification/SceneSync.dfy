/**
 * Offline scene synchronisation: a card mirror, its file, a bounded replay queue, its file, and the
 * engine's catalog, kept in agreement through disconnects, lost replies, eviction and restarts.
 */
module SceneSync {
  import opened Bytes
  import opened Wrappers
  import opened SceneCatalog
  import opened SceneQueue

  const ENGINE_CAPACITY: nat := 32

  type Scenes = map<Id, Shown>

  // What operations do to a catalog.

  /** The catalog an operation asks for. */
  function Apply(scenes: Scenes, op: Op): Scenes {
    if op.isUpsert then scenes[op.sceneId := Shown(op.name, op.irReference, op.loudnessLiveUpdate)]
    else scenes - {op.sceneId}
  }

  function Replay(scenes: Scenes, ops: seq<Op>): Scenes
    decreases |ops|
  {
    if ops == [] then scenes else Replay(Apply(scenes, ops[0]), ops[1..])
  }

  predicate Refuses(engine: Scenes, op: Op) {
    op.isUpsert && op.sceneId !in engine && |engine| >= ENGINE_CAPACITY
  }

  /** What the engine does: it acknowledges on receipt and ignores a refusal at capacity. */
  function Consume(engine: Scenes, op: Op): Scenes {
    if Refuses(engine, op) then engine else Apply(engine, op)
  }

  function At(scenes: Scenes, id: Id): Option<Shown> {
    if id in scenes then Some(scenes[id]) else None
  }

  function Effect(op: Op): Option<Shown> {
    if op.isUpsert then Some(Shown(op.name, op.irReference, op.loudnessLiveUpdate)) else None
  }

  predicate Names(ops: seq<Op>, id: Id) {
    exists k :: 0 <= k < |ops| && ops[k].sceneId == id
  }

  /** What replaying `ops` leaves at one id that starts as `before`: only the last naming counts. */
  function Outcome(ops: seq<Op>, id: Id, before: Option<Shown>): Option<Shown> {
    if ops == [] then before
    else if ops[|ops| - 1].sceneId == id then Effect(ops[|ops| - 1])
    else Outcome(ops[..|ops| - 1], id, before)
  }

  lemma {:induction false} OutcomeOfFirst(op: Op, rest: seq<Op>, id: Id, before: Option<Shown>)
    ensures Outcome([op] + rest, id, before)
            == Outcome(rest, id, if op.sceneId == id then Effect(op) else before)
  {
    var ops := [op] + rest;
    if rest == [] {
      assert ops[..0] == [];
    } else {
      assert ops[..|ops| - 1] == [op] + rest[..|rest| - 1];
      OutcomeOfFirst(op, rest[..|rest| - 1], id, before);
    }
  }

  lemma {:induction false} ReplayAt(scenes: Scenes, ops: seq<Op>, id: Id)
    ensures At(Replay(scenes, ops), id) == Outcome(ops, id, At(scenes, id))
    decreases |ops|
  {
    if ops != [] {
      ReplayAt(Apply(scenes, ops[0]), ops[1..], id);
      OutcomeOfFirst(ops[0], ops[1..], id, At(scenes, id));
      assert ops == [ops[0]] + ops[1..];
    }
  }

  /** Once an id is named, what it held before no longer matters. */
  lemma {:induction false} OutcomeWhenNamed(ops: seq<Op>, id: Id, one: Option<Shown>, other: Option<Shown>)
    ensures Names(ops, id) ==> Outcome(ops, id, one) == Outcome(ops, id, other)
    ensures !Names(ops, id) ==> Outcome(ops, id, one) == one
  {
    if ops != [] {
      var front := ops[..|ops| - 1];
      OutcomeWhenNamed(front, id, one, other);
      if Names(ops, id) && ops[|ops| - 1].sceneId != id {
        var k :| 0 <= k < |ops| && ops[k].sceneId == id;
        assert front[k].sceneId == id;
      }
      if Names(front, id) {
        var k :| 0 <= k < |front| && front[k].sceneId == id;
        assert ops[k].sceneId == id;
      }
    }
  }

  lemma NamesOfFirst(op: Op, rest: seq<Op>, id: Id)
    ensures Names([op] + rest, id) <==> op.sceneId == id || Names(rest, id)
  {
    var ops := [op] + rest;
    if Names(ops, id) && op.sceneId != id {
      var k :| 0 <= k < |ops| && ops[k].sceneId == id;
      assert rest[k - 1].sceneId == id;
    }
    if op.sceneId == id {
      assert ops[0].sceneId == id;
    }
    if Names(rest, id) {
      var k :| 0 <= k < |rest| && rest[k].sceneId == id;
      assert ops[k + 1].sceneId == id;
    }
  }

  lemma NamesOfBoth(first: seq<Op>, second: seq<Op>, id: Id)
    ensures Names(first + second, id) <==> Names(first, id) || Names(second, id)
  {
    var ops := first + second;
    if Names(first, id) {
      var k :| 0 <= k < |first| && first[k].sceneId == id;
      assert ops[k].sceneId == id;
    }
    if Names(second, id) {
      var k :| 0 <= k < |second| && second[k].sceneId == id;
      assert ops[|first| + k].sceneId == id;
    }
    if Names(ops, id) && !Names(first, id) {
      var k :| 0 <= k < |ops| && ops[k].sceneId == id;
      assert k >= |first| && second[k - |first|].sceneId == id;
    }
  }

  /** The last operation that names an id. */
  function LastNaming(ops: seq<Op>, id: Id): Option<Op> {
    if ops == [] then None
    else if ops[|ops| - 1].sceneId == id then Some(ops[|ops| - 1])
    else LastNaming(ops[..|ops| - 1], id)
  }

  /** A replay leaves what the last operation on the id says, or what was there before. */
  lemma {:induction false} OutcomeIsLast(ops: seq<Op>, id: Id, before: Option<Shown>)
    ensures Names(ops, id) <==> LastNaming(ops, id).Some?
    ensures Outcome(ops, id, before)
            == match LastNaming(ops, id) case None => before case Some(op) => Effect(op)
  {
    if ops != [] {
      var front := ops[..|ops| - 1];
      OutcomeIsLast(front, id, before);
      assert ops == front + ops[|ops| - 1..];
      NamesOfBoth(front, ops[|ops| - 1..], id);
      assert Names(ops[|ops| - 1..], id) <==> ops[|ops| - 1].sceneId == id by {
        NamesOfFirst(ops[|ops| - 1], [], id);
        assert [ops[|ops| - 1]] + [] == ops[|ops| - 1..];
      }
    }
  }

  // The machine.

  /** How one command's exchange ends. A cancelled exchange leaves the connection open. */
  datatype Send = Acked | ReplyLost | NotDelivered | Cancelled(delivered: bool)

  /** Which of the file writes of one edit succeed: cards, queue, and the cards again on a rollback. */
  datatype Saves = Saves(cards: bool, queue: bool, restore: bool)

  datatype FlushStep = FlushStep(send: Send, saved: bool)

  datatype Event =
    | Add(card: Card, outputGroup: seq<Byte>, saves: Saves, send: Send)
    | Remove(id: Id, saves: Saves, send: Send)
    | Connect(reached: bool, steps: seq<FlushStep>)
    | Disconnect
    | Restart
    | EngineRestart

  /**
   * `lost` and `overtaken` are bookkeeping that no branch reads: ids whose divergence from the
   * engine, or from a replay of the queue file, is admitted.
   */
  datatype State = State(
    mirror: map<Id, Card>,
    cardFile: map<Id, Card>,
    pending: seq<Op>,
    queueFile: seq<Op>,
    dropped: nat,
    droppedFile: nat,
    connected: bool,
    engine: Scenes,
    lost: set<Id>,
    overtaken: set<Id>)

  const START: State := State(map[], map[], [], [], 0, 0, false, map[], {}, {})

  function MirrorAt(mirror: map<Id, Card>, id: Id): Option<Shown> {
    if id in mirror then Some(ShownOf(mirror[id])) else None
  }

  predicate Delivers(send: Send) { send.Acked? || send.ReplyLost? || (send.Cancelled? && send.delivered) }

  /** One exchange over an open connection. */
  function Exchanged(s: State, op: Op, send: Send): State {
    s.(engine := if Delivers(send) then Consume(s.engine, op) else s.engine,
       connected := send.Acked? || send.Cancelled?)
  }

  /** The queue file is overwritten with the pending operations; nothing it promised stays overtaken. */
  function QueueSaved(s: State): State {
    s.(queueFile := s.pending, droppedFile := s.dropped, overtaken := {})
  }

  /** The oldest operation makes room; its id is lost unless a later one names it. */
  function Evicted(s: State): State
    requires s.pending != []
  {
    s.(pending := s.pending[1..], dropped := s.dropped + 1,
       lost := if Names(s.pending[1..], s.pending[0].sceneId) then s.lost else s.lost + {s.pending[0].sceneId})
  }

  function Trimmed(s: State): State
    decreases |s.pending|
  {
    if |s.pending| >= MAX_PENDING then Trimmed(Evicted(s)) else s
  }

  function Enqueued(s: State, op: Op): State {
    var t := Trimmed(s);
    t.(pending := t.pending + [op], lost := t.lost - {op.sceneId})
  }

  /** Queue the operation durably, or roll the edit back to `before`; an applied send is then lost. */
  function Persisted(s: State, before: map<Id, Card>, op: Op, saves: Saves, applied: bool): State {
    var t := Enqueued(s, op);
    if saves.queue && AllValid(t.pending) then QueueSaved(t)
    else
      s.(mirror := before,
         cardFile := if saves.restore then before else s.cardFile,
         lost := if applied then s.lost + {op.sceneId} else s.lost)
  }

  /** An acknowledged direct send: lost when the engine was full or an older operation is still queued. */
  function Confirmed(s: State, refused: bool, op: Op): State {
    s.(lost := if refused || Names(s.pending, op.sceneId) then s.lost + {op.sceneId}
               else s.lost - {op.sceneId},
       overtaken := if Names(s.queueFile, op.sceneId) then s.overtaken + {op.sceneId} else s.overtaken)
  }

  /** The edit is in the mirror and the card file; now it goes to the engine or to the queue. */
  function Forwarded(s: State, before: map<Id, Card>, op: Op, saves: Saves, send: Send): State {
    if !s.connected then Persisted(s, before, op, saves, false)
    else if !Encodable(op) then s.(lost := s.lost + {op.sceneId})
    else
      var t := Exchanged(s, op, send);
      if send.Acked? then Confirmed(t, Refuses(s.engine, op), op)
      else Persisted(t, before, op, saves, Delivers(send) && !Refuses(s.engine, op))
  }

  predicate AddAccepted(mirror: map<Id, Card>, card: Card) {
    CardIsValid(card) && (card.id in mirror || |mirror| < MAX_SCENES)
  }

  function Edited(s: State, mirror: map<Id, Card>): State {
    s.(mirror := mirror, cardFile := mirror)
  }

  function AfterAdd(s: State, card: Card, outputGroup: seq<Byte>, saves: Saves, send: Send): State {
    if !AddAccepted(s.mirror, card) || !saves.cards then s
    else Forwarded(Edited(s, s.mirror[card.id := card]), s.mirror, UpsertOp(card, outputGroup), saves, send)
  }

  function AfterRemove(s: State, id: Id, saves: Saves, send: Send): State {
    if id !in s.mirror || !saves.cards then s
    else Forwarded(Edited(s, s.mirror - {id}), s.mirror, RemoveOp(id), saves, send)
  }

  /** The head leaves the queue; the save that follows may fail and is ignored. */
  function Dequeued(s: State, saved: bool): State
    requires s.pending != []
  {
    var t := s.(pending := s.pending[1..]);
    if saved && AllValid(t.pending) then QueueSaved(t) else t
  }

  /** An id is lost when its last queued operation leaves without reaching the engine. */
  function Unreached(s: State, op: Op, rest: seq<Op>): State {
    s.(lost := if Names(rest, op.sceneId) then s.lost else s.lost + {op.sceneId})
  }

  function StepAt(steps: seq<FlushStep>): FlushStep {
    if steps == [] then FlushStep(NotDelivered, false) else steps[0]
  }

  /** Whether the head leaves the queue: the engine acknowledged it, or it cannot be encoded at all. */
  predicate HeadLeaves(s: State, step: FlushStep)
    requires s.pending != []
  {
    !Encodable(s.pending[0]) || step.send.Acked?
  }

  /** One turn of the flush; an operation that cannot be encoded is dropped without a word. */
  function HeadSent(s: State, step: FlushStep): (t: State)
    requires s.pending != []
    ensures |t.pending| == if HeadLeaves(s, step) then |s.pending| - 1 else |s.pending|
  {
    var op, rest := s.pending[0], s.pending[1..];
    if !Encodable(op) then Dequeued(Unreached(s, op, rest), step.saved)
    else
      var t := Exchanged(s, op, step.send);
      if !step.send.Acked? then t
      else if Refuses(s.engine, op) then Dequeued(Unreached(t, op, rest), step.saved)
      else Dequeued(t, step.saved)
  }

  /** The queue is sent head first until it is empty or a send fails. */
  function Flushed(s: State, steps: seq<FlushStep>): State
    decreases |s.pending|
  {
    if s.pending == [] then s
    else
      var t := HeadSent(s, StepAt(steps));
      if HeadLeaves(s, StepAt(steps)) then Flushed(t, if steps == [] then [] else steps[1..]) else t
  }

  function AfterConnect(s: State, reached: bool, steps: seq<FlushStep>): State {
    if reached then Flushed(s.(connected := true), steps) else s.(connected := false)
  }

  /** The files are up to date on an id: the last saved operation, if any, asks for the saved card. */
  predicate SavedAlike(s: State, id: Id) {
    match LastNaming(s.queueFile, id)
    case Some(op) => Effect(op) == MirrorAt(s.cardFile, id)
    case None => MirrorAt(s.mirror, id) == MirrorAt(s.cardFile, id)
  }

  function NamedIds(ops: seq<Op>): set<Id> { set k | 0 <= k < |ops| :: ops[k].sceneId }

  /** Ids on which the two files are not alike. */
  function Apart(s: State): set<Id> {
    set id | id in s.mirror.Keys + s.cardFile.Keys + NamedIds(s.queueFile) && !SavedAlike(s, id)
  }

  /** Both files are read back; what they disagree about becomes lost. */
  function AfterRestart(s: State): State {
    s.(mirror := s.cardFile, pending := s.queueFile, dropped := s.droppedFile, connected := false,
       lost := s.lost + Apart(s), overtaken := {})
  }

  /** Ids of the mirror that no queued operation names. */
  function Unqueued(s: State): set<Id> { set id | id in s.mirror && !Names(s.pending, id) }

  /** The engine's catalog is not stored: only ids that are still queued will come back. */
  function AfterEngineRestart(s: State): State {
    s.(engine := map[], connected := false, lost := s.lost + Unqueued(s))
  }

  function Next(s: State, event: Event): State {
    match event
    case Add(card, outputGroup, saves, send) => AfterAdd(s, card, outputGroup, saves, send)
    case Remove(id, saves, send) => AfterRemove(s, id, saves, send)
    case Connect(reached, steps) => AfterConnect(s, reached, steps)
    case Disconnect => s.(connected := false)
    case Restart => AfterRestart(s)
    case EngineRestart => AfterEngineRestart(s)
  }

  function Run(s: State, events: seq<Event>): State
    decreases |events|
  {
    if events == [] then s else Run(Next(s, events[0]), events[1..])
  }

  // What every run keeps.

  ghost predicate CardsFit(cards: map<Id, Card>) {
    |cards| <= MAX_SCENES && forall id :: id in cards ==> cards[id].id == id && CardIsValid(cards[id])
  }

  ghost predicate Bounded(s: State) {
    && CardsFit(s.mirror) && CardsFit(s.cardFile) && QueueFits(s.pending) && QueueFits(s.queueFile)
    && |s.engine| <= ENGINE_CAPACITY
  }

  /** Replaying the pending operations on the engine's catalog gives the mirror, except at lost ids. */
  ghost predicate Agrees(s: State) {
    forall id :: id !in s.lost ==> Outcome(s.pending, id, At(s.engine, id)) == MirrorAt(s.mirror, id)
  }

  /** So does replaying the queue file, except also at overtaken ids. */
  ghost predicate FileAgrees(s: State) {
    && (forall id :: Names(s.pending, id) ==> Names(s.queueFile, id))
    && (forall id :: id in s.overtaken ==> Names(s.queueFile, id))
    && forall id :: id !in s.lost + s.overtaken ==>
         Outcome(s.queueFile, id, At(s.engine, id)) == MirrorAt(s.mirror, id)
  }

  ghost predicate Invariant(s: State) { Bounded(s) && Agrees(s) && FileAgrees(s) }

  /** The ids the first operations name and the kept ones do not. */
  predicate LeftUnnamed(ops: seq<Op>, kept: seq<Op>, id: Id)
    requires |kept| <= |ops|
  {
    Names(ops[..|ops| - |kept|], id) && !Names(kept, id)
  }

  lemma DroppedOneMore(op: Op, rest: seq<Op>, kept: seq<Op>, id: Id)
    requires |kept| <= |rest| && kept == rest[|rest| - |kept|..]
    ensures LeftUnnamed([op] + rest, kept, id)
            <==> LeftUnnamed(rest, kept, id) || (op.sceneId == id && !Names(rest, id))
  {
    var gone := rest[..|rest| - |kept|];
    assert ([op] + rest)[..|rest| + 1 - |kept|] == [op] + gone;
    assert rest == gone + kept;
    NamesOfFirst(op, gone, id);
    NamesOfBoth(gone, kept, id);
  }

  /**
   * Making room drops the oldest operations, and an id becomes lost by it exactly when a dropped
   * operation named it and no kept one does.
   */
  lemma {:induction false} TrimmedLosesExactly(s: State)
    ensures var t := Trimmed(s);
            && |t.pending| < MAX_PENDING && |t.pending| <= |s.pending|
            && t.pending == s.pending[|s.pending| - |t.pending|..]
            && (|s.pending| >= MAX_PENDING ==> |t.pending| == MAX_PENDING - 1)
            && forall id :: id in t.lost <==> id in s.lost || LeftUnnamed(s.pending, t.pending, id)
    decreases |s.pending|
  {
    if |s.pending| >= MAX_PENDING {
      var op, e := s.pending[0], Evicted(s);
      TrimmedLosesExactly(e);
      assert s.pending == [op] + e.pending;
      forall id
        ensures LeftUnnamed(s.pending, Trimmed(s).pending, id)
                <==> LeftUnnamed(e.pending, Trimmed(s).pending, id) || (op.sceneId == id && !Names(e.pending, id))
      {
        DroppedOneMore(op, e.pending, Trimmed(s).pending, id);
      }
    }
  }

  lemma RoomyEnqueue(s: State, op: Op)
    requires |s.pending| < MAX_PENDING
    ensures Enqueued(s, op) == s.(pending := s.pending + [op], lost := s.lost - {op.sceneId})
  {
  }

  lemma FullEnqueue(s: State, op: Op)
    requires |s.pending| == MAX_PENDING
    ensures Enqueued(s, op) == Evicted(s).(pending := s.pending[1..] + [op], lost := Evicted(s).lost - {op.sceneId})
  {
    assert Trimmed(s) == Trimmed(Evicted(s)) == Evicted(s);
  }

  /** What an edit of one id may touch: everything else in the state, and every other id, stays. */
  ghost predicate OnlyThisId(one: map<Id, Card>, other: map<Id, Card>, id: Id) {
    forall x :: x != id ==> MirrorAt(one, x) == MirrorAt(other, x)
  }

  lemma {:induction false} ConsumeAt(engine: Scenes, op: Op, id: Id)
    ensures At(Consume(engine, op), id)
            == if id == op.sceneId && !Refuses(engine, op) then Effect(op) else At(engine, id)
    ensures |engine| <= ENGINE_CAPACITY ==> |Consume(engine, op)| <= ENGINE_CAPACITY
  {
    var after := Consume(engine, op);
    if op.isUpsert && !Refuses(engine, op) {
      assert after.Keys == engine.Keys + {op.sceneId};
    } else if !op.isUpsert {
      assert after.Keys == engine.Keys - {op.sceneId};
    }
  }

  lemma EvictedKeeps(s: State)
    requires s.pending != [] && AllValid(s.pending)
    ensures var t := Evicted(s);
            && AllValid(t.pending)
            && (forall id :: Names(t.pending, id) ==> Names(s.pending, id))
            && forall id :: id !in t.lost ==>
                 Outcome(t.pending, id, At(s.engine, id)) == Outcome(s.pending, id, At(s.engine, id))
  {
    var op, rest := s.pending[0], s.pending[1..];
    assert s.pending == [op] + rest;
    forall id ensures Names(rest, id) ==> Names(s.pending, id) {
      NamesOfFirst(op, rest, id);
    }
    forall id | id !in Evicted(s).lost
      ensures Outcome(rest, id, At(s.engine, id)) == Outcome(s.pending, id, At(s.engine, id))
    {
      OutcomeOfFirst(op, rest, id, At(s.engine, id));
      if op.sceneId == id {
        OutcomeWhenNamed(rest, id, Effect(op), At(s.engine, id));
      }
    }
  }

  /** Making room changes nothing but the queue, and loses only ids that are no longer named. */
  lemma {:induction false} TrimmedKeeps(s: State)
    requires AllValid(s.pending)
    ensures var t := Trimmed(s);
            && t == s.(pending := t.pending, dropped := t.dropped, lost := t.lost)
            && AllValid(t.pending) && |t.pending| < MAX_PENDING && s.lost <= t.lost
            && forall id :: id !in t.lost ==>
                 Outcome(t.pending, id, At(s.engine, id)) == Outcome(s.pending, id, At(s.engine, id))
    decreases |s.pending|
  {
    if |s.pending| >= MAX_PENDING {
      EvictedKeeps(s);
      TrimmedKeeps(Evicted(s));
    }
  }

  /** The state before the edit, as a rollback of the mirror and both files would leave it. */
  function RolledBack(s: State, before: map<Id, Card>, lost: set<Id>): State {
    s.(mirror := before, cardFile := before, lost := lost)
  }

  /** The mirror and the card file hold an edit of one id that `op` carries on. */
  ghost predicate Carries(s: State, before: map<Id, Card>, op: Op) {
    && Bounded(s) && s.cardFile == s.mirror
    && MirrorAt(s.mirror, op.sceneId) == Effect(op) && OnlyThisId(s.mirror, before, op.sceneId)
  }

  lemma QueuedKeeps(s: State, before: map<Id, Card>, op: Op, lost: set<Id>)
    requires Carries(s, before, op) && Invariant(RolledBack(s, before, lost)) && lost <= s.lost + {op.sceneId}
    requires AllValid(Enqueued(s, op).pending)
    ensures Invariant(QueueSaved(Enqueued(s, op)))
  {
    var t := Trimmed(s);
    var u := Enqueued(s, op);
    TrimmedKeeps(s);
    assert u.pending[..|u.pending| - 1] == t.pending;
    forall id | id !in u.lost
      ensures Outcome(u.pending, id, At(s.engine, id)) == MirrorAt(s.mirror, id)
    {
      if id != op.sceneId {
        assert Outcome(s.pending, id, At(s.engine, id)) == MirrorAt(before, id);
      }
    }
  }

  lemma PersistedKeeps(s: State, before: map<Id, Card>, op: Op, saves: Saves, applied: bool)
    requires Carries(s, before, op)
    requires Invariant(RolledBack(s, before, if applied then s.lost + {op.sceneId} else s.lost))
    ensures Invariant(Persisted(s, before, op, saves, applied))
  {
    var lost := if applied then s.lost + {op.sceneId} else s.lost;
    if saves.queue && AllValid(Enqueued(s, op).pending) {
      QueuedKeeps(s, before, op, lost);
    } else {
      var t := Persisted(s, before, op, saves, applied);
      var b := RolledBack(s, before, lost);
      assert t == b.(cardFile := t.cardFile);
    }
  }

  /** `engine` is the state's engine with the operation applied, or untouched. */
  ghost predicate Moved(s: State, engine: Scenes, op: Op, applied: bool) {
    && |engine| <= ENGINE_CAPACITY
    && forall id :: At(engine, id) == if id == op.sceneId && applied then Effect(op) else At(s.engine, id)
  }

  lemma ExchangedMoves(s: State, op: Op, send: Send)
    requires |s.engine| <= ENGINE_CAPACITY
    ensures Moved(s, Exchanged(s, op, send).engine, op, Delivers(send) && !Refuses(s.engine, op))
  {
    ConsumeAt(s.engine, op, op.sceneId);
    forall id
      ensures At(Exchanged(s, op, send).engine, id)
              == if id == op.sceneId && Delivers(send) && !Refuses(s.engine, op) then Effect(op) else At(s.engine, id)
    {
      ConsumeAt(s.engine, op, id);
    }
  }

  lemma ConfirmedAgrees(s: State, before: map<Id, Card>, op: Op, engine: Scenes, refused: bool)
    requires Carries(s, before, op) && Agrees(RolledBack(s, before, s.lost))
    requires Moved(s, engine, op, !refused)
    ensures Agrees(Confirmed(s.(engine := engine), refused, op))
  {
    OutcomeWhenNamed(s.pending, op.sceneId, At(engine, op.sceneId), None);
    forall id | id != op.sceneId && id !in s.lost
      ensures Outcome(s.pending, id, At(engine, id)) == MirrorAt(s.mirror, id)
    {
      assert At(engine, id) == At(s.engine, id) && MirrorAt(before, id) == MirrorAt(s.mirror, id);
    }
  }

  lemma ConfirmedFileAgrees(s: State, before: map<Id, Card>, op: Op, engine: Scenes, refused: bool)
    requires Carries(s, before, op) && FileAgrees(RolledBack(s, before, s.lost))
    requires Moved(s, engine, op, !refused)
    ensures FileAgrees(Confirmed(s.(engine := engine), refused, op))
  {
    OutcomeWhenNamed(s.queueFile, op.sceneId, At(engine, op.sceneId), None);
    forall id | id != op.sceneId && id !in s.lost + s.overtaken
      ensures Outcome(s.queueFile, id, At(engine, id)) == MirrorAt(s.mirror, id)
    {
      assert At(engine, id) == At(s.engine, id) && MirrorAt(before, id) == MirrorAt(s.mirror, id);
    }
  }

  lemma ConfirmedKeeps(s: State, before: map<Id, Card>, op: Op, engine: Scenes, connected: bool, refused: bool)
    requires Carries(s, before, op) && Invariant(RolledBack(s, before, s.lost))
    requires Moved(s, engine, op, !refused)
    ensures Invariant(Confirmed(s.(engine := engine, connected := connected), refused, op))
  {
    ConfirmedAgrees(s, before, op, engine, refused);
    ConfirmedFileAgrees(s, before, op, engine, refused);
  }

  lemma MovedRollback(s: State, before: map<Id, Card>, op: Op, engine: Scenes, connected: bool, applied: bool)
    requires Carries(s, before, op) && Invariant(RolledBack(s, before, s.lost))
    requires Moved(s, engine, op, applied)
    ensures var t := s.(engine := engine, connected := connected);
            && Carries(t, before, op)
            && Invariant(RolledBack(t, before, if applied then t.lost + {op.sceneId} else t.lost))
  {
    var lost := if applied then s.lost + {op.sceneId} else s.lost;
    forall id | id !in lost
      ensures Outcome(s.pending, id, At(engine, id)) == MirrorAt(before, id)
    {
      assert At(engine, id) == At(s.engine, id);
    }
    forall id | id !in lost + s.overtaken
      ensures Outcome(s.queueFile, id, At(engine, id)) == MirrorAt(before, id)
    {
      assert At(engine, id) == At(s.engine, id);
    }
  }

  lemma UnconfirmedKeeps(s: State, before: map<Id, Card>, op: Op, engine: Scenes, connected: bool, applied: bool,
                         saves: Saves)
    requires Carries(s, before, op) && Invariant(RolledBack(s, before, s.lost))
    requires Moved(s, engine, op, applied)
    ensures Invariant(Persisted(s.(engine := engine, connected := connected), before, op, saves, applied))
  {
    MovedRollback(s, before, op, engine, connected, applied);
    PersistedKeeps(s.(engine := engine, connected := connected), before, op, saves, applied);
  }

  /** An upsert that cannot be encoded stays in the mirror only. */
  lemma UnsentKeeps(s: State, before: map<Id, Card>, op: Op)
    requires Carries(s, before, op) && Invariant(RolledBack(s, before, s.lost))
    ensures Invariant(s.(lost := s.lost + {op.sceneId}))
  {
  }

  lemma ForwardedKeeps(s: State, before: map<Id, Card>, op: Op, saves: Saves, send: Send)
    requires Carries(s, before, op) && Invariant(RolledBack(s, before, s.lost))
    ensures Invariant(Forwarded(s, before, op, saves, send))
  {
    if !s.connected {
      PersistedKeeps(s, before, op, saves, false);
    } else if !Encodable(op) {
      UnsentKeeps(s, before, op);
    } else {
      var t := Exchanged(s, op, send);
      ExchangedMoves(s, op, send);
      if send.Acked? {
        ConfirmedKeeps(s, before, op, t.engine, t.connected, Refuses(s.engine, op));
      } else {
        UnconfirmedKeeps(s, before, op, t.engine, t.connected, Delivers(send) && !Refuses(s.engine, op), saves);
      }
    }
  }

  lemma EditCarries(s: State, mirror: map<Id, Card>, op: Op)
    requires Invariant(s) && CardsFit(mirror)
    requires MirrorAt(mirror, op.sceneId) == Effect(op) && OnlyThisId(mirror, s.mirror, op.sceneId)
    ensures Carries(Edited(s, mirror), s.mirror, op)
    ensures Invariant(RolledBack(Edited(s, mirror), s.mirror, s.lost))
  {
  }

  lemma PlacedFits(mirror: map<Id, Card>, card: Card)
    requires CardsFit(mirror) && CardIsValid(card) && (card.id in mirror || |mirror| < MAX_SCENES)
    ensures CardsFit(mirror[card.id := card])
  {
    var placed := mirror[card.id := card];
    assert placed.Keys == mirror.Keys + {card.id};
    forall id | id in placed ensures placed[id].id == id && CardIsValid(placed[id]) {
      assert placed[id] == if id == card.id then card else mirror[id];
    }
  }

  lemma PlacedDiffers(mirror: map<Id, Card>, card: Card, outputGroup: seq<Byte>)
    ensures OnlyThisId(mirror[card.id := card], mirror, card.id)
    ensures MirrorAt(mirror[card.id := card], card.id) == Effect(UpsertOp(card, outputGroup))
  {
  }

  lemma RemovedFits(mirror: map<Id, Card>, id: Id)
    requires CardsFit(mirror) && id in mirror
    ensures var left := mirror - {id};
            && CardsFit(left) && OnlyThisId(left, mirror, id) && MirrorAt(left, id) == Effect(RemoveOp(id))
  {
    assert (mirror - {id}).Keys == mirror.Keys - {id};
  }

  lemma AddKeeps(s: State, card: Card, outputGroup: seq<Byte>, saves: Saves, send: Send)
    requires Invariant(s)
    ensures Invariant(AfterAdd(s, card, outputGroup, saves, send))
  {
    if AddAccepted(s.mirror, card) && saves.cards {
      var op := UpsertOp(card, outputGroup);
      PlacedFits(s.mirror, card);
      PlacedDiffers(s.mirror, card, outputGroup);
      EditCarries(s, s.mirror[card.id := card], op);
      ForwardedKeeps(Edited(s, s.mirror[card.id := card]), s.mirror, op, saves, send);
    }
  }

  lemma RemoveKeeps(s: State, id: Id, saves: Saves, send: Send)
    requires Invariant(s)
    ensures Invariant(AfterRemove(s, id, saves, send))
  {
    if id in s.mirror && saves.cards {
      RemovedFits(s.mirror, id);
      EditCarries(s, s.mirror - {id}, RemoveOp(id));
      ForwardedKeeps(Edited(s, s.mirror - {id}), s.mirror, RemoveOp(id), saves, send);
    }
  }

  /** Leaving the queue unreached keeps the agreement off the lost ids. */
  lemma UnreachedKeeps(s: State, saved: bool)
    requires Invariant(s) && s.pending != []
    ensures Invariant(Dequeued(Unreached(s, s.pending[0], s.pending[1..]), saved))
  {
    EvictedKeeps(s);
  }

  /** An operation the engine took may leave the queue, and one that may have been taken may stay. */
  lemma TakenKeeps(s: State, send: Send, saved: bool)
    requires Invariant(s) && s.pending != [] && !Refuses(s.engine, s.pending[0])
    ensures Invariant(Exchanged(s, s.pending[0], send))
    ensures send.Acked? ==> Invariant(Dequeued(Exchanged(s, s.pending[0], send), saved))
  {
    var op, rest := s.pending[0], s.pending[1..];
    var t := Exchanged(s, op, send);
    assert s.pending == [op] + rest;
    ConsumeAt(s.engine, op, op.sceneId);
    NamesOfFirst(op, rest, op.sceneId);
    forall id
      ensures Outcome(s.pending, id, At(t.engine, id)) == Outcome(s.pending, id, At(s.engine, id))
      ensures Outcome(s.queueFile, id, At(t.engine, id)) == Outcome(s.queueFile, id, At(s.engine, id))
      ensures Delivers(send) ==> Outcome(rest, id, At(t.engine, id)) == Outcome(s.pending, id, At(s.engine, id))
      ensures Names(rest, id) ==> Names(s.pending, id)
    {
      ConsumeAt(s.engine, op, id);
      NamesOfFirst(op, rest, id);
      OutcomeOfFirst(op, rest, id, At(s.engine, id));
      OutcomeWhenNamed(s.pending, id, At(t.engine, id), At(s.engine, id));
      OutcomeWhenNamed(s.queueFile, id, At(t.engine, id), At(s.engine, id));
    }
  }

  lemma DequeuedEffect(s: State, saved: bool)
    requires s.pending != []
    ensures var t := Dequeued(s, saved);
            && t.mirror == s.mirror && t.cardFile == s.cardFile && t.engine == s.engine && t.lost == s.lost
            && t.connected == s.connected && t.pending == s.pending[1..]
            && (t.queueFile == s.queueFile || t.queueFile == t.pending) && t.overtaken <= s.overtaken
  {
  }

  /** What one turn of the flush changes beside the engine and the lost ids. */
  lemma HeadSentEffect(s: State, step: FlushStep)
    requires s.pending != []
    ensures var t := HeadSent(s, step);
            && t.mirror == s.mirror && t.cardFile == s.cardFile
            && t.pending == (if HeadLeaves(s, step) then s.pending[1..] else s.pending)
            && (t.queueFile == s.queueFile || t.queueFile == t.pending) && t.overtaken <= s.overtaken
  {
    var op, rest := s.pending[0], s.pending[1..];
    if !Encodable(op) {
      DequeuedEffect(Unreached(s, op, rest), step.saved);
    } else if step.send.Acked? {
      DequeuedEffect(Unreached(Exchanged(s, op, step.send), op, rest), step.saved);
      DequeuedEffect(Exchanged(s, op, step.send), step.saved);
    }
  }

  /** What it does to the engine and to the lost ids when the head can be encoded. */
  lemma HeadSentToEngine(s: State, step: FlushStep)
    requires s.pending != [] && Encodable(s.pending[0])
    ensures var op, rest := s.pending[0], s.pending[1..];
            var t := HeadSent(s, step);
            && t.engine == (if Delivers(step.send) then Consume(s.engine, op) else s.engine)
            && t.connected == (step.send.Acked? || step.send.Cancelled?)
            && t.lost == if step.send.Acked? && Refuses(s.engine, op) && !Names(rest, op.sceneId)
                         then s.lost + {op.sceneId} else s.lost
  {
    var op, rest := s.pending[0], s.pending[1..];
    if step.send.Acked? {
      DequeuedEffect(Unreached(Exchanged(s, op, step.send), op, rest), step.saved);
      DequeuedEffect(Exchanged(s, op, step.send), step.saved);
    }
  }

  lemma HeadSentKeeps(s: State, step: FlushStep)
    requires Invariant(s) && s.pending != []
    ensures Invariant(HeadSent(s, step))
  {
    var op := s.pending[0];
    if !Encodable(op) {
      UnreachedKeeps(s, step.saved);
    } else if Refuses(s.engine, op) {
      var t := Exchanged(s, op, step.send);
      assert t == s.(connected := t.connected);
      UnreachedKeeps(t, step.saved);
    } else {
      TakenKeeps(s, step.send, step.saved);
    }
  }

  lemma {:induction false} FlushedKeeps(s: State, steps: seq<FlushStep>)
    requires Invariant(s)
    ensures Invariant(Flushed(s, steps))
    decreases |s.pending|
  {
    if s.pending != [] {
      HeadSentKeeps(s, StepAt(steps));
      if HeadLeaves(s, StepAt(steps)) {
        FlushedKeeps(HeadSent(s, StepAt(steps)), if steps == [] then [] else steps[1..]);
      }
    }
  }

  lemma EngineRestartKeeps(s: State)
    requires Invariant(s)
    ensures Invariant(AfterEngineRestart(s))
    ensures AfterEngineRestart(s) == s.(engine := map[], connected := false, lost := AfterEngineRestart(s).lost)
    ensures forall id :: id !in s.lost ==>
              (Outcome(s.pending, id, None) == MirrorAt(s.mirror, id) <==> id !in s.mirror || Names(s.pending, id))
  {
    var t := AfterEngineRestart(s);
    forall id
      ensures !Names(s.pending, id) ==> Outcome(s.pending, id, None) == None
      ensures id !in t.lost ==> Outcome(s.pending, id, None) == MirrorAt(s.mirror, id)
      ensures id !in t.lost + s.overtaken ==> Outcome(s.queueFile, id, None) == MirrorAt(s.mirror, id)
    {
      OutcomeWhenNamed(s.pending, id, None, At(s.engine, id));
      OutcomeWhenNamed(s.queueFile, id, None, At(s.engine, id));
    }
  }

  lemma ConnectionKeeps(s: State, connected: bool)
    requires Invariant(s)
    ensures Invariant(s.(connected := connected))
  {
  }

  lemma RestartEffect(s: State)
    ensures var t := Next(s, Restart);
            && t.mirror == t.cardFile == s.cardFile && t.pending == t.queueFile == s.queueFile
            && !t.connected && t.engine == s.engine && t.lost == s.lost + Apart(s)
  {
  }

  lemma {:induction false} LastNamingIsNamed(ops: seq<Op>, id: Id)
    ensures LastNaming(ops, id).Some? ==> id in NamedIds(ops)
  {
    OutcomeIsLast(ops, id, None);
  }

  lemma NotApart(s: State, id: Id)
    ensures id !in Apart(s) <==> SavedAlike(s, id)
  {
    LastNamingIsNamed(s.queueFile, id);
  }

  /** Where the files are alike, replaying the queue file gives the saved card. */
  lemma AlikeFilesAgree(s: State, id: Id)
    requires Invariant(s) && id !in s.lost && SavedAlike(s, id)
    ensures Outcome(s.queueFile, id, At(s.engine, id)) == MirrorAt(s.cardFile, id)
  {
    OutcomeIsLast(s.queueFile, id, At(s.engine, id));
    OutcomeWhenNamed(s.pending, id, At(s.engine, id), None);
  }

  lemma RestartKeeps(s: State)
    requires Invariant(s)
    ensures Invariant(AfterRestart(s))
  {
    forall id | id !in s.lost + Apart(s)
      ensures Outcome(s.queueFile, id, At(s.engine, id)) == MirrorAt(s.cardFile, id)
    {
      NotApart(s, id);
      AlikeFilesAgree(s, id);
    }
  }

  lemma StepKeepsInvariant(s: State, event: Event)
    requires Invariant(s)
    ensures Invariant(Next(s, event))
  {
    match event
    case Add(card, outputGroup, saves, send) => AddKeeps(s, card, outputGroup, saves, send);
    case Remove(id, saves, send) => RemoveKeeps(s, id, saves, send);
    case Connect(reached, steps) =>
      ConnectionKeeps(s, reached);
      if reached {
        FlushedKeeps(s.(connected := true), steps);
      }
    case Disconnect => ConnectionKeeps(s, false);
    case Restart => RestartKeeps(s);
    case EngineRestart => EngineRestartKeeps(s);
  }

  lemma {:induction false} RunKeepsInvariant(s: State, events: seq<Event>)
    requires Invariant(s)
    ensures Invariant(Run(s, events))
    decreases |events|
  {
    if events != [] {
      StepKeepsInvariant(s, events[0]);
      RunKeepsInvariant(Next(s, events[0]), events[1..]);
    }
  }

  /**
   * In every run from the empty start, replaying the pending operations on the engine's catalog
   * gives the mirror at every id that is not lost; so does replaying the saved queue, except also
   * at overtaken ids; and with nothing pending the engine itself shows the mirror.
   */
  lemma EveryRunAgrees(events: seq<Event>, id: Id)
    ensures var s := Run(START, events);
            && (id !in s.lost ==> At(Replay(s.engine, s.pending), id) == MirrorAt(s.mirror, id))
            && (id !in s.lost + s.overtaken ==> At(Replay(s.engine, s.queueFile), id) == MirrorAt(s.mirror, id))
            && (id !in s.lost && s.pending == [] ==> At(s.engine, id) == MirrorAt(s.mirror, id))
  {
    var s := Run(START, events);
    RunKeepsInvariant(START, events);
    ReplayAt(s.engine, s.pending, id);
    ReplayAt(s.engine, s.queueFile, id);
  }
}
