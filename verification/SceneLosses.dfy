/**
 * What can be lost within the limits when the queue may overflow and either side may restart: ids that
 * were evicted, refused by a full engine, or on which a restart found nothing to put them right.
 */
module SceneLosses {
  import opened Bytes
  import opened Wrappers
  import opened SceneCatalog
  import opened SceneQueue
  import opened SceneSync
  import opened SceneRuns
  import opened SceneReplay

  // The limits: saves of a flush and roll-backs may fail, the queue may overflow, and either side may restart.

  predicate IsEdit(event: Event) { event.Add? || event.Remove? }

  function EditOp(event: Event): Op
    requires IsEdit(event)
  {
    match event
    case Add(card, outputGroup, _, _) => UpsertOp(card, outputGroup)
    case Remove(id, _, _) => RemoveOp(id)
  }

  /** The edit is accepted and its card file is written, so that it is carried on. */
  predicate Carried(s: State, event: Event) {
    match event
    case Add(card, _, saves, _) => AddAccepted(s.mirror, card) && saves.cards
    case Remove(id, saves, _) => id in s.mirror && saves.cards
    case _ => false
  }

  /** No cancelled send, and a queue write that succeeds when a reply was lost. */
  predicate SendIsLimited(s: State, saves: Saves, send: Send) {
    s.connected ==> !send.Cancelled? && (send.ReplyLost? ==> saves.queue)
  }

  predicate Limited(s: State, event: Event) {
    match event
    case Add(card, outputGroup, saves, send) =>
      |card.id| <= 26 && GroupIsValid(outputGroup) && SendIsLimited(s, saves, send)
    case Remove(id, saves, send) => SendIsLimited(s, saves, send)
    case Connect(reached, steps) => forall k :: 0 <= k < |steps| ==> !steps[k].send.Cancelled?
    case _ => true
  }

  predicate LimitedRun(s: State, events: seq<Event>)
    decreases |events|
  {
    events == [] || (Limited(s, events[0]) && LimitedRun(Next(s, events[0]), events[1..]))
  }

  // What one step can cost.

  /** The oldest operation makes room for the edit, and nothing queued names its id any more. */
  function EvictedFor(s: State, op: Op, saves: Saves): set<Id> {
    if !s.connected && saves.queue && |s.pending| >= MAX_PENDING
       && !Names(s.pending[1..], s.pending[0].sceneId) && s.pending[0].sceneId != op.sceneId
    then {s.pending[0].sceneId} else {}
  }

  function RefusedFor(s: State, op: Op, send: Send): set<Id> {
    if s.connected && send.Acked? && Refuses(s.engine, op) then {op.sceneId} else {}
  }

  /** The edit is on disk in the queue, or taken by the engine. */
  function SettledFor(s: State, op: Op, saves: Saves, send: Send): set<Id> {
    if (if s.connected && send.Acked? then !Refuses(s.engine, op) else saves.queue) then {op.sceneId} else {}
  }

  function EvictedBy(s: State, event: Event): set<Id> {
    if Carried(s, event) then EvictedFor(s, EditOp(event), event.saves) else {}
  }

  /** Refused as a direct send, or as the last queued operation on an id that has left the queue for the engine. */
  function RefusedBy(s: State, event: Event): set<Id> {
    if Carried(s, event) then RefusedFor(s, EditOp(event), event.send)
    else if event.Connect? && event.reached then
      set id | id in LostIds(s.engine, s.pending) && !Names(Next(s, event).pending, id)
    else {}
  }

  /** What the saved files of a restarted program disagree about, or what a restarted engine is not sent again. */
  function RestartedBy(s: State, event: Event): set<Id> {
    match event
    case Restart => Apart(s)
    case EngineRestart => Unqueued(s)
    case _ => {}
  }

  function SettledBy(s: State, event: Event): set<Id> {
    if Carried(s, event) then SettledFor(s, EditOp(event), event.saves, event.send) else {}
  }

  function Costs(s: State, event: Event): set<Id> {
    EvictedBy(s, event) + RefusedBy(s, event) + RestartedBy(s, event)
  }

  /** The ids held against a run after one more step. */
  function Afterwards(s: State, event: Event, held: set<Id>, costs: set<Id>): set<Id> {
    held - SettledBy(s, event) + costs
  }

  /** Ids evicted, refused or hit by a restart in a run, and not settled by a later edit. */
  function Forfeited(s: State, events: seq<Event>, held: set<Id>): set<Id>
    decreases |events|
  {
    if events == [] then held
    else
      var e := events[0];
      Forfeited(Next(s, e), events[1..], Afterwards(s, e, held, Costs(s, e)))
  }

  /** Ids evicted or hit by a restart in a run, and not settled by a later edit. */
  function EvictedOrRestarted(s: State, events: seq<Event>, held: set<Id>): set<Id>
    decreases |events|
  {
    if events == [] then held
    else
      var e := events[0];
      EvictedOrRestarted(Next(s, e), events[1..], Afterwards(s, e, held, EvictedBy(s, e) + RestartedBy(s, e)))
  }

  // What the limits keep.

  ghost predicate WithinLimits(s: State) {
    && Invariant(s) && AllEncodable(s.pending) && AllEncodable(s.queueFile)
    && (s.connected ==> s.pending == [])
  }

  /** What queueing one more operation costs. */
  lemma EnqueuedCost(s: State, op: Op, saves: Saves)
    requires QueueFits(s.pending) && AllEncodable(s.pending) && !s.connected && saves.queue
    requires OpIsValid(op) && Encodable(op)
    ensures var t := Enqueued(s, op);
            && AllEncodable(t.pending) && AllValid(t.pending) && t.connected == s.connected
            && t.lost <= s.lost - {op.sceneId} + EvictedFor(s, op, saves)
  {
    if |s.pending| < MAX_PENDING {
      RoomyEnqueue(s, op);
    } else {
      FullEnqueue(s, op);
    }
  }

  /** An edit that goes to the queue or is rolled back without having been applied. */
  lemma PersistedCost(s: State, before: map<Id, Card>, op: Op, saves: Saves)
    requires Invariant(Persisted(s, before, op, saves, false)) && QueueFits(s.pending)
    requires AllEncodable(s.pending) && AllEncodable(s.queueFile) && !s.connected
    requires OpIsValid(op) && Encodable(op)
    ensures var t := Persisted(s, before, op, saves, false);
            && WithinLimits(t)
            && t.lost <= s.lost - SettledFor(s, op, saves, NotDelivered) + EvictedFor(s, op, saves)
  {
    if saves.queue {
      EnqueuedCost(s, op, saves);
    }
  }

  lemma AppliedCost(s: State, before: map<Id, Card>, op: Op, saves: Saves, applied: bool)
    requires Invariant(Persisted(s, before, op, saves, applied)) && s.pending == [] && !s.connected
    requires OpIsValid(op) && Encodable(op) && saves.queue
    ensures var t := Persisted(s, before, op, saves, applied);
            WithinLimits(t) && t.lost == s.lost - {op.sceneId}
  {
    assert Enqueued(s, op).pending == [op];
  }

  lemma OnlineCost(s: State, before: map<Id, Card>, op: Op, saves: Saves, send: Send)
    requires Invariant(Forwarded(s, before, op, saves, send)) && s.connected && s.pending == []
    requires AllEncodable(s.queueFile)
    requires SendIsLimited(s, saves, send) && OpIsValid(op) && Encodable(op)
    ensures var t := Forwarded(s, before, op, saves, send);
            && WithinLimits(t)
            && t.lost <= s.lost - SettledFor(s, op, saves, send) + RefusedFor(s, op, send)
  {
    var t := Exchanged(s, op, send);
    if send.ReplyLost? {
      AppliedCost(t, before, op, saves, !Refuses(s.engine, op));
    } else if send.NotDelivered? {
      PersistedCost(t, before, op, saves);
    }
  }

  lemma EditCost(s: State, mirror: map<Id, Card>, op: Op, saves: Saves, send: Send)
    requires WithinLimits(s) && SendIsLimited(s, saves, send)
    requires OpIsValid(op) && Encodable(op) && Carries(Edited(s, mirror), s.mirror, op)
    ensures var t := Forwarded(Edited(s, mirror), s.mirror, op, saves, send);
            && WithinLimits(t)
            && t.lost <= s.lost - SettledFor(s, op, saves, send) + EvictedFor(s, op, saves) + RefusedFor(s, op, send)
  {
    var edited := Edited(s, mirror);
    EditCarries(s, mirror, op);
    ForwardedKeeps(edited, s.mirror, op, saves, send);
    if s.connected {
      OnlineCost(edited, s.mirror, op, saves, send);
    } else {
      PersistedCost(edited, s.mirror, op, saves);
    }
  }

  lemma AddCost(s: State, e: Event)
    requires WithinLimits(s) && e.Add? && Limited(s, e) && Carried(s, e)
    ensures WithinLimits(Next(s, e)) && Next(s, e).lost <= s.lost - SettledBy(s, e) + Costs(s, e)
  {
    var op := UpsertOp(e.card, e.outputGroup);
    CardsGiveValidOps(e.card, e.outputGroup);
    EncodableExactly(op);
    PlacedFits(s.mirror, e.card);
    PlacedDiffers(s.mirror, e.card, e.outputGroup);
    EditCarries(s, s.mirror[e.card.id := e.card], op);
    EditCost(s, s.mirror[e.card.id := e.card], op, e.saves, e.send);
  }

  lemma RemoveCost(s: State, e: Event)
    requires WithinLimits(s) && e.Remove? && Limited(s, e) && Carried(s, e)
    ensures WithinLimits(Next(s, e)) && Next(s, e).lost <= s.lost - SettledBy(s, e) + Costs(s, e)
  {
    var op := RemoveOp(e.id);
    CardsGiveValidOps(s.mirror[e.id], []);
    EncodableExactly(op);
    RemovedFits(s.mirror, e.id);
    EditCarries(s, s.mirror - {e.id}, op);
    EditCost(s, s.mirror - {e.id}, op, e.saves, e.send);
  }

  /** A replay loses only ids whose last queued operation has left the queue and was refused. */
  lemma {:induction false} FlushCost(s: State, steps: seq<FlushStep>)
    requires AllEncodable(s.pending) && AllEncodable(s.queueFile) && s.connected
    requires forall k :: 0 <= k < |steps| ==> !steps[k].send.Cancelled?
    ensures var t := Flushed(s, steps);
            && AllEncodable(t.pending) && AllEncodable(t.queueFile) && (t.connected ==> t.pending == [])
            && (forall id :: Names(t.pending, id) ==> Names(s.pending, id))
            && forall id :: id in t.lost ==>
                 id in s.lost || (id in LostIds(s.engine, s.pending) && !Names(t.pending, id))
    decreases |s.pending|
  {
    if s.pending != [] {
      var step := StepAt(steps);
      HeadSentEffect(s, step);
      HeadSentToEngine(s, step);
      if HeadLeaves(s, step) {
        var op, rest := s.pending[0], s.pending[1..];
        assert s.pending == [op] + rest;
        forall id ensures Names(s.pending, id) <==> op.sceneId == id || Names(rest, id) {
          NamesOfFirst(op, rest, id);
        }
        FlushCost(HeadSent(s, step), if steps == [] then [] else steps[1..]);
      }
    }
  }

  lemma ConnectCost(s: State, e: Event)
    requires WithinLimits(s) && e.Connect? && Limited(s, e)
    ensures WithinLimits(Next(s, e)) && Next(s, e).lost <= s.lost + RefusedBy(s, e)
  {
    StepKeepsInvariant(s, e);
    if e.reached {
      FlushCost(s.(connected := true), e.steps);
    }
  }

  lemma RestartCost(s: State)
    requires WithinLimits(s)
    ensures WithinLimits(Next(s, Restart)) && Next(s, Restart).lost == s.lost + RestartedBy(s, Restart)
  {
    StepKeepsInvariant(s, Restart);
    RestartEffect(s);
  }

  lemma EngineRestartCost(s: State)
    requires WithinLimits(s)
    ensures WithinLimits(Next(s, EngineRestart))
    ensures Next(s, EngineRestart).lost == s.lost + RestartedBy(s, EngineRestart)
  {
    StepKeepsInvariant(s, EngineRestart);
  }

  /** Every step within the limits: what it loses was evicted unnamed, refused at capacity, or hit by a restart. */
  lemma StepCost(s: State, e: Event)
    requires WithinLimits(s) && Limited(s, e)
    ensures WithinLimits(Next(s, e)) && Next(s, e).lost <= s.lost - SettledBy(s, e) + Costs(s, e)
  {
    if e.Connect? {
      ConnectCost(s, e);
    } else if e.Restart? {
      RestartCost(s);
    } else if e.EngineRestart? {
      EngineRestartCost(s);
    } else if e.Disconnect? {
      StepKeepsInvariant(s, e);
    } else if Carried(s, e) {
      if e.Add? {
        AddCost(s, e);
      } else {
        RemoveCost(s, e);
      }
    } else {
      assert Next(s, e) == s;
    }
  }

  lemma {:induction false} RunCost(s: State, events: seq<Event>, held: set<Id>)
    requires WithinLimits(s) && LimitedRun(s, events) && s.lost <= held
    ensures WithinLimits(Run(s, events)) && Run(s, events).lost <= Forfeited(s, events, held)
    decreases |events|
  {
    if events != [] {
      var e := events[0];
      StepCost(s, e);
      RunCost(Next(s, e), events[1..], Afterwards(s, e, held, Costs(s, e)));
    }
  }

  lemma StartIsWithinLimits()
    ensures WithinLimits(START)
  {
  }

  /** Both replays and a connected engine give the mirror at this id, a replay of an overtaken id in the file aside. */
  ghost predicate AgreesEverywhere(s: State, id: Id) {
    && At(Replay(s.engine, s.pending), id) == MirrorAt(s.mirror, id)
    && (id !in s.overtaken ==> At(Replay(s.engine, s.queueFile), id) == MirrorAt(s.mirror, id))
    && (s.connected ==> At(s.engine, id) == MirrorAt(s.mirror, id))
  }

  /**
   * In every run within the limits, however often the queue overflows and either side restarts: an id
   * is in agreement unless it was evicted unnamed, refused at capacity, or hit by a restart (the files
   * were not alike on it, or nothing queued named it for the engine), and no later edit settled it.
   */
  lemma OnlyForfeitedIdsAreLost(events: seq<Event>, id: Id)
    requires LimitedRun(START, events) && id !in Forfeited(START, events, {})
    ensures AgreesEverywhere(Run(START, events), id)
  {
    StartIsWithinLimits();
    RunCost(START, events, {});
    EveryRunAgrees(events, id);
  }

  // With room in the engine for every scene of the run, nothing is refused.

  function AddedIds(events: seq<Event>): set<Id> {
    set k | 0 <= k < |events| && events[k].Add? :: events[k].card.id
  }

  predicate UpsertsWithin(ops: seq<Op>, ids: set<Id>) {
    forall k :: 0 <= k < |ops| && ops[k].isUpsert ==> ops[k].sceneId in ids
  }

  /** Every scene the engine has or may still be sent is one of these. */
  predicate Known(s: State, ids: set<Id>) {
    s.engine.Keys <= ids && UpsertsWithin(s.pending, ids) && UpsertsWithin(s.queueFile, ids)
  }

  lemma ConsumeStaysKnown(engine: Scenes, op: Op, ids: set<Id>)
    requires engine.Keys <= ids && (op.isUpsert ==> op.sceneId in ids)
    ensures Consume(engine, op).Keys <= ids
  {
  }

  lemma PersistedStaysKnown(s: State, before: map<Id, Card>, op: Op, saves: Saves, applied: bool, ids: set<Id>)
    requires Known(s, ids) && (op.isUpsert ==> op.sceneId in ids)
    ensures Known(Persisted(s, before, op, saves, applied), ids)
  {
    TrimmedKeepsTheRest(s);
    TrimmedLosesExactly(s);
  }

  lemma {:induction false} TrimmedKeepsTheRest(s: State)
    ensures Trimmed(s).engine == s.engine && Trimmed(s).queueFile == s.queueFile
    decreases |s.pending|
  {
    if |s.pending| >= MAX_PENDING {
      TrimmedKeepsTheRest(Evicted(s));
    }
  }

  lemma ForwardedStaysKnown(s: State, before: map<Id, Card>, op: Op, saves: Saves, send: Send, ids: set<Id>)
    requires Known(s, ids) && (op.isUpsert ==> op.sceneId in ids)
    ensures Known(Forwarded(s, before, op, saves, send), ids)
  {
    ConsumeStaysKnown(s.engine, op, ids);
    if !s.connected {
      PersistedStaysKnown(s, before, op, saves, false, ids);
    } else if Encodable(op) && !send.Acked? {
      PersistedStaysKnown(Exchanged(s, op, send), before, op, saves, Delivers(send) && !Refuses(s.engine, op), ids);
    }
  }

  lemma {:induction false} FlushStaysKnown(s: State, steps: seq<FlushStep>, ids: set<Id>)
    requires AllEncodable(s.pending) && Known(s, ids)
    ensures Known(Flushed(s, steps), ids)
    decreases |s.pending|
  {
    if s.pending != [] {
      var step := StepAt(steps);
      HeadSentEffect(s, step);
      HeadSentToEngine(s, step);
      ConsumeStaysKnown(s.engine, s.pending[0], ids);
      if HeadLeaves(s, step) {
        FlushStaysKnown(HeadSent(s, step), if steps == [] then [] else steps[1..], ids);
      }
    }
  }

  lemma StepStaysKnown(s: State, e: Event, ids: set<Id>)
    requires WithinLimits(s) && Limited(s, e) && Known(s, ids) && (e.Add? ==> e.card.id in ids)
    ensures Known(Next(s, e), ids)
  {
    match e
    case Add(card, outputGroup, saves, send) =>
      var edited := Edited(s, s.mirror[card.id := card]);
      ForwardedStaysKnown(edited, s.mirror, UpsertOp(card, outputGroup), saves, send, ids);
    case Remove(id, saves, send) =>
      ForwardedStaysKnown(Edited(s, s.mirror - {id}), s.mirror, RemoveOp(id), saves, send, ids);
    case Connect(reached, steps) =>
      if reached {
        FlushStaysKnown(s.(connected := true), steps, ids);
      }
    case Disconnect =>
    case Restart =>
    case EngineRestart =>
  }

  lemma RoomRefusesNothing(s: State, e: Event, ids: set<Id>)
    requires Known(s, ids) && |ids| <= ENGINE_CAPACITY && (e.Add? ==> e.card.id in ids)
    ensures RefusedBy(s, e) == {}
  {
    if Carried(s, e) {
      var op := EditOp(e);
      if op.isUpsert && op.sceneId !in s.engine {
        SubsetSize(s.engine.Keys + {op.sceneId}, ids);
      }
    } else {
      SubsetSize(s.engine.Keys + UpsertIds(s.pending), ids);
      RoomForAllLosesNothing(s.engine, s.pending);
    }
  }

  lemma AddedFirst(events: seq<Event>)
    requires events != []
    ensures AddedIds(events[1..]) <= AddedIds(events)
    ensures events[0].Add? ==> events[0].card.id in AddedIds(events)
  {
    forall id | id in AddedIds(events[1..]) ensures id in AddedIds(events) {
      var k :| 0 <= k < |events[1..]| && events[1..][k].Add? && events[1..][k].card.id == id;
      assert events[k + 1].card.id == id;
    }
  }

  /** A run within the limits whose scenes all have room in the engine. */
  ghost predicate Roomy(s: State, events: seq<Event>, ids: set<Id>) {
    && WithinLimits(s) && LimitedRun(s, events) && Known(s, ids)
    && AddedIds(events) <= ids && |ids| <= ENGINE_CAPACITY
  }

  /** With room, a step keeps everything known and refuses nothing. */
  lemma RoomyStep(s: State, events: seq<Event>, ids: set<Id>)
    requires Roomy(s, events, ids) && events != []
    ensures Roomy(Next(s, events[0]), events[1..], ids) && RefusedBy(s, events[0]) == {}
  {
    AddedFirst(events);
    StepCost(s, events[0]);
    StepStaysKnown(s, events[0], ids);
    RoomRefusesNothing(s, events[0], ids);
  }

  lemma RefusingNothingCosts(s: State, e: Event)
    requires RefusedBy(s, e) == {}
    ensures Costs(s, e) == EvictedBy(s, e) + RestartedBy(s, e)
  {
  }

  lemma {:induction false} RoomyRunCost(s: State, events: seq<Event>, ids: set<Id>, held: set<Id>)
    requires Roomy(s, events, ids)
    ensures Forfeited(s, events, held) == EvictedOrRestarted(s, events, held)
    decreases |events|
  {
    if events != [] {
      RoomyStep(s, events, ids);
      RefusingNothingCosts(s, events[0]);
      RoomyRunCost(Next(s, events[0]), events[1..], ids, Afterwards(s, events[0], held, Costs(s, events[0])));
    }
  }

  lemma StartIsRoomy(events: seq<Event>)
    requires LimitedRun(START, events) && |AddedIds(events)| <= ENGINE_CAPACITY
    ensures Roomy(START, events, AddedIds(events))
  {
    StartIsWithinLimits();
  }

  /** In such a run that adds at most 32 different scenes, nothing is forfeited by a refusal. */
  lemma OnlyEvictedOrRestartedIdsAreLost(events: seq<Event>, id: Id)
    requires LimitedRun(START, events) && |AddedIds(events)| <= ENGINE_CAPACITY
    requires id !in EvictedOrRestarted(START, events, {})
    ensures AgreesEverywhere(Run(START, events), id)
  {
    StartIsRoomy(events);
    RoomyRunCost(START, events, AddedIds(events), {});
    OnlyForfeitedIdsAreLost(events, id);
  }
}
