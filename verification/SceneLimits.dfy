/**
 * Runs from the start outside the limits, one per limit: each ends connected, with nothing pending,
 * out of step. When exactly a single step does so is stated in SceneExactness.
 */
module SceneLimits {
  import opened Bytes
  import opened Utf8
  import opened Wrappers
  import opened SceneCatalog
  import opened SceneQueue
  import opened SceneSync
  import opened SceneRuns
  import opened SceneReplay

  const SAVED: Saves := Saves(true, true, true)

  ghost predicate Sendable(card: Card, outputGroup: seq<Byte>) {
    CardIsValid(card) && |card.id| <= 26 && GroupIsValid(outputGroup)
  }

  /** Connected, idle, and showing something else than the mirror at this id. */
  ghost predicate OutOfStep(s: State, id: Id) {
    s.connected && s.pending == [] && At(s.engine, id) != MirrorAt(s.mirror, id)
  }

  lemma RunOne(s: State, event: Event, rest: seq<Event>)
    ensures Run(s, [event] + rest) == Run(Next(s, event), rest)
  {
    assert ([event] + rest)[1..] == rest;
  }

  lemma RunTwo(s: State, a: Event, b: Event)
    ensures Run(s, [a, b]) == Next(Next(s, a), b)
  {
    RunOne(s, a, [b]);
    RunOne(Next(s, a), b, []);
    assert [a] + [b] == [a, b] && [b] + [] == [b];
  }

  lemma RunThree(s: State, a: Event, b: Event, c: Event)
    ensures Run(s, [a, b, c]) == Next(Next(Next(s, a), b), c)
  {
    RunOne(s, a, [b, c]);
    RunTwo(Next(s, a), b, c);
    assert [a] + [b, c] == [a, b, c];
  }

  /** An accepted edit made offline waits in the queue and in its file. */
  lemma OfflineAdd(s: State, card: Card, outputGroup: seq<Byte>, send: Send)
    requires !s.connected && s.pending == [] && AddAccepted(s.mirror, card) && GroupIsValid(outputGroup)
    ensures var op := UpsertOp(card, outputGroup);
            var t := Next(s, Add(card, outputGroup, SAVED, send));
            && t.pending == [op] && t.queueFile == [op] && !t.connected && t.engine == s.engine
            && t.mirror == t.cardFile == s.mirror[card.id := card]
  {
    CardsGiveValidOps(card, outputGroup);
  }

  /** An accepted edit made online and acknowledged reaches the engine and leaves the queue as it was. */
  lemma OnlineAdd(s: State, card: Card, outputGroup: seq<Byte>)
    requires s.connected && AddAccepted(s.mirror, card) && Sendable(card, outputGroup)
    requires !Refuses(s.engine, UpsertOp(card, outputGroup))
    ensures var t := Next(s, Add(card, outputGroup, SAVED, Acked));
            && t.pending == s.pending && t.queueFile == s.queueFile && t.connected
            && t.engine == s.engine[card.id := ShownOf(card)]
            && t.mirror == t.cardFile == s.mirror[card.id := card]
  {
    CardsGiveValidOps(card, outputGroup);
    EncodableExactly(UpsertOp(card, outputGroup));
  }

  /** Connecting sends the one pending upsert; its save may fail. */
  lemma FlushOne(s: State, card: Card, outputGroup: seq<Byte>, saved: bool)
    requires s.pending == [UpsertOp(card, outputGroup)] && Sendable(card, outputGroup)
    requires !Refuses(s.engine, UpsertOp(card, outputGroup))
    ensures var t := Next(s, Connect(true, [FlushStep(Acked, saved)]));
            && t.pending == [] && t.connected && t.mirror == s.mirror && t.cardFile == s.cardFile
            && t.queueFile == (if saved then [] else s.queueFile)
            && t.engine == s.engine[card.id := ShownOf(card)]
  {
    CardsGiveValidOps(card, outputGroup);
    EncodableExactly(UpsertOp(card, outputGroup));
    var c := s.(connected := true);
    assert c.pending[1..] == [] && AllValid([]);
    assert Flushed(c, [FlushStep(Acked, saved)]) == HeadSent(c, FlushStep(Acked, saved));
  }

  lemma ConnectIdle(s: State)
    requires s.pending == []
    ensures Next(s, Connect(true, [])) == s.(connected := true)
  {
  }

  /** A save that fails during the flush lets a restart undo a later edit that the engine had confirmed. */
  lemma StaleFileRevertsALaterEdit(first: Card, second: Card, outputGroup: seq<Byte>)
    requires Sendable(first, outputGroup) && Sendable(second, outputGroup)
    requires first.id == second.id && ShownOf(first) != ShownOf(second)
    ensures var queued := Run(START, [Add(first, outputGroup, SAVED, NotDelivered),
                                      Connect(true, [FlushStep(Acked, false)])]);
            OutOfStep(Run(queued, [Add(second, outputGroup, SAVED, Acked), Restart,
                                   Connect(true, [FlushStep(Acked, true)])]), first.id)
  {
    RunTwo(START, Add(first, outputGroup, SAVED, NotDelivered), Connect(true, [FlushStep(Acked, false)]));
    OfflineAdd(START, first, outputGroup, NotDelivered);
    var s1 := Next(START, Add(first, outputGroup, SAVED, NotDelivered));
    FlushOne(s1, first, outputGroup, false);
    var s2 := Next(s1, Connect(true, [FlushStep(Acked, false)]));
    RunThree(s2, Add(second, outputGroup, SAVED, Acked), Restart, Connect(true, [FlushStep(Acked, true)]));
    OnlineAdd(s2, second, outputGroup);
    var s4 := Next(Next(s2, Add(second, outputGroup, SAVED, Acked)), Restart);
    FlushOne(s4, first, outputGroup, true);
  }

  lemma CancelledAdd(s: State, card: Card, outputGroup: seq<Byte>)
    requires s.connected && s.pending == [] && AddAccepted(s.mirror, card) && Sendable(card, outputGroup)
    ensures var t := Next(s, Add(card, outputGroup, SAVED, Cancelled(false)));
            && t.pending == [UpsertOp(card, outputGroup)] && t.connected && t.engine == s.engine
            && t.mirror == s.mirror[card.id := card]
  {
    CardsGiveValidOps(card, outputGroup);
    EncodableExactly(UpsertOp(card, outputGroup));
  }

  /** A cancelled send leaves the connection open, so a later edit overtakes the queued one. */
  lemma CancelledSendIsOvertaken(first: Card, second: Card, outputGroup: seq<Byte>)
    requires Sendable(first, outputGroup) && Sendable(second, outputGroup)
    requires first.id == second.id && ShownOf(first) != ShownOf(second)
    ensures var online := Run(START, [Connect(true, []), Add(first, outputGroup, SAVED, Cancelled(false))]);
            OutOfStep(Run(online, [Add(second, outputGroup, SAVED, Acked),
                                   Connect(true, [FlushStep(Acked, true)])]), first.id)
  {
    RunTwo(START, Connect(true, []), Add(first, outputGroup, SAVED, Cancelled(false)));
    ConnectIdle(START);
    var s1 := Next(START, Connect(true, []));
    CancelledAdd(s1, first, outputGroup);
    var s2 := Next(s1, Add(first, outputGroup, SAVED, Cancelled(false)));
    RunTwo(s2, Add(second, outputGroup, SAVED, Acked), Connect(true, [FlushStep(Acked, true)]));
    OnlineAdd(s2, second, outputGroup);
    FlushOne(Next(s2, Add(second, outputGroup, SAVED, Acked)), first, outputGroup, true);
  }

  /** Nothing brings a scene back after the engine restarts, until it is edited again. */
  lemma EngineRestartForgets(card: Card, outputGroup: seq<Byte>)
    requires Sendable(card, outputGroup)
    ensures var online := Run(START, [Connect(true, []), Add(card, outputGroup, SAVED, Acked)]);
            OutOfStep(Run(online, [EngineRestart, Connect(true, [])]), card.id)
  {
    RunTwo(START, Connect(true, []), Add(card, outputGroup, SAVED, Acked));
    ConnectIdle(START);
    var s1 := Next(START, Connect(true, []));
    OnlineAdd(s1, card, outputGroup);
    var s2 := Next(s1, Add(card, outputGroup, SAVED, Acked));
    RunTwo(s2, EngineRestart, Connect(true, []));
    ConnectIdle(Next(s2, EngineRestart));
  }

  /** An id of 27 to 31 bytes is accepted, saved, queued, and then dropped without reaching the engine. */
  lemma LongIdNeverArrives(card: Card, outputGroup: seq<Byte>)
    requires CardIsValid(card) && |card.id| > 26 && GroupIsValid(outputGroup)
    ensures OutOfStep(Run(START, [Add(card, outputGroup, SAVED, NotDelivered),
                                  Connect(true, [FlushStep(Acked, true)])]), card.id)
  {
    var op := UpsertOp(card, outputGroup);
    RunTwo(START, Add(card, outputGroup, SAVED, NotDelivered), Connect(true, [FlushStep(Acked, true)]));
    OfflineAdd(START, card, outputGroup, NotDelivered);
    CardsGiveValidOps(card, outputGroup);
    EncodableExactly(op);
    var c := Next(START, Add(card, outputGroup, SAVED, NotDelivered)).(connected := true);
    assert c.pending[1..] == [];
    assert Flushed(c, [FlushStep(Acked, true)]) == HeadSent(c, FlushStep(Acked, true));
  }

  /** A queue write that fails after the engine applied the edit leaves the engine ahead of the mirror. */
  lemma FailedQueueWriteLeavesTheEngineAhead(card: Card, outputGroup: seq<Byte>)
    requires Sendable(card, outputGroup)
    ensures var failed := Run(START, [Connect(true, []), Add(card, outputGroup, Saves(true, false, true), ReplyLost)]);
            OutOfStep(Next(failed, Connect(true, [])), card.id)
  {
    var add := Add(card, outputGroup, Saves(true, false, true), ReplyLost);
    RunTwo(START, Connect(true, []), add);
    ConnectIdle(START);
    CardsGiveValidOps(card, outputGroup);
    EncodableExactly(UpsertOp(card, outputGroup));
    ConnectIdle(Next(Next(START, Connect(true, [])), add));
  }

  lemma FullQueueAdd(s: State, card: Card, outputGroup: seq<Byte>)
    requires !s.connected && |s.pending| == MAX_PENDING && AllValid(s.pending)
    requires AddAccepted(s.mirror, card) && GroupIsValid(outputGroup)
    ensures var t := Next(s, Add(card, outputGroup, SAVED, NotDelivered));
            && t.pending == s.pending[1..] + [UpsertOp(card, outputGroup)]
            && t.engine == s.engine && t.mirror == s.mirror[card.id := card]
  {
    var edited := Edited(s, s.mirror[card.id := card]);
    var op := UpsertOp(card, outputGroup);
    CardsGiveValidOps(card, outputGroup);
    FullEnqueue(edited, op);
    TrimmedKeeps(edited);
    assert AllValid(Enqueued(edited, op).pending);
  }

  lemma LastNames(ops: seq<Op>, op: Op, id: Id)
    requires !Names(ops, id) && op.sceneId != id
    ensures !Names(ops + [op], id)
  {
  }

  /** In a full queue one more edit drops the oldest; a scene only it named never reaches the engine. */
  lemma EvictedSceneNeverArrives(s: State, card: Card, outputGroup: seq<Byte>, oldest: Id, steps: seq<FlushStep>)
    requires !s.connected && |s.pending| == MAX_PENDING && AllValid(s.pending) && AllEncodable(s.pending)
    requires AddAccepted(s.mirror, card) && Sendable(card, outputGroup)
    requires oldest in s.mirror && oldest !in s.engine && oldest != card.id && !Names(s.pending[1..], oldest)
    requires |steps| >= MAX_PENDING && AllAcked(steps)
    ensures OutOfStep(Next(Next(s, Add(card, outputGroup, SAVED, NotDelivered)), Connect(true, steps)), oldest)
  {
    var op := UpsertOp(card, outputGroup);
    FullQueueAdd(s, card, outputGroup);
    CardsGiveValidOps(card, outputGroup);
    EncodableExactly(op);
    var t := Next(s, Add(card, outputGroup, SAVED, NotDelivered));
    ConnectDrains(t, steps);
    LastNames(s.pending[1..], op, oldest);
    DrainAt(s.engine, t.pending, oldest, None);
  }

  lemma {:induction false} FullEngineRefuses(engine: Scenes, ops: seq<Op>, last: Op)
    requires |engine| >= ENGINE_CAPACITY && last.isUpsert && last.sceneId !in engine
    requires forall k :: 0 <= k < |ops| ==> ops[k].isUpsert && ops[k].sceneId in engine
    ensures last.sceneId !in Drain(engine, ops + [last])
    decreases |ops|
  {
    if ops == [] {
      assert ops + [last] == [last] && [last][1..] == [];
    } else {
      assert (ops + [last])[1..] == ops[1..] + [last];
      assert Consume(engine, ops[0]).Keys == engine.Keys;
      FullEngineRefuses(Consume(engine, ops[0]), ops[1..], last);
    }
  }

  /** Dropping a queued removal leaves the engine full, and then a scene that was never dropped is refused. */
  lemma EvictedRemovalCostsAnotherScene(s: State, card: Card, outputGroup: seq<Byte>, steps: seq<FlushStep>)
    requires !s.connected && |s.pending| == MAX_PENDING && AllValid(s.pending) && AllEncodable(s.pending)
    requires !s.pending[0].isUpsert && |s.engine| == ENGINE_CAPACITY
    requires forall k :: 1 <= k < |s.pending| ==> s.pending[k].isUpsert && s.pending[k].sceneId in s.engine
    requires AddAccepted(s.mirror, card) && Sendable(card, outputGroup) && card.id !in s.engine
    requires |steps| >= MAX_PENDING && AllAcked(steps)
    ensures OutOfStep(Next(Next(s, Add(card, outputGroup, SAVED, NotDelivered)), Connect(true, steps)), card.id)
  {
    var op := UpsertOp(card, outputGroup);
    FullQueueAdd(s, card, outputGroup);
    CardsGiveValidOps(card, outputGroup);
    EncodableExactly(op);
    ConnectDrains(Next(s, Add(card, outputGroup, SAVED, NotDelivered)), steps);
    FullEngineRefuses(s.engine, s.pending[1..], op);
  }

  // Runs that reach these two states.

  lemma {:induction false} RunBoth(s: State, first: seq<Event>, second: seq<Event>)
    ensures Run(s, first + second) == Run(Run(s, first), second)
    decreases |first|
  {
    if first == [] {
      assert first + second == second;
    } else {
      assert (first + second)[1..] == first[1..] + second;
      RunBoth(Next(s, first[0]), first[1..], second);
    }
  }

  lemma RunOneMore(s: State, events: seq<Event>, event: Event)
    ensures Run(s, events + [event]) == Next(Run(s, events), event)
  {
    RunBoth(s, events, [event]);
    RunOne(Run(s, events), event, []);
    assert [event] + [] == [event];
  }

  function Repeated<T>(item: T, count: nat): (items: seq<T>)
    ensures |items| == count && forall k :: 0 <= k < count ==> items[k] == item
  {
    if count == 0 then [] else Repeated(item, count - 1) + [item]
  }

  /** An accepted offline edit in a queue with room. */
  function OfflineEdit(card: Card, outputGroup: seq<Byte>): Event { Add(card, outputGroup, SAVED, NotDelivered) }

  lemma OneMoreEdit(s: State, card: Card, outputGroup: seq<Byte>)
    requires !s.connected && |s.pending| < MAX_PENDING && AllValid(s.pending)
    requires AddAccepted(s.mirror, card) && GroupIsValid(outputGroup)
    ensures var t := Next(s, OfflineEdit(card, outputGroup));
            && t.pending == s.pending + [UpsertOp(card, outputGroup)] && AllValid(t.pending)
            && !t.connected && t.engine == s.engine && t.mirror == s.mirror[card.id := card]
  {
    CardsGiveValidOps(card, outputGroup);
    RoomyEnqueue(Edited(s, s.mirror[card.id := card]), UpsertOp(card, outputGroup));
  }

  /** `t` is `s` after so many offline edits of one scene, all still queued. */
  ghost predicate EditedOften(s: State, t: State, card: Card, outputGroup: seq<Byte>, count: nat) {
    && t.pending == s.pending + Repeated(UpsertOp(card, outputGroup), count) && AllValid(t.pending)
    && !t.connected && t.engine == s.engine
    && t.mirror == if count == 0 then s.mirror else s.mirror[card.id := card]
  }

  lemma EditedOnceMore(s: State, t: State, card: Card, outputGroup: seq<Byte>, count: nat)
    requires EditedOften(s, t, card, outputGroup, count) && |s.pending| + count < MAX_PENDING
    requires AddAccepted(s.mirror, card) && GroupIsValid(outputGroup)
    ensures EditedOften(s, Next(t, OfflineEdit(card, outputGroup)), card, outputGroup, count + 1)
  {
    var op := UpsertOp(card, outputGroup);
    OneMoreEdit(t, card, outputGroup);
    assert t.mirror[card.id := card] == s.mirror[card.id := card];
    assert s.pending + Repeated(op, count) + [op] == s.pending + Repeated(op, count + 1);
  }

  lemma {:induction false} ManyEdits(s: State, card: Card, outputGroup: seq<Byte>, count: nat)
    requires !s.connected && |s.pending| + count <= MAX_PENDING && AllValid(s.pending)
    requires AddAccepted(s.mirror, card) && GroupIsValid(outputGroup)
    ensures EditedOften(s, Run(s, Repeated(OfflineEdit(card, outputGroup), count)), card, outputGroup, count)
  {
    if count == 0 {
      assert s.pending + [] == s.pending;
    } else {
      var edits := Repeated(OfflineEdit(card, outputGroup), count - 1);
      ManyEdits(s, card, outputGroup, count - 1);
      RunOneMore(s, edits, OfflineEdit(card, outputGroup));
      EditedOnceMore(s, Run(s, edits), card, outputGroup, count - 1);
    }
  }

  /** One offline edit of a scene and 64 of another, then a replay that is acknowledged throughout. */
  function Overflow(first: Card, second: Card, outputGroup: seq<Byte>, steps: seq<FlushStep>): seq<Event> {
    [OfflineEdit(first, outputGroup)] + Repeated(OfflineEdit(second, outputGroup), MAX_PENDING - 1)
    + [OfflineEdit(second, outputGroup), Connect(true, steps)]
  }

  lemma FilledQueue(first: Card, second: Card, outputGroup: seq<Byte>)
    requires Sendable(first, outputGroup) && Sendable(second, outputGroup) && first.id != second.id
    ensures var s := Run(START, [OfflineEdit(first, outputGroup)]
                                + Repeated(OfflineEdit(second, outputGroup), MAX_PENDING - 1));
            && !s.connected && s.engine == map[] && s.mirror == map[first.id := first, second.id := second]
            && s.pending == [UpsertOp(first, outputGroup)] + Repeated(UpsertOp(second, outputGroup), MAX_PENDING - 1)
            && AllValid(s.pending)
  {
    RunOne(START, OfflineEdit(first, outputGroup), Repeated(OfflineEdit(second, outputGroup), MAX_PENDING - 1));
    OneMoreEdit(START, first, outputGroup);
    var s := Next(START, OfflineEdit(first, outputGroup));
    assert s.pending == [UpsertOp(first, outputGroup)];
    assert |s.mirror| == 1;
    ManyEdits(s, second, outputGroup, MAX_PENDING - 1);
  }

  /** A run from the start in which an evicted scene never reaches the engine. */
  lemma OverflowLosesTheOldest(first: Card, second: Card, outputGroup: seq<Byte>, steps: seq<FlushStep>)
    requires Sendable(first, outputGroup) && Sendable(second, outputGroup) && first.id != second.id
    requires |steps| >= MAX_PENDING && AllAcked(steps)
    ensures OutOfStep(Run(START, Overflow(first, second, outputGroup, steps)), first.id)
  {
    var events := [OfflineEdit(first, outputGroup)] + Repeated(OfflineEdit(second, outputGroup), MAX_PENDING - 1);
    var s := Run(START, events);
    FilledQueue(first, second, outputGroup);
    RunBoth(START, events, [OfflineEdit(second, outputGroup), Connect(true, steps)]);
    RunTwo(s, OfflineEdit(second, outputGroup), Connect(true, steps));
    SentAreEncodable(first, second, outputGroup);
    EvictedSceneNeverArrives(s, second, outputGroup, first.id, steps);
  }

  lemma SentAreEncodable(first: Card, second: Card, outputGroup: seq<Byte>)
    requires Sendable(first, outputGroup) && Sendable(second, outputGroup) && first.id != second.id
    ensures var ops := [UpsertOp(first, outputGroup)] + Repeated(UpsertOp(second, outputGroup), MAX_PENDING - 1);
            AllEncodable(ops) && |ops| == MAX_PENDING && !Names(ops[1..], first.id) && ops[0].sceneId == first.id
  {
    CardsGiveValidOps(first, outputGroup);
    CardsGiveValidOps(second, outputGroup);
    EncodableExactly(UpsertOp(first, outputGroup));
    EncodableExactly(UpsertOp(second, outputGroup));
  }

  // An engine filled by a run, and a removal that overflows.

  function NumberedId(n: nat): (id: Id)
    requires n < 52
  {
    if n < 26 then [0x61, 0x61 + n] else [0x62, 0x61 + (n - 26)]
  }

  function NumberedCard(n: nat): Card
    requires n < 52
  {
    Card(NumberedId(n), [0x6E], [], [], true, [], false)
  }

  lemma NumberedCardsAreSendable(n: nat)
    requires n < 52
    ensures Sendable(NumberedCard(n), [0x6D])
  {
    OneByte(0x6E);
    OneByte(0x6D);
  }

  /** Connect, and add the first `count` numbered scenes. */
  function Filling(count: nat): seq<Event>
    requires count < 52
  {
    if count == 0 then [Connect(true, [])]
    else Filling(count - 1) + [Add(NumberedCard(count - 1), [0x6D], SAVED, Acked)]
  }

  /** Exactly the first `count` numbered ids, among the numbered ones. */
  ghost predicate NumberedKeys(keys: set<Id>, count: nat) {
    |keys| == count && forall k: nat :: k < 52 ==> (NumberedId(k) in keys <==> k < count)
  }

  lemma OneMoreKey(keys: set<Id>, count: nat)
    requires count < 52 && NumberedKeys(keys, count)
    ensures NumberedKeys(keys + {NumberedId(count)}, count + 1)
  {
  }

  /** The state holds exactly the first `count` numbered scenes, in the mirror and in the engine. */
  ghost predicate HoldsNumbered(s: State, count: nat) {
    && NumberedKeys(s.mirror.Keys, count) && NumberedKeys(s.engine.Keys, count)
    && s.connected && s.pending == []
  }

  lemma FillOneMore(s: State, count: nat)
    requires count < ENGINE_CAPACITY && HoldsNumbered(s, count)
    ensures HoldsNumbered(Next(s, Add(NumberedCard(count), [0x6D], SAVED, Acked)), count + 1)
  {
    var card := NumberedCard(count);
    var t := Next(s, Add(card, [0x6D], SAVED, Acked));
    NumberedCardsAreSendable(count);
    assert |s.mirror| == |s.mirror.Keys| && |s.engine| == |s.engine.Keys|;
    OnlineAdd(s, card, [0x6D]);
    OneMoreKey(s.mirror.Keys, count);
    OneMoreKey(s.engine.Keys, count);
    assert t.engine.Keys == s.engine.Keys + {NumberedId(count)};
    assert t.mirror.Keys == s.mirror.Keys + {NumberedId(count)};
  }

  lemma {:induction false} FillingFills(count: nat)
    requires count <= ENGINE_CAPACITY
    ensures HoldsNumbered(Run(START, Filling(count)), count)
  {
    if count == 0 {
      RunOne(START, Connect(true, []), []);
      assert [Connect(true, [])] + [] == [Connect(true, [])];
      ConnectIdle(START);
    } else {
      FillingFills(count - 1);
      RunOneMore(START, Filling(count - 1), Add(NumberedCard(count - 1), [0x6D], SAVED, Acked));
      FillOneMore(Run(START, Filling(count - 1)), count - 1);
    }
  }

  lemma OfflineRemove(s: State, id: Id)
    requires !s.connected && s.pending == [] && id in s.mirror && OpIsValid(RemoveOp(id))
    ensures var t := Next(s, Event.Remove(id, SAVED, NotDelivered));
            && t.pending == [RemoveOp(id)] && !t.connected && t.engine == s.engine && t.mirror == s.mirror - {id}
  {
    RoomyEnqueue(Edited(s, s.mirror - {id}), RemoveOp(id));
  }

  /** Fill the engine; offline remove one scene, edit another 63 times and add a new one; replay. */
  function FullEngineRun(steps: seq<FlushStep>): seq<Event> {
    Filling(ENGINE_CAPACITY) + [Disconnect, Event.Remove(NumberedId(0), SAVED, NotDelivered)]
    + Repeated(OfflineEdit(NumberedCard(1), [0x6D]), MAX_PENDING - 1)
    + [OfflineEdit(NumberedCard(40), [0x6D]), Connect(true, steps)]
  }

  lemma RemovalIsQueued()
    ensures var s := Run(START, Filling(ENGINE_CAPACITY)
                                + [Disconnect, Event.Remove(NumberedId(0), SAVED, NotDelivered)]);
            && !s.connected && s.pending == [RemoveOp(NumberedId(0))] && AllValid(s.pending)
            && |s.engine| == ENGINE_CAPACITY && |s.mirror| == ENGINE_CAPACITY - 1
            && NumberedId(1) in s.engine && NumberedId(1) in s.mirror
            && NumberedId(40) !in s.engine && NumberedId(40) !in s.mirror
  {
    FillingFills(ENGINE_CAPACITY);
    NumberedCardsAreSendable(0);
    CardsGiveValidOps(NumberedCard(0), [0x6D]);
    var full := Run(START, Filling(ENGINE_CAPACITY));
    RunBoth(START, Filling(ENGINE_CAPACITY), [Disconnect, Event.Remove(NumberedId(0), SAVED, NotDelivered)]);
    RunTwo(full, Disconnect, Event.Remove(NumberedId(0), SAVED, NotDelivered));
    OfflineRemove(Next(full, Disconnect), NumberedId(0));
    assert NumberedId(0) in full.mirror.Keys && NumberedId(1) in full.mirror.Keys && NumberedId(0) != NumberedId(1);
    assert NumberedId(40) !in full.mirror.Keys && NumberedId(40) !in full.engine.Keys;
    assert NumberedId(1) in full.engine.Keys && |full.engine| == |full.engine.Keys|;
    assert (full.mirror - {NumberedId(0)}).Keys == full.mirror.Keys - {NumberedId(0)};
  }

  /** The queue is full with the removal at its head, and the engine is full. */
  lemma EditsFillTheQueue()
    ensures var t := Run(START, Filling(ENGINE_CAPACITY)
                                + [Disconnect, Event.Remove(NumberedId(0), SAVED, NotDelivered)]
                                + Repeated(OfflineEdit(NumberedCard(1), [0x6D]), MAX_PENDING - 1));
            && t.pending == [RemoveOp(NumberedId(0))] + Repeated(UpsertOp(NumberedCard(1), [0x6D]), MAX_PENDING - 1)
            && !t.connected && AllValid(t.pending) && |t.engine| == ENGINE_CAPACITY && |t.mirror| == MAX_SCENES - 1
            && NumberedId(1) in t.engine && NumberedId(40) !in t.engine
  {
    var before := Filling(ENGINE_CAPACITY) + [Disconnect, Event.Remove(NumberedId(0), SAVED, NotDelivered)];
    var s := Run(START, before);
    RemovalIsQueued();
    NumberedCardsAreSendable(1);
    ManyEdits(s, NumberedCard(1), [0x6D], MAX_PENDING - 1);
    RunBoth(START, before, Repeated(OfflineEdit(NumberedCard(1), [0x6D]), MAX_PENDING - 1));
    assert s.mirror[NumberedId(1) := NumberedCard(1)].Keys == s.mirror.Keys;
  }

  lemma RemovalAndEditsMeetTheFullEngine(engine: Scenes)
    requires NumberedId(1) in engine
    ensures var ops := [RemoveOp(NumberedId(0))] + Repeated(UpsertOp(NumberedCard(1), [0x6D]), MAX_PENDING - 1);
            && AllEncodable(ops) && |ops| == MAX_PENDING && !ops[0].isUpsert
            && forall k :: 1 <= k < |ops| ==> ops[k].isUpsert && ops[k].sceneId in engine
  {
    NumberedCardsAreSendable(0);
    NumberedCardsAreSendable(1);
    CardsGiveValidOps(NumberedCard(0), [0x6D]);
    CardsGiveValidOps(NumberedCard(1), [0x6D]);
    EncodableExactly(RemoveOp(NumberedId(0)));
    EncodableExactly(UpsertOp(NumberedCard(1), [0x6D]));
  }

  /** A run from the start in which dropping a removal costs a scene that was never dropped. */
  lemma OverflowingRemovalCostsAnotherScene(steps: seq<FlushStep>)
    requires |steps| >= MAX_PENDING && AllAcked(steps)
    ensures OutOfStep(Run(START, FullEngineRun(steps)), NumberedId(40))
  {
    var before := Filling(ENGINE_CAPACITY) + [Disconnect, Event.Remove(NumberedId(0), SAVED, NotDelivered)]
                  + Repeated(OfflineEdit(NumberedCard(1), [0x6D]), MAX_PENDING - 1);
    var last := [OfflineEdit(NumberedCard(40), [0x6D]), Connect(true, steps)];
    EditsFillTheQueue();
    NumberedCardsAreSendable(40);
    RunBoth(START, before, last);
    RunTwo(Run(START, before), last[0], last[1]);
    RemovalAndEditsMeetTheFullEngine(Run(START, before).engine);
    EvictedRemovalCostsAnotherScene(Run(START, before), NumberedCard(40), [0x6D], steps);
  }

  // A queue file that a flush could not save, replayed after a restart.

  /** Offline, these operations wait in the queue and its file for a full table of scenes with these ids. */
  ghost predicate Waiting(s: State, ops: seq<Op>, engine: Scenes, keys: set<Id>) {
    && !s.connected && s.pending == ops && AllValid(ops) && s.engine == engine
    && s.mirror.Keys == keys && |keys| == MAX_SCENES
    && (ops != [] ==> s.queueFile == ops && s.cardFile == s.mirror)
  }

  function NumberedOp(n: nat): Op
    requires n < 52
  {
    UpsertOp(NumberedCard(n), [0x6D])
  }

  /** Remove one numbered scene offline and add another. */
  function Swap(out: nat, into: nat): seq<Event>
    requires out < 52 && into < 52
  {
    [Event.Remove(NumberedId(out), SAVED, NotDelivered), OfflineEdit(NumberedCard(into), [0x6D])]
  }

  lemma NumberedOpsAreSent(n: nat)
    requires n < 52
    ensures OpIsValid(NumberedOp(n)) && Encodable(NumberedOp(n))
    ensures OpIsValid(RemoveOp(NumberedId(n))) && Encodable(RemoveOp(NumberedId(n)))
  {
    NumberedCardsAreSendable(n);
    CardsGiveValidOps(NumberedCard(n), [0x6D]);
    EncodableExactly(NumberedOp(n));
    EncodableExactly(RemoveOp(NumberedId(n)));
  }

  lemma RemoveWaits(s: State, id: Id)
    requires !s.connected && |s.pending| < MAX_PENDING && AllValid(s.pending)
    requires id in s.mirror && OpIsValid(RemoveOp(id))
    ensures var t := Next(s, Event.Remove(id, SAVED, NotDelivered));
            && !t.connected && t.pending == t.queueFile == s.pending + [RemoveOp(id)] && t.engine == s.engine
            && AllValid(t.pending) && t.mirror == t.cardFile == s.mirror - {id}
  {
    RoomyEnqueue(Edited(s, s.mirror - {id}), RemoveOp(id));
  }

  lemma AddWaits(s: State, card: Card, outputGroup: seq<Byte>)
    requires !s.connected && |s.pending| < MAX_PENDING && AllValid(s.pending)
    requires AddAccepted(s.mirror, card) && OpIsValid(UpsertOp(card, outputGroup))
    ensures var t := Next(s, OfflineEdit(card, outputGroup));
            && !t.connected && t.pending == t.queueFile == s.pending + [UpsertOp(card, outputGroup)]
            && t.engine == s.engine && AllValid(t.pending) && t.mirror == t.cardFile == s.mirror[card.id := card]
  {
    RoomyEnqueue(Edited(s, s.mirror[card.id := card]), UpsertOp(card, outputGroup));
  }

  lemma SwapWaits(s: State, ops: seq<Op>, engine: Scenes, keys: set<Id>, out: nat, into: nat)
    requires Waiting(s, ops, engine, keys) && |ops| < MAX_PENDING - 1 && out < 52 && into < 52
    requires NumberedId(out) in keys && NumberedId(into) !in keys
    ensures Waiting(Run(s, Swap(out, into)), ops + [RemoveOp(NumberedId(out)), NumberedOp(into)], engine,
                    keys - {NumberedId(out)} + {NumberedId(into)})
  {
    var mid := Next(s, Swap(out, into)[0]);
    var card := NumberedCard(into);
    RunTwo(s, Swap(out, into)[0], Swap(out, into)[1]);
    NumberedOpsAreSent(out);
    NumberedOpsAreSent(into);
    NumberedCardsAreSendable(into);
    RemoveWaits(s, NumberedId(out));
    assert mid.mirror.Keys == keys - {NumberedId(out)} && |mid.mirror| == |mid.mirror.Keys|;
    AddWaits(mid, card, [0x6D]);
    assert mid.mirror[card.id := card].Keys == mid.mirror.Keys + {card.id};
    assert ops + [RemoveOp(NumberedId(out))] + [NumberedOp(into)]
           == ops + [RemoveOp(NumberedId(out)), NumberedOp(into)];
  }

  /** Send what waits with every save failing, restart, and send it again. */
  lemma ShuffleSentTwice(s: State, engine: Scenes, keys: set<Id>, x: Id, w: Id, y: Id, v: Id, shown: Shown,
                         sent: seq<FlushStep>, resent: seq<FlushStep>)
    requires Waiting(s, Shuffle(x, w, y, v, shown), engine, keys) && x in keys
    requires AllEncodable(Shuffle(x, w, y, v, shown))
    requires |engine| == ENGINE_CAPACITY && x in engine && w in engine && x != w
    requires y !in engine && v !in engine && y != v
    requires |sent| >= 6 && AllAcked(sent) && forall k :: 0 <= k < |sent| ==> !sent[k].saved
    requires |resent| >= 6 && AllAcked(resent)
    ensures x in Next(s, Connect(true, sent)).engine
    ensures OutOfStep(Next(Next(Next(s, Connect(true, sent)), Restart), Connect(true, resent)), x)
  {
    var ops := Shuffle(x, w, y, v, shown);
    var t := Next(s, Connect(true, sent));
    ShuffledTwiceLosesAScene(engine, x, w, y, v, shown);
    FittingDrain(engine, ops);
    ConnectDrains(s, sent);
    UnsavedFlush(s.(connected := true), sent);
    FlushedKeepsCards(s.(connected := true), sent);
    RestartEffect(t);
    ConnectDrains(Next(t, Restart), resent);
  }

  /** Fill the engine; offline make room for scene 40, bring scene 0 back, and change 40 for 41. */
  function ShuffleRun(): seq<Event> {
    Filling(ENGINE_CAPACITY) + [Disconnect] + Swap(0, 40) + Swap(1, 0) + Swap(40, 41)
  }

  /** The operations of the three swaps are the shuffle, and each of them can be sent. */
  lemma SwapsAreTheShuffle()
    ensures var x, w, y := NumberedId(0), NumberedId(1), NumberedId(40);
            var ops := Shuffle(x, w, y, NumberedId(41), Shown([0x6E], [], false));
            && AllEncodable(ops)
            && [] + [RemoveOp(x), NumberedOp(40)] + [RemoveOp(w), NumberedOp(0)] + [RemoveOp(y), NumberedOp(41)] == ops
  {
    NumberedOpsAreSent(0);
    NumberedOpsAreSent(1);
    NumberedOpsAreSent(40);
    NumberedOpsAreSent(41);
  }

  lemma TwoSwapsWait(s: State, engine: Scenes, keys: set<Id>)
    requires Waiting(s, [], engine, keys)
    requires {NumberedId(0), NumberedId(1)} <= keys && NumberedId(40) !in keys
    ensures var x, w, y := NumberedId(0), NumberedId(1), NumberedId(40);
            Waiting(Run(Run(s, Swap(0, 40)), Swap(1, 0)),
                    [] + [RemoveOp(x), NumberedOp(40)] + [RemoveOp(w), NumberedOp(0)], engine,
                    keys - {x} + {y} - {w} + {x})
  {
    var x, y := NumberedId(0), NumberedId(40);
    SwapWaits(s, [], engine, keys, 0, 40);
    SwapWaits(Run(s, Swap(0, 40)), [] + [RemoveOp(x), NumberedOp(40)], engine, keys - {x} + {y}, 1, 0);
  }

  lemma ThreeSwapsWait(s: State, engine: Scenes, keys: set<Id>, x: Id, w: Id, y: Id, v: Id)
    requires Waiting(s, [], engine, keys) && x in keys && w in keys && y !in keys && v !in keys
    requires x == NumberedId(0) && w == NumberedId(1) && y == NumberedId(40) && v == NumberedId(41)
    ensures Waiting(Run(Run(Run(s, Swap(0, 40)), Swap(1, 0)), Swap(40, 41)),
                    Shuffle(x, w, y, v, Shown([0x6E], [], false)), engine,
                    keys - {x} + {y} - {w} + {x} - {y} + {v})
  {
    var two := [] + [RemoveOp(x), NumberedOp(40)] + [RemoveOp(w), NumberedOp(0)];
    TwoSwapsWait(s, engine, keys);
    SwapWaits(Run(Run(s, Swap(0, 40)), Swap(1, 0)), two, engine, keys - {x} + {y} - {w} + {x}, 40, 41);
    SwapsAreTheShuffle();
  }

  lemma ShuffleRunIsThreeSwaps()
    ensures var s := Next(Run(START, Filling(ENGINE_CAPACITY)), Disconnect);
            Run(START, ShuffleRun()) == Run(Run(Run(s, Swap(0, 40)), Swap(1, 0)), Swap(40, 41))
  {
    var offline := Filling(ENGINE_CAPACITY) + [Disconnect];
    RunOneMore(START, Filling(ENGINE_CAPACITY), Disconnect);
    RunBoth(START, offline, Swap(0, 40));
    RunBoth(START, offline + Swap(0, 40), Swap(1, 0));
    RunBoth(START, offline + Swap(0, 40) + Swap(1, 0), Swap(40, 41));
  }

  lemma FullThenOffline(full: State)
    requires HoldsNumbered(full, ENGINE_CAPACITY)
    ensures Waiting(Next(full, Disconnect), [], full.engine, full.mirror.Keys)
    ensures NumberedId(0) in full.mirror.Keys && NumberedId(1) in full.mirror.Keys
    ensures NumberedId(40) !in full.mirror.Keys && NumberedId(41) !in full.mirror.Keys
  {
  }

  lemma ShuffleWaits()
    ensures var full := Run(START, Filling(ENGINE_CAPACITY));
            var x, w, y, v := NumberedId(0), NumberedId(1), NumberedId(40), NumberedId(41);
            Waiting(Run(START, ShuffleRun()), Shuffle(x, w, y, v, Shown([0x6E], [], false)), full.engine,
                    full.mirror.Keys - {x} + {y} - {w} + {x} - {y} + {v})
  {
    var full := Run(START, Filling(ENGINE_CAPACITY));
    FillingFills(ENGINE_CAPACITY);
    FullThenOffline(full);
    ShuffleRunIsThreeSwaps();
    ThreeSwapsWait(Next(full, Disconnect), full.engine, full.mirror.Keys,
                   NumberedId(0), NumberedId(1), NumberedId(40), NumberedId(41));
  }

  /**
   * A run from the start: six offline edits are sent and taken while no save of the flush succeeds, and
   * a restart sends them again. Scene 0, which the engine had, is then refused and missing.
   */
  lemma StaleReplayLosesAScene(sent: seq<FlushStep>, resent: seq<FlushStep>)
    requires |sent| >= 6 && AllAcked(sent) && forall k :: 0 <= k < |sent| ==> !sent[k].saved
    requires |resent| >= 6 && AllAcked(resent)
    ensures NumberedId(0) in Run(START, ShuffleRun() + [Connect(true, sent)]).engine
    ensures OutOfStep(Run(START, ShuffleRun() + [Connect(true, sent), Restart, Connect(true, resent)]), NumberedId(0))
  {
    var s := Run(START, ShuffleRun());
    var full := Run(START, Filling(ENGINE_CAPACITY));
    var x, w, y, v := NumberedId(0), NumberedId(1), NumberedId(40), NumberedId(41);
    RunOneMore(START, ShuffleRun(), Connect(true, sent));
    RunBoth(START, ShuffleRun(), [Connect(true, sent), Restart, Connect(true, resent)]);
    RunThree(s, Connect(true, sent), Restart, Connect(true, resent));
    ShuffleWaits();
    SwapsAreTheShuffle();
    FillingFills(ENGINE_CAPACITY);
    ShuffleSentTwice(s, full.engine, s.mirror.Keys, x, w, y, v, Shown([0x6E], [], false), sent, resent);
  }
}
