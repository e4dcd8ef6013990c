/** The account of the replay queue: what was queued waits, has left by a flush, or is counted as dropped. */
module SceneLedger {
  import opened Wrappers
  import opened SceneCatalog
  import opened SceneQueue
  import opened SceneSync
  import opened SceneLosses

  /** An edit reaches the queue when it is carried on, not confirmed at once, and its queue can be saved. */
  predicate Queues(s: State, e: Event) {
    && Carried(s, e) && e.saves.queue && AllValid(s.pending) && OpIsValid(EditOp(e))
    && (s.connected ==> Encodable(EditOp(e)) && !e.send.Acked?)
  }

  function QueuedBy(s: State, e: Event): nat { if Queues(s, e) then 1 else 0 }

  /** Operations that leave the queue in a flush. */
  function LeftBy(s: State, e: Event): int { if e.Connect? then |s.pending| - |Next(s, e).pending| else 0 }

  function QueuedIn(s: State, events: seq<Event>): nat
    decreases |events|
  {
    if events == [] then 0 else QueuedBy(s, events[0]) + QueuedIn(Next(s, events[0]), events[1..])
  }

  function LeftIn(s: State, events: seq<Event>): int
    decreases |events|
  {
    if events == [] then 0 else LeftBy(s, events[0]) + LeftIn(Next(s, events[0]), events[1..])
  }

  /** The two parts of the queue file are written together. */
  predicate FilesAgree(s: State, t: State) {
    || (t.queueFile == s.queueFile && t.droppedFile == s.droppedFile)
    || (t.queueFile == t.pending && t.droppedFile == t.dropped)
  }

  /** Making room counts every operation it drops. */
  lemma {:induction false} TrimmedCounts(s: State)
    ensures Trimmed(s).dropped + |Trimmed(s).pending| == s.dropped + |s.pending|
    decreases |s.pending|
  {
    if |s.pending| >= MAX_PENDING {
      TrimmedCounts(Evicted(s));
    }
  }

  lemma EnqueuedCounts(s: State, op: Op)
    ensures Enqueued(s, op).dropped + |Enqueued(s, op).pending| == s.dropped + |s.pending| + 1
  {
    TrimmedCounts(s);
  }

  lemma PersistedCounts(s: State, before: map<Id, Card>, op: Op, saves: Saves, applied: bool)
    requires AllValid(s.pending)
    ensures var t := Persisted(s, before, op, saves, applied);
            && t.dropped + |t.pending| == s.dropped + |s.pending| + (if saves.queue && OpIsValid(op) then 1 else 0)
            && FilesAgree(s, t)
  {
    TrimmedKeeps(s);
    EnqueuedCounts(s, op);
    var ops := Enqueued(s, op).pending;
    assert ops[|ops| - 1] == op;
  }

  lemma EditCounts(s: State, mirror: map<Id, Card>, op: Op, saves: Saves, send: Send)
    requires AllValid(s.pending)
    ensures var t := Forwarded(Edited(s, mirror), s.mirror, op, saves, send);
            && t.dropped + |t.pending|
               == s.dropped + |s.pending|
                  + (if saves.queue && OpIsValid(op) && (s.connected ==> Encodable(op) && !send.Acked?) then 1 else 0)
            && FilesAgree(s, t)
  {
    var edited := Edited(s, mirror);
    if !s.connected {
      PersistedCounts(edited, s.mirror, op, saves, false);
    } else if Encodable(op) && !send.Acked? {
      PersistedCounts(Exchanged(edited, op, send), s.mirror, op, saves, Delivers(send) && !Refuses(s.engine, op));
    }
  }

  lemma DequeuedCounts(s: State, saved: bool)
    requires s.pending != []
    ensures Dequeued(s, saved).dropped == s.dropped && FilesAgree(s, Dequeued(s, saved))
  {
  }

  lemma TurnCounts(s: State, step: FlushStep)
    requires s.pending != []
    ensures HeadSent(s, step).dropped == s.dropped && FilesAgree(s, HeadSent(s, step))
  {
    var op, rest := s.pending[0], s.pending[1..];
    DequeuedCounts(Unreached(s, op, rest), step.saved);
    DequeuedCounts(Unreached(Exchanged(s, op, step.send), op, rest), step.saved);
    DequeuedCounts(Exchanged(s, op, step.send), step.saved);
  }

  lemma {:induction false} FlushCounts(s: State, steps: seq<FlushStep>)
    ensures Flushed(s, steps).dropped == s.dropped && |Flushed(s, steps).pending| <= |s.pending|
    decreases |s.pending|
  {
    if s.pending != [] {
      TurnCounts(s, StepAt(steps));
      if HeadLeaves(s, StepAt(steps)) {
        FlushCounts(HeadSent(s, StepAt(steps)), if steps == [] then [] else steps[1..]);
      }
    }
  }

  /** One step that does not restart the program keeps the account, and a restart takes over the saved one. */
  lemma StepKeepsAccount(s: State, e: Event)
    requires AllValid(s.pending)
    ensures var t := Next(s, e);
            if e.Restart? then t.dropped == s.droppedFile && t.pending == s.queueFile
            else t.dropped + |t.pending| + LeftBy(s, e) == s.dropped + |s.pending| + QueuedBy(s, e)
    ensures LeftBy(s, e) >= 0
  {
    match e
    case Add(card, outputGroup, saves, send) =>
      if Carried(s, e) {
        EditCounts(s, s.mirror[card.id := card], UpsertOp(card, outputGroup), saves, send);
      }
    case Remove(id, saves, send) =>
      if Carried(s, e) {
        EditCounts(s, s.mirror - {id}, RemoveOp(id), saves, send);
      }
    case Connect(reached, steps) =>
      if reached {
        FlushCounts(s.(connected := true), steps);
      }
    case _ =>
  }

  lemma {:induction false} RunKeepsAccount(s: State, events: seq<Event>)
    requires Invariant(s) && forall k :: 0 <= k < |events| ==> !events[k].Restart?
    ensures var t := Run(s, events);
            t.dropped + |t.pending| + LeftIn(s, events) == s.dropped + |s.pending| + QueuedIn(s, events)
    decreases |events|
  {
    if events != [] {
      StepKeepsAccount(s, events[0]);
      StepKeepsInvariant(s, events[0]);
      RunKeepsAccount(Next(s, events[0]), events[1..]);
    }
  }

  /** In every run of one program, what was queued waits, has left by a flush, or is counted as dropped. */
  lemma EveryOperationIsAccountedFor(events: seq<Event>)
    requires forall k :: 0 <= k < |events| ==> !events[k].Restart?
    ensures var s := Run(START, events);
            QueuedIn(START, events) == s.dropped + |s.pending| + LeftIn(START, events)
  {
    RunKeepsAccount(START, events);
  }
}
