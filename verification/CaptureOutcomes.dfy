/** How the worker's operations end: with the document closed, or capturing. */
module CaptureOutcomes {
  import opened Wrappers
  import opened CaptureLifecycle

  predicate InStop(at: WorkerAt) { at.StopChecking? || at.StopSending? || at.StopWaiting? || at.StopClosing? }

  predicate InRelease(at: WorkerAt) { at.ReleaseChecking? || at.ReleaseAsking? || at.ReleaseClosing? }

  /** The worker is busy until these events are over. */
  predicate Busy(s: State, events: seq<Event>)
    decreases |events|
  {
    events == [] || (s.at != Resting && Busy(Next(s, events[0]), events[1..]))
  }

  /** The worker is not replaced, and its calls that close the document succeed; any other call may fail. */
  predicate ClosesSucceed(s: State, events: seq<Event>)
    decreases |events|
  {
    events == [] || (CloseSucceeds(s, events[0]) && ClosesSucceed(Next(s, events[0]), events[1..]))
  }

  predicate CloseSucceeds(s: State, event: Event) {
    !event.WorkerRestarts? && (event.WorkerStep? && (s.at.StopClosing? || s.at.ReleaseClosing?) ==> event.ok)
  }

  // A stop.

  lemma {:induction false} StopCloses(s: State, events: seq<Event>)
    requires InStop(s.at) && Busy(s, events) && ClosesSucceed(s, events)
    ensures Run(s, events).at == Resting ==> Run(s, events).document.None?
    decreases |events|
  {
    if events != [] {
      var t := Next(s, events[0]);
      if t.at == Resting {
        assert Busy(t, events[1..]);
      } else {
        StopCloses(t, events[1..]);
      }
    }
  }

  /**
   * A stop taken from rest, whatever happens meanwhile and whichever of its calls fail but the close:
   * when the worker rests again there is no document.
   */
  lemma StopLeavesNoDocument(s: State, ok: bool, events: seq<Event>)
    requires s.at == Resting && s.queue != [] && s.queue[0] == Stop
    requires var t := Next(s, WorkerStep(ok)); Busy(t, events) && ClosesSucceed(t, events)
    ensures var r := Run(Next(s, WorkerStep(ok)), events);
            r.at == Resting ==> r.document.None?
  {
    StopCloses(Next(s, WorkerStep(ok)), events);
  }

  // A release.

  lemma StepStaysIdleInRelease(s: State, event: Event)
    requires InRelease(s.at) && Idle(s) && !event.WorkerRestarts?
    ensures Idle(Next(s, event))
  {
    if !event.WorkerStep? {
      StepStaysIdle(s, event);
    }
  }

  lemma {:induction false} ReleaseCloses(s: State, events: seq<Event>)
    requires InRelease(s.at) && Busy(s, events) && ClosesSucceed(s, events)
    ensures var r := Run(s, events);
            r.at == Resting ==> r.document.None? || (!Idle(s) && r.document.value.context)
    decreases |events|
  {
    if events != [] {
      var t := Next(s, events[0]);
      if Idle(s) {
        StepStaysIdleInRelease(s, events[0]);
      }
      if t.at == Resting {
        assert Busy(t, events[1..]);
      } else {
        ReleaseCloses(t, events[1..]);
      }
    }
  }

  /** A release leaves no document, unless the document had a capture or a start and ends up capturing. */
  lemma ReleaseLeavesNoIdleDocument(s: State, ok: bool, events: seq<Event>)
    requires s.at == Resting && s.queue != [] && s.queue[0] == Release
    requires var t := Next(s, WorkerStep(ok)); Busy(t, events) && ClosesSucceed(t, events)
    ensures var r := Run(Next(s, WorkerStep(ok)), events);
            r.at == Resting ==> r.document.None? || (!Idle(s) && r.document.value.context)
  {
    ReleaseCloses(Next(s, WorkerStep(ok)), events);
  }

  // A start.

  /** Both sides go on, and every call they await succeeds. */
  predicate Succeeds(event: Event) { event == WorkerStep(true) || event == DocumentStep(true) }

  predicate AllSucceed(events: seq<Event>) { forall k :: 0 <= k < |events| ==> Succeeds(events[k]) }

  predicate InStart(at: WorkerAt) {
    at.StartChecking? || at.StartCreating? || at.StartTicket? || at.StartSending? || at.StartWaiting?
  }

  /** The document is there once it was made, and no start in it has failed. */
  predicate GoesWell(s: State) {
    && (s.at.StartTicket? || s.at.StartSending? || s.at.StartWaiting? ==> s.document.Some?)
    && (s.document.Some? ==> s.document.value.at != Abandoning)
  }

  /** A capture with its stream, and no operation of the document running. */
  predicate Playing(s: State) {
    && s.document.Some? && s.document.value.at == DocumentAt.Quiet
    && s.document.value.context && s.document.value.stream.Some?
  }

  lemma StartStepSucceeds(s: State, event: Event)
    requires Invariant(s) && InStart(s.at) && GoesWell(s) && Succeeds(event)
    ensures var t := Next(s, event);
            && Invariant(t) && (if t.at == Resting then Playing(t) else InStart(t.at) && GoesWell(t))
  {
    StepKeepsInvariant(s, event);
  }

  lemma {:induction false} StartPlays(s: State, events: seq<Event>)
    requires Invariant(s) && InStart(s.at) && GoesWell(s) && AllSucceed(events) && Busy(s, events)
    ensures Run(s, events).at == Resting ==> Playing(Run(s, events))
    decreases |events|
  {
    if events != [] {
      var t := Next(s, events[0]);
      StartStepSucceeds(s, events[0]);
      if t.at == Resting {
        assert Busy(t, events[1..]);
      } else {
        StartPlays(t, events[1..]);
      }
    }
  }

  /** A start taken from rest after any safe run: when all calls succeed, the worker rests with a capture playing. */
  lemma StartEndsPlaying(before: seq<Event>, events: seq<Event>)
    requires SafeRun(START, before)
    requires var s := Run(START, before); s.at == Resting && s.queue != [] && s.queue[0] == Start
    requires AllSucceed(events) && Busy(Next(Run(START, before), WorkerStep(true)), events)
    ensures var r := Run(Next(Run(START, before), WorkerStep(true)), events);
            r.at == Resting ==> Playing(r)
  {
    var s := Run(START, before);
    RunKeepsInvariant(START, before);
    StepKeepsInvariant(s, WorkerStep(true));
    StartPlays(Next(s, WorkerStep(true)), events);
  }

  // Every operation ends.

  predicate StopsFor(d: Document, life: nat) {
    || (exists k :: 0 <= k < |d.queue| && d.queue[k] == DocumentStop(life))
    || (d.at == Stopping && d.replyTo == life)
  }

  /** A stop the worker waits for is in the document. */
  predicate StopIsAwaited(s: State) {
    s.at == StopWaiting && s.document.Some? ==> StopsFor(s.document.value, s.life)
  }

  lemma AppendKeepsStop(d: Document, op: DocumentOp, life: nat)
    requires StopsFor(d, life) || op == DocumentStop(life)
    ensures StopsFor(d.(queue := d.queue + [op]), life)
  {
    var queue := d.queue + [op];
    if exists k :: 0 <= k < |d.queue| && d.queue[k] == DocumentStop(life) {
      var k :| 0 <= k < |d.queue| && d.queue[k] == DocumentStop(life);
      assert queue[k] == DocumentStop(life);
    }
    assert queue[|d.queue|] == op;
  }

  lemma TakingKeepsStop(s: State, life: nat)
    requires s.document.Some? && s.document.value.at == DocumentAt.Quiet && s.document.value.queue != []
    requires StopsFor(s.document.value, life)
    ensures Taken(s, s.document.value).document.Some? && StopsFor(Taken(s, s.document.value).document.value, life)
  {
    var d := s.document.value;
    var k :| 0 <= k < |d.queue| && d.queue[k] == DocumentStop(life);
    if k > 0 {
      assert d.queue[1..][k - 1] == DocumentStop(life);
    }
  }

  lemma StepKeepsAwaited(s: State, event: Event)
    requires StopIsAwaited(s)
    ensures StopIsAwaited(Next(s, event))
  {
    if s.document.Some? {
      var d := s.document.value;
      if event.TrackEnds? && s.at == StopWaiting {
        AppendKeepsStop(d, SourceEnded(event.stream), s.life);
      } else if event.WorkerStep? && s.at == StopSending {
        AppendKeepsStop(d, DocumentStop(s.life), s.life);
      } else if event.DocumentStep? && s.at == StopWaiting && d.at == DocumentAt.Quiet && d.queue != [] {
        TakingKeepsStop(s, s.life);
      }
    }
  }

  lemma {:induction false} RunKeepsAwaited(s: State, events: seq<Event>)
    requires StopIsAwaited(s)
    ensures StopIsAwaited(Run(s, events))
    decreases |events|
  {
    if events != [] {
      StepKeepsAwaited(s, events[0]);
      RunKeepsAwaited(Next(s, events[0]), events[1..]);
    }
  }

  /** Steps of the worker until it rests, an answer of the document counting as one. */
  function WorkerRank(at: WorkerAt): nat {
    match at
    case Resting => 0
    case StartChecking => 5
    case StartCreating => 4
    case StartTicket => 3
    case StartSending => 2
    case StartWaiting => 1
    case StopChecking => 4
    case StopSending => 3
    case StopWaiting => 2
    case StopClosing(_) => 1
    case ReleaseChecking => 3
    case ReleaseAsking => 2
    case ReleaseClosing(_) => 1
  }

  /** Steps of the document until it has nothing to do. */
  function DocumentRank(s: State): nat {
    if s.document.None? then 0
    else
      5 * |s.document.value.queue|
      + match s.document.value.at
        case Quiet => 0
        case Replacing => 3
        case Acquiring => 2
        case _ => 1
  }

  /** The worker comes to rest by successful steps of the two sides. */
  ghost predicate ComesToRest(s: State) {
    exists events :: AllSucceed(events) && Busy(s, events) && Run(s, events).at == Resting
  }

  lemma RestsNow(s: State)
    requires s.at == Resting
    ensures ComesToRest(s)
  {
    assert AllSucceed([]) && Busy(s, []) && Run(s, []).at == Resting;
  }

  lemma RestsAfter(s: State, event: Event)
    requires s.at != Resting && Succeeds(event) && ComesToRest(Next(s, event))
    ensures ComesToRest(s)
  {
    var events :| AllSucceed(events) && Busy(Next(s, event), events) && Run(Next(s, event), events).at == Resting;
    assert ([event] + events)[1..] == events;
    assert AllSucceed([event] + events) && Busy(s, [event] + events) && Run(s, [event] + events).at == Resting;
  }

  /** The worker's turn, unless it waits for the document. */
  function Turn(s: State): Event {
    if (s.at == StartWaiting || s.at == StopWaiting) && s.document.Some? then DocumentStep(true) else WorkerStep(true)
  }

  lemma TurnCounts(s: State)
    requires Invariant(s) && StopIsAwaited(s) && s.at != Resting
    ensures var t := Next(s, Turn(s));
            || WorkerRank(t.at) < WorkerRank(s.at)
            || (t.at == s.at && DocumentRank(t) < DocumentRank(s))
  {
  }

  lemma {:induction false} BusyComesToRest(s: State)
    requires Invariant(s) && StopIsAwaited(s)
    ensures ComesToRest(s)
    decreases WorkerRank(s.at), DocumentRank(s)
  {
    if s.at == Resting {
      RestsNow(s);
    } else {
      TurnCounts(s);
      StepKeepsInvariant(s, Turn(s));
      StepKeepsAwaited(s, Turn(s));
      BusyComesToRest(Next(s, Turn(s)));
      RestsAfter(s, Turn(s));
    }
  }

  /** After any safe run, whatever the worker is doing, successful steps of the two sides bring it to rest. */
  lemma EveryOperationEnds(events: seq<Event>)
    requires SafeRun(START, events)
    ensures ComesToRest(Run(START, events))
  {
    RunKeepsInvariant(START, events);
    RunKeepsAwaited(START, events);
    BusyComesToRest(Run(START, events));
  }

  // A source that ends.

  /** The document is about to handle the end of the stream it plays. */
  predicate SourceIsOver(s: State) {
    && s.document.Some?
    && var d := s.document.value;
       d.at == DocumentAt.Quiet && d.queue != [] && d.stream.Some? && d.queue[0] == SourceEnded(d.stream.value)
  }

  /** The track of the playing stream ends, with nothing else for the document to do. */
  lemma EndedTrackIsNoticed(s: State, stream: StreamId)
    requires Playing(s) && s.document.value.queue == []
    ensures SourceIsOver(Next(s, TrackEnds(stream))) <==> s.document.value.stream == Some(stream)
    ensures s.document.value.stream != Some(stream) ==> Next(s, TrackEnds(stream)) == s
  {
  }

  /** The two steps of handling it end the capture and ask the worker for a release, if the message gets through. */
  lemma EndedSourceAsksForRelease(s: State, ok: bool)
    requires SourceIsOver(s)
    ensures var t := Next(Next(s, DocumentStep(ok)), DocumentStep(true));
            && t.document.Some? && t.at == s.at && t.queue == s.queue + [Release]
            && !t.document.value.context && t.document.value.stream.None? && t.document.value.at == DocumentAt.Quiet
            && t.document.value.queue == s.document.value.queue[1..]
            && Next(Next(s, DocumentStep(ok)), DocumentStep(false)) == t.(queue := s.queue)
  {
  }

  /** With the worker at rest and nothing else to do, that release leaves no document. */
  lemma EndedSourceClosesTheDocument(s: State, ok: bool, close: bool, events: seq<Event>)
    requires SourceIsOver(s) && |s.document.value.queue| == 1 && s.at == Resting && s.queue == []
    requires Invariant(s)
    requires var t := Next(Next(Next(s, DocumentStep(ok)), DocumentStep(true)), WorkerStep(close));
             Busy(t, events) && ClosesSucceed(t, events)
    ensures var t := Next(Next(Next(s, DocumentStep(ok)), DocumentStep(true)), WorkerStep(close));
            Run(t, events).at == Resting ==> Run(t, events).document.None?
  {
    EndedSourceAsksForRelease(s, ok);
    var t := Next(Next(s, DocumentStep(ok)), DocumentStep(true));
    ReleaseLeavesNoIdleDocument(t, close, events);
  }

  // Calls that fail, and sides that disappear.

  /** A start of which one call of the worker fails is over, and has left nothing behind. */
  lemma FailedCallEndsTheStart(s: State)
    requires s.at.StartCreating? || s.at.StartTicket? || s.at.StartSending?
    ensures Next(s, WorkerStep(false)) == s.(at := Resting)
  {
  }

  /** Without a document a stop or a release is over at its check; a close that fails leaves the document. */
  lemma NothingToClose(s: State)
    ensures (s.at.StopChecking? || s.at.ReleaseChecking?) && s.document.None? ==>
              forall ok :: Next(s, WorkerStep(ok)) == s.(at := Resting)
    ensures s.at.StopClosing? || s.at.ReleaseClosing? ==> Next(s, WorkerStep(false)) == s.(at := Resting)
  {
  }

  /** A stop whose calls succeed closes the document only after it has answered. */
  lemma {:induction false} StopAsksFirst(s: State, events: seq<Event>)
    requires Invariant(s) && InStop(s.at) && !s.at.StopClosing? && s.document.Some?
    requires AllSucceed(events) && Busy(s, events)
    ensures var r := Run(s, events);
            && (r.at.StopClosing? ==> r.at.answered && r.document.Some? && NoCapture(r.document.value))
            && (r.document.Some? ==> InStop(r.at))
    decreases |events|
  {
    if events != [] {
      var t := Next(s, events[0]);
      StepKeepsInvariant(s, events[0]);
      if t.at.StopClosing? {
        AnsweredStopCloses(t, events[1..]);
      } else {
        StopAsksFirst(t, events[1..]);
      }
    }
  }

  lemma {:induction false} AnsweredStopCloses(s: State, events: seq<Event>)
    requires Invariant(s) && s.at == StopClosing(true) && s.document.Some? && AllSucceed(events) && Busy(s, events)
    ensures var r := Run(s, events);
            if r.document.Some? then r.at == StopClosing(true) && NoCapture(r.document.value) else r.at == Resting
    decreases |events|
  {
    if events != [] {
      var t := Next(s, events[0]);
      StepKeepsInvariant(s, events[0]);
      if t.at == Resting {
        assert Busy(t, events[1..]);
      } else {
        AnsweredStopCloses(t, events[1..]);
      }
    }
  }

  /** The document has just taken up a start of the worker that waits for it. */
  predicate StartTaken(s: State) {
    && s.at == StartWaiting && s.document.Some?
    && s.document.value.at == Replacing && s.document.value.replyTo == s.life
  }

  /** Nothing is captured, and the worker has its answer. */
  predicate StartIsUndone(s: State) {
    && s.at == Resting && s.document.Some? && s.document.value.at == DocumentAt.Quiet
    && !s.document.value.context && s.document.value.stream.None?
  }

  /** A start plays a new stream when its three awaits succeed; whichever of them fails first, it is undone. */
  lemma StartPlaysOrIsUndone(s: State, ok: bool)
    requires StartTaken(s) && s.document.value.stream.None?
    ensures var one := Next(s, DocumentStep(true));
            var two := Next(one, DocumentStep(true));
            && (var r := Next(two, DocumentStep(true));
                && Playing(r) && r.at == Resting
                && r.document.value.stream == Some(s.nextStream) && r.nextStream > s.nextStream)
            && StartIsUndone(Next(s, DocumentStep(false)))
            && StartIsUndone(Next(Next(one, DocumentStep(false)), DocumentStep(ok)))
            && StartIsUndone(Next(Next(two, DocumentStep(false)), DocumentStep(ok)))
  {
  }

  /** A document that dies takes its capture along and releases the worker that waits for it. */
  lemma DeathEndsTheWaiting(s: State, ok: bool)
    ensures var t := Next(s, DocumentDies);
            && t.document.None? && t.at == s.at && t.queue == s.queue
            && (s.at == StartWaiting ==> Next(t, WorkerStep(ok)) == t.(at := Resting))
            && (s.at == StopWaiting ==> Next(Next(t, WorkerStep(ok)), WorkerStep(ok)) == t.(at := Resting))
  {
  }

  /** A replaced worker knows nothing of what the old one was doing, and no answer to the old one resumes it. */
  lemma ReplacedWorkerStartsAfresh(s: State, ok: bool)
    ensures var t := Next(s, WorkerRestarts);
            && t.queue == [] && t.at == Resting && t.document == s.document && t.life != s.life
            && t.nextStream == s.nextStream
    ensures s.document.Some? && s.document.value.replyTo != s.life ==> Next(s, DocumentStep(ok)).at == s.at
  {
  }

  // The worker's queue is served in order.

  /** What a step asks of the worker: a request, or the release of an ended capture. */
  function AskedBy(s: State, e: Event): seq<WorkerOp> {
    if e.Request? then [e.op]
    else if e == DocumentStep(true) && s.document.Some? && s.document.value.at == Ending then [Release]
    else []
  }

  predicate TakesUp(s: State, e: Event) { e.WorkerStep? && s.at == Resting && s.queue != [] }

  function Asked(s: State, events: seq<Event>): seq<WorkerOp>
    decreases |events|
  {
    if events == [] then [] else AskedBy(s, events[0]) + Asked(Next(s, events[0]), events[1..])
  }

  /** How many operations the worker has taken up. */
  function TakenUp(s: State, events: seq<Event>): nat
    decreases |events|
  {
    if events == [] then 0
    else (if TakesUp(s, events[0]) then 1 else 0) + TakenUp(Next(s, events[0]), events[1..])
  }

  /** One step: the operation at the head is begun, or what is asked waits at the end. */
  lemma QueueIsServedInOrder(s: State, e: Event)
    requires !e.WorkerRestarts?
    ensures var t := Next(s, e);
            if TakesUp(s, e) then t.queue == s.queue[1..] && t.at == Begun(s.queue[0]) && AskedBy(s, e) == []
            else t.queue == s.queue + AskedBy(s, e)
  {
  }

  lemma DropOfBoth(queue: seq<WorkerOp>, asked: seq<WorkerOp>, later: seq<WorkerOp>, n: nat)
    requires n <= |queue + asked + later|
    ensures (queue + (asked + later))[n..] == (queue + asked + later)[n..]
    ensures queue != [] && asked == [] && n > 0 ==> (queue + later)[n..] == (queue[1..] + later)[n - 1..]
  {
    assert queue + (asked + later) == queue + asked + later;
    if queue != [] && asked == [] && n > 0 {
      assert (queue + later)[1..] == queue[1..] + later;
    }
  }

  /** Over every run of one worker, what waits is what was asked, in order, without what was taken up. */
  lemma {:induction false} RequestsAreServedInOrder(s: State, events: seq<Event>)
    requires forall k :: 0 <= k < |events| ==> !events[k].WorkerRestarts?
    ensures TakenUp(s, events) <= |s.queue + Asked(s, events)|
    ensures Run(s, events).queue == (s.queue + Asked(s, events))[TakenUp(s, events)..]
    decreases |events|
  {
    if events != [] {
      var e := events[0];
      QueueIsServedInOrder(s, e);
      RequestsAreServedInOrder(Next(s, e), events[1..]);
      DropOfBoth(s.queue, AskedBy(s, e), Asked(Next(s, e), events[1..]), TakenUp(s, events));
    }
  }
}
