/**
 * Two serial operation queues over one offscreen document: the service worker's, which creates and
 * closes the document, and the document's own, which starts and tears down captures.
 */
module CaptureLifecycle {
  import opened Wrappers

  type StreamId = nat

  datatype WorkerOp = Start | Stop | Release

  /** Where the worker's running operation waits; each value is one await of its async function. */
  datatype WorkerAt =
    | Resting
    | StartChecking
    | StartCreating
    | StartTicket
    | StartSending
    | StartWaiting
    | StopChecking
    | StopSending
    | StopWaiting
    | StopClosing(answered: bool)
    | ReleaseChecking
    | ReleaseAsking
    | ReleaseClosing(answered: bool)

  /** `life` is the worker that sent the message, and so the only one its reply can resume. */
  datatype DocumentOp = DocumentStart(life: nat) | DocumentStop(life: nat) | SourceEnded(stream: StreamId)

  /** Where the document's running operation waits. */
  datatype DocumentAt = Quiet | Replacing | Acquiring | Resuming | Abandoning | Stopping | Ending

  /** `context` is what the document reports as capturing. */
  datatype Document = Document(
    queue: seq<DocumentOp>,
    at: DocumentAt,
    replyTo: nat,
    context: bool,
    stream: Option<StreamId>)

  datatype State = State(
    queue: seq<WorkerOp>,
    at: WorkerAt,
    life: nat,
    document: Option<Document>,
    nextStream: StreamId)

  const START: State := State([], Resting, 0, None, 0)

  const FRESH: Document := Document([], DocumentAt.Quiet, 0, false, None)

  /** `ok` is whether the awaited browser call succeeds, or is answered. */
  datatype Event =
    | Request(op: WorkerOp)
    | WorkerStep(ok: bool)
    | DocumentStep(ok: bool)
    | TrackEnds(stream: StreamId)
    | DocumentDies
    | WorkerRestarts

  function Begun(op: WorkerOp): WorkerAt {
    match op
    case Start => StartChecking
    case Stop => StopChecking
    case Release => ReleaseChecking
  }

  function Sent(s: State, op: DocumentOp, at: WorkerAt): State
    requires s.document.Some?
  {
    s.(document := Some(s.document.value.(queue := s.document.value.queue + [op])), at := at)
  }

  /** The worker resumes after its current await. */
  function WorkerStepped(s: State, ok: bool): State {
    match s.at
    case Resting => if s.queue == [] then s else s.(queue := s.queue[1..], at := Begun(s.queue[0]))
    case StartChecking => s.(at := if s.document.None? then StartCreating else StartTicket)
    case StartCreating =>
      if ok && s.document.None? then s.(document := Some(FRESH), at := StartTicket) else s.(at := Resting)
    case StartTicket => s.(at := if ok then StartSending else Resting)
    case StartSending =>
      if ok && s.document.Some? then Sent(s, DocumentStart(s.life), StartWaiting) else s.(at := Resting)
    case StartWaiting => if s.document.None? then s.(at := Resting) else s
    case StopChecking => s.(at := if s.document.None? then Resting else StopSending)
    case StopSending =>
      if ok && s.document.Some? then Sent(s, DocumentStop(s.life), StopWaiting) else s.(at := StopClosing(false))
    case StopWaiting => if s.document.None? then s.(at := StopClosing(false)) else s
    case StopClosing(_) => s.(document := if ok then None else s.document, at := Resting)
    case ReleaseChecking => s.(at := if s.document.None? then Resting else ReleaseAsking)
    case ReleaseAsking =>
      if ok && s.document.Some? then s.(at := if s.document.value.context then Resting else ReleaseClosing(true))
      else s.(at := ReleaseClosing(false))
    case ReleaseClosing(_) => s.(document := if ok then None else s.document, at := Resting)
  }

  /** The document's operation ended; the worker that asked for it resumes if it is still there. */
  function Replied(s: State, d: Document, waiting: WorkerAt, next: WorkerAt): State {
    s.(document := Some(d), at := if s.at == waiting && s.life == d.replyTo then next else s.at)
  }

  function WithDocument(s: State, d: Document): State { s.(document := Some(d)) }

  /** The document takes its next operation; the synchronous part of a teardown runs at once. */
  function Taken(s: State, d: Document): State
    requires s.document == Some(d) && d.queue != []
  {
    var rest := d.(queue := d.queue[1..]);
    match d.queue[0]
    case DocumentStart(life) => WithDocument(s, rest.(stream := None, at := Replacing, replyTo := life))
    case DocumentStop(life) => WithDocument(s, rest.(stream := None, at := Stopping, replyTo := life))
    case SourceEnded(stream) =>
      WithDocument(s, if d.stream == Some(stream) then rest.(stream := None, at := Ending) else rest)
  }

  /** The document resumes after its current await. */
  function DocumentStepped(s: State, ok: bool): State {
    if s.document.None? then s
    else
      var d := s.document.value;
      match d.at
      case Quiet => if d.queue == [] then s else Taken(s, d)
      case Replacing =>
        if ok then WithDocument(s, d.(context := true, at := Acquiring))
        else Replied(s, d.(context := false, at := DocumentAt.Quiet), StartWaiting, Resting)
      case Acquiring =>
        if ok then WithDocument(s, d.(stream := Some(s.nextStream), at := Resuming)).(nextStream := s.nextStream + 1)
        else WithDocument(s, d.(at := Abandoning))
      case Resuming =>
        if ok then Replied(s, d.(at := DocumentAt.Quiet), StartWaiting, Resting)
        else WithDocument(s, d.(stream := None, at := Abandoning))
      case Abandoning => Replied(s, d.(context := false, at := DocumentAt.Quiet), StartWaiting, Resting)
      case Stopping =>
        Replied(s, d.(context := false, at := DocumentAt.Quiet), StopWaiting, StopClosing(true))
      case Ending =>
        WithDocument(s, d.(context := false, at := DocumentAt.Quiet)).(queue := s.queue + if ok then [Release] else [])
  }

  function Next(s: State, event: Event): State {
    match event
    case Request(op) => s.(queue := s.queue + [op])
    case WorkerStep(ok) => WorkerStepped(s, ok)
    case DocumentStep(ok) => DocumentStepped(s, ok)
    case TrackEnds(stream) =>
      if s.document.Some? && s.document.value.stream == Some(stream)
      then WithDocument(s, s.document.value.(queue := s.document.value.queue + [SourceEnded(stream)]))
      else s
    case DocumentDies => s.(document := None)
    case WorkerRestarts => s.(queue := [], at := Resting, life := s.life + 1)
  }

  function Run(s: State, events: seq<Event>): State
    decreases |events|
  {
    if events == [] then s else Run(Next(s, events[0]), events[1..])
  }

  // Starts in the document belong to the worker's current operation.

  function StartsIn(queue: seq<DocumentOp>): nat {
    if queue == [] then 0 else StartsIn(queue[1..]) + if queue[0].DocumentStart? then 1 else 0
  }

  predicate InStart(at: DocumentAt) { at == Replacing || at == Acquiring || at == Resuming || at == Abandoning }

  /** Starts queued or running in the document, whichever worker sent them. */
  function Starts(d: Document): nat { StartsIn(d.queue) + if InStart(d.at) then 1 else 0 }

  ghost predicate Owned(at: WorkerAt, life: nat, d: Document) {
    && Starts(d) == (if at == StartWaiting then 1 else 0)
    && (InStart(d.at) ==> d.replyTo == life)
    && forall k :: 0 <= k < |d.queue| && d.queue[k].DocumentStart? ==> d.queue[k].life == life
  }

  /** The document has no capture and no start under way. */
  predicate NoCapture(d: Document) { !d.context && Starts(d) == 0 }

  /** A stream belongs to a context, and a context to a stream or to a start under way. */
  ghost predicate Consistent(s: State) {
    s.document.Some? ==>
      var d := s.document.value;
      && (d.stream.Some? ==> d.context && d.stream.value < s.nextStream)
      && (d.stream.Some? ==> d.at == DocumentAt.Quiet || d.at == Resuming)
      && (d.at == Acquiring || d.at == Resuming || d.at == Abandoning ==> d.context)
      && (d.at == Resuming || (d.at == DocumentAt.Quiet && d.context) ==> d.stream.Some?)
  }

  ghost predicate Invariant(s: State) {
    && Consistent(s)
    && (s.document.Some? ==> Owned(s.at, s.life, s.document.value))
    && (s.at == StartCreating ==> s.document.None?)
    && ((s.at == ReleaseClosing(true) || s.at == StopClosing(true)) && s.document.Some? ==> NoCapture(s.document.value))
  }

  lemma {:induction false} StartsOfLast(queue: seq<DocumentOp>, op: DocumentOp)
    ensures StartsIn(queue + [op]) == StartsIn(queue) + if op.DocumentStart? then 1 else 0
  {
    if queue == [] {
      assert queue + [op] == [op] && [op][1..] == [];
    } else {
      assert (queue + [op])[1..] == queue[1..] + [op];
      StartsOfLast(queue[1..], op);
    }
  }

  lemma SendingKeeps(s: State, op: DocumentOp, at: WorkerAt)
    requires Invariant(s) && s.document.Some? && s.at != StartWaiting
    requires (at == StopWaiting && op.DocumentStop?) || (at == StartWaiting && op == DocumentStart(s.life))
    ensures Invariant(Sent(s, op, at))
  {
    StartsOfLast(s.document.value.queue, op);
  }

  lemma WorkerStepKeeps(s: State, ok: bool)
    requires Invariant(s)
    ensures Invariant(WorkerStepped(s, ok))
  {
    if s.at == StartSending && ok && s.document.Some? {
      SendingKeeps(s, DocumentStart(s.life), StartWaiting);
    } else if s.at == StopSending && ok && s.document.Some? {
      SendingKeeps(s, DocumentStop(s.life), StopWaiting);
    }
  }

  lemma TakingKeeps(s: State)
    requires Invariant(s) && s.document.Some? && s.document.value.at == DocumentAt.Quiet && s.document.value.queue != []
    ensures Invariant(Taken(s, s.document.value))
  {
    var d := s.document.value;
    assert StartsIn(d.queue) == StartsIn(d.queue[1..]) + if d.queue[0].DocumentStart? then 1 else 0;
  }

  lemma RunningKeeps(s: State, ok: bool)
    requires Invariant(s) && s.document.Some? && s.document.value.at != DocumentAt.Quiet
    ensures Invariant(DocumentStepped(s, ok))
  {
    var d := s.document.value;
    assert Starts(d) == StartsIn(d.queue) + if InStart(d.at) then 1 else 0;
  }

  lemma DocumentStepKeeps(s: State, ok: bool)
    requires Invariant(s)
    ensures Invariant(DocumentStepped(s, ok))
  {
    if s.document.Some? {
      if s.document.value.at == DocumentAt.Quiet {
        if s.document.value.queue != [] {
          TakingKeeps(s);
        }
      } else {
        RunningKeeps(s, ok);
      }
    }
  }

  /** A worker is replaced only while no start is queued or running in the document. */
  predicate Safe(s: State, event: Event) {
    event.WorkerRestarts? && s.document.Some? ==> Starts(s.document.value) == 0
  }

  predicate SafeRun(s: State, events: seq<Event>)
    decreases |events|
  {
    events == [] || (Safe(s, events[0]) && SafeRun(Next(s, events[0]), events[1..]))
  }

  lemma StepKeepsInvariant(s: State, event: Event)
    requires Invariant(s) && Safe(s, event)
    ensures Invariant(Next(s, event))
  {
    match event
    case Request(op) =>
    case WorkerStep(ok) => WorkerStepKeeps(s, ok);
    case DocumentStep(ok) => DocumentStepKeeps(s, ok);
    case TrackEnds(stream) =>
      if s.document.Some? {
        StartsOfLast(s.document.value.queue, SourceEnded(stream));
      }
    case DocumentDies =>
    case WorkerRestarts =>
      if s.document.Some? {
        NoStartsQueued(s.document.value.queue);
      }
  }

  lemma {:induction false} NoStartsQueued(queue: seq<DocumentOp>)
    requires StartsIn(queue) == 0
    ensures forall k :: 0 <= k < |queue| ==> !queue[k].DocumentStart?
  {
    if queue != [] {
      NoStartsQueued(queue[1..]);
      assert queue == [queue[0]] + queue[1..];
    }
  }

  lemma {:induction false} RunKeepsInvariant(s: State, events: seq<Event>)
    requires Invariant(s) && SafeRun(s, events)
    ensures Invariant(Run(s, events))
    decreases |events|
  {
    if events != [] {
      StepKeepsInvariant(s, events[0]);
      RunKeepsInvariant(Next(s, events[0]), events[1..]);
    }
  }

  /**
   * Over every interleaving of starts, stops, ended sources, document deaths and worker restarts that
   * leave no start behind: a release whose query was answered closes only a document without a
   * capture and without a start under way; so does an answered stop; and a document is created only
   * when there is none.
   */
  lemma ReleaseNeverClosesACapture(events: seq<Event>)
    requires SafeRun(START, events)
    ensures var s := Run(START, events);
            && (s.at == ReleaseClosing(true) && s.document.Some? ==> NoCapture(s.document.value))
            && (s.at == StopClosing(true) && s.document.Some? ==> NoCapture(s.document.value))
            && (s.at == StartCreating ==> s.document.None?)
  {
    RunKeepsInvariant(START, events);
  }

  /** A capture that a worker step ends by closing the document was ended by a stop, or by an unanswered query. */
  lemma CapturesEndOnlyByStopOrSilence(events: seq<Event>, ok: bool)
    requires SafeRun(START, events)
    ensures var s := Run(START, events);
            var t := Next(s, WorkerStep(ok));
            s.document.Some? && s.document.value.context && t.document.None? ==>
              s.at == StopClosing(false) || s.at == ReleaseClosing(false)
  {
    RunKeepsInvariant(START, events);
  }

  /** A start is under way in the document exactly while the worker waits for it, and never twice. */
  lemma StartsAreAwaited(events: seq<Event>)
    requires SafeRun(START, events)
    ensures var s := Run(START, events);
            s.document.Some? ==> Starts(s.document.value) == if s.at == StartWaiting then 1 else 0
  {
    RunKeepsInvariant(START, events);
  }

  // What can happen between an answered query and the close, restarts or not.

  lemma StepKeepsConsistent(s: State, event: Event)
    requires Consistent(s)
    ensures Consistent(Next(s, event)) && s.nextStream <= Next(s, event).nextStream
  {
  }

  lemma {:induction false} RunKeepsConsistent(s: State, events: seq<Event>)
    requires Consistent(s)
    ensures Consistent(Run(s, events)) && s.nextStream <= Run(s, events).nextStream
    decreases |events|
  {
    if events != [] {
      StepKeepsConsistent(s, events[0]);
      RunKeepsConsistent(Next(s, events[0]), events[1..]);
    }
  }

  /** The same worker has not resumed yet; anything else may happen. */
  predicate Meanwhile(events: seq<Event>) {
    forall k :: 0 <= k < |events| ==> !events[k].WorkerStep? && !events[k].WorkerRestarts?
  }

  predicate Capturing(s: State) { s.document.Some? && s.document.value.context }

  /** About to close by an answered release, with a capture that began in the meantime. */
  ghost predicate CanCloseACapture(s: State) {
    exists events :: Meanwhile(events) && AboutToClose(Run(s, events))
  }

  predicate AboutToClose(s: State) { s.at == ReleaseClosing(true) && Capturing(s) }

  predicate Idle(s: State) { s.document.None? || NoCapture(s.document.value) }

  lemma StepStaysIdle(s: State, event: Event)
    requires Idle(s) && !event.WorkerStep? && !event.WorkerRestarts?
    ensures Idle(Next(s, event))
  {
    if event.TrackEnds? && s.document.Some? {
      StartsOfLast(s.document.value.queue, SourceEnded(event.stream));
    }
  }

  lemma {:induction false} RunStaysIdle(s: State, events: seq<Event>)
    requires Idle(s) && Meanwhile(events)
    ensures Idle(Run(s, events))
    decreases |events|
  {
    if events != [] {
      StepStaysIdle(s, events[0]);
      RunStaysIdle(Next(s, events[0]), events[1..]);
    }
  }

  lemma FirstOfMeanwhile(s: State, event: Event)
    requires !event.WorkerStep? && !event.WorkerRestarts? && CanCloseACapture(Next(s, event))
    ensures CanCloseACapture(s)
  {
    var events :| Meanwhile(events) && AboutToClose(Run(Next(s, event), events));
    assert ([event] + events)[1..] == events;
    assert Meanwhile([event] + events) && AboutToClose(Run(s, [event] + events));
  }

  lemma AlreadyThere(s: State)
    requires AboutToClose(s)
    ensures CanCloseACapture(s)
  {
    assert Meanwhile([]) && AboutToClose(Run(s, []));
  }

  /** Bounds the steps until the queue is taken up. */
  function StepsLeft(d: Document): nat { 2 * |d.queue| + if d.at == DocumentAt.Quiet then 0 else 1 }

  /** A document with a start in it reaches a capture by its own steps. */
  lemma {:induction false} StartComesToCapture(s: State)
    requires Consistent(s) && s.document.Some? && Starts(s.document.value) > 0 && s.at == ReleaseClosing(true)
    ensures CanCloseACapture(s)
    decreases StepsLeft(s.document.value)
  {
    if s.document.value.context {
      AlreadyThere(s);
    } else {
      var t := Next(s, DocumentStep(true));
      StepKeepsConsistent(s, DocumentStep(true));
      if s.document.value.at == Replacing {
        AlreadyThere(t);
      } else {
        StartComesToCapture(t);
      }
      FirstOfMeanwhile(s, DocumentStep(true));
    }
  }

  /**
   * After any run at all, an answered release query can be followed by closing a capture exactly
   * when, at the answer, the document reports no capture but has a start in it.
   */
  lemma AnsweredReleaseIsUnsafeExactly(before: seq<Event>)
    ensures var s := Run(START, before);
            s.at == ReleaseAsking && s.document.Some? ==>
              (CanCloseACapture(Next(s, WorkerStep(true)))
               <==> !s.document.value.context && Starts(s.document.value) > 0)
  {
    var s := Run(START, before);
    RunKeepsConsistent(START, before);
    if s.at == ReleaseAsking && s.document.Some? {
      var t := Next(s, WorkerStep(true));
      if s.document.value.context {
        forall events | Meanwhile(events) ensures !AboutToClose(Run(t, events)) {
          WorkerStays(t, events);
        }
      } else if Starts(s.document.value) > 0 {
        StartComesToCapture(t);
      } else {
        forall events | Meanwhile(events) ensures !AboutToClose(Run(t, events)) {
          RunStaysIdle(t, events);
        }
      }
    }
  }

  /** Without a step of the worker, it is not moved to a close it has not decided on. */
  lemma {:induction false} WorkerStays(s: State, events: seq<Event>)
    requires s.at == Resting && Meanwhile(events)
    ensures Run(s, events).at == Resting
    decreases |events|
  {
    if events != [] {
      WorkerStays(Next(s, events[0]), events[1..]);
    }
  }

  predicate Playing(s: State, stream: StreamId) {
    s.document.Some? && s.document.value.stream == Some(stream)
  }

  lemma StepKeepsOver(s: State, event: Event, stream: StreamId)
    requires stream < s.nextStream && !Playing(s, stream)
    ensures stream < Next(s, event).nextStream && !Playing(Next(s, event), stream)
  {
  }

  /**
   * A stream that is over never plays again, so its queued source-ended operation is taken without
   * touching the capture that replaced it.
   */
  lemma {:induction false} EndedSourceSparesLaterCaptures(s: State, events: seq<Event>, stream: StreamId, ok: bool)
    requires stream < s.nextStream && !Playing(s, stream)
    ensures var t := Run(s, events);
            && !Playing(t, stream)
            && (t.document.Some? && t.document.value.at == DocumentAt.Quiet
                && t.document.value.queue != [] && t.document.value.queue[0] == SourceEnded(stream) ==>
                  Next(t, DocumentStep(ok)) == WithDocument(t, t.document.value.(queue := t.document.value.queue[1..])))
    decreases |events|
  {
    if events != [] {
      StepKeepsOver(s, events[0], stream);
      EndedSourceSparesLaterCaptures(Next(s, events[0]), events[1..], stream, ok);
    }
  }

  // A worker that is replaced too early: its queue does not survive a restart, the document's does.

  lemma {:induction false} RunBoth(s: State, first: seq<Event>, second: seq<Event>)
    ensures Run(s, first + second) == Run(Run(s, first), second)
    decreases |first|
  {
    if first == [] {
      assert first + second == second;
    } else {
      assert (first + second)[1..] == first[1..] + second;
      RunBoth(Next(s, first[0]), first[1..], second);
    }
  }

  lemma RunThree(s: State, a: Event, b: Event, c: Event)
    ensures Run(s, [a, b, c]) == Next(Next(Next(s, a), b), c)
  {
    assert [a, b, c][1..] == [b, c] && [b, c][1..] == [c] && [c][1..] == [];
    assert Run(s, [a, b, c]) == Run(Next(s, a), [b, c]);
    assert Run(Next(s, a), [b, c]) == Run(Next(Next(s, a), b), [c]);
    assert Run(Next(Next(s, a), b), [c]) == Run(Next(Next(Next(s, a), b), c), []);
  }

  const WAKES: Event := WorkerStep(true)

  /** A start reaches the document, which has not taken it up yet. */
  const STARTED: seq<Event> := [Request(Start), WAKES, WAKES] + [WAKES, WAKES, WAKES]

  /** The worker is replaced, and the new one handles a release; meanwhile the document starts. */
  const ORPHANED: seq<Event> := [WorkerRestarts, Request(Release), WAKES] + [WAKES, WAKES, DocumentStep(true)]

  const QUEUED: Document := FRESH.(queue := [DocumentStart(0)])

  lemma StartIsQueued()
    ensures Run(START, STARTED) == State([], StartWaiting, 0, Some(QUEUED), 0)
  {
    RunBoth(START, [Request(Start), WAKES, WAKES], [WAKES, WAKES, WAKES]);
    RunThree(START, Request(Start), WAKES, WAKES);
    var s := State([], StartCreating, 0, None, 0);
    assert Next(Next(Next(START, Request(Start)), WAKES), WAKES) == s;
    RunThree(s, WAKES, WAKES, WAKES);
    assert [] + [DocumentStart(0)] == [DocumentStart(0)];
  }

  lemma ReplacedWorkerChecks()
    ensures Run(State([], StartWaiting, 0, Some(QUEUED), 0), [WorkerRestarts, Request(Release), WAKES])
            == State([], ReleaseChecking, 1, Some(QUEUED), 0)
  {
    RunThree(State([], StartWaiting, 0, Some(QUEUED), 0), WorkerRestarts, Request(Release), WAKES);
  }

  lemma ReplacedWorkerAsks()
    ensures Run(State([], ReleaseChecking, 1, Some(QUEUED), 0), [WAKES, WAKES, DocumentStep(true)])
            == State([], ReleaseClosing(true), 1, Some(Document([], Replacing, 0, false, None)), 0)
  {
    RunThree(State([], ReleaseChecking, 1, Some(QUEUED), 0), WAKES, WAKES, DocumentStep(true));
    assert QUEUED.queue[1..] == [];
  }

  /** With the worker replaced in between, an answered release is about to close a document that is capturing. */
  lemma RestartedWorkerClosesAStartingCapture()
    ensures var s := Next(Run(Run(START, STARTED), ORPHANED), DocumentStep(true));
            s.at == ReleaseClosing(true) && s.document.Some? && s.document.value.context
  {
    StartIsQueued();
    ReplacedWorkerChecks();
    ReplacedWorkerAsks();
    RunBoth(State([], StartWaiting, 0, Some(QUEUED), 0), [WorkerRestarts, Request(Release), WAKES],
            [WAKES, WAKES, DocumentStep(true)]);
  }
}
