/** The offscreen document's bridge socket: reconnecting with a bounded backoff across captures. */
module TabBridge {
  import opened Wrappers

  const RETRY_MAX_ATTEMPTS: nat := 10
  const RETRY_BASE_MS: nat := 1000
  const RETRY_CAP_MS: nat := 15000
  const MAX_SOCKETS: nat := 11
  const MAX_WAIT_MS: nat := 105000

  type SocketId = nat
  type TimerId = nat

  /** Where the serial lifecycle queue stands inside a start; other operations run only when quiet. */
  datatype Phase = Quiet | Starting | Acquiring | Resuming

  /**
   * The module's variables, and beside them what the browser holds: the sockets that were neither
   * closed nor reported closed, and the timers that are still to fire. `tries`, `waitedMs` and
   * `abandoned` only record: the sockets tried and the retry delays set since the capture began, a
   * socket opened or a manual retry was taken, the open or kept socket included, and whether its start
   * failed before anything that would undo it was in place, with no manual retry since.
   */
  datatype State = State(
    phase: Phase,
    capturing: bool,
    bridge: Option<SocketId>,
    connected: bool,
    timer: Option<TimerId>,
    attempt: nat,
    exhausted: bool,
    heartbeat: bool,
    nextSocket: SocketId,
    nextTimer: TimerId,
    liveSockets: set<SocketId>,
    pendingTimers: set<TimerId>,
    tries: nat,
    waitedMs: nat,
    abandoned: bool)

  const START: State := State(Quiet, false, None, false, None, 0, false, false, 0, 0, {}, {}, 0, 0, false)

  /**
   * `created` says whether the socket constructor returned or threw, where one may be called, and
   * `constructed` the same of the audio context's.
   */
  datatype Event =
    | StartRequested
    | CaptureBegins(constructed: bool)
    | StreamAcquired(created: bool)
    | Resumed
    | StartFails
    | Stops
    | SocketOpens(socket: SocketId)
    | SocketCloses(socket: SocketId)
    | TimerFires(timer: TimerId, created: bool)
    | ManualRetry(created: bool)

  datatype Reconnect = Idle | Waiting | Retrying | Connected | Exhausted

  function ReconnectState(s: State): Reconnect {
    if s.connected then Connected
    else if !s.capturing then Idle
    else if s.timer.Some? then Waiting
    else if s.exhausted then Exhausted
    else Retrying
  }

  function PowerOfTwo(n: nat): nat { if n == 0 then 1 else 2 * PowerOfTwo(n - 1) }

  /** Delay before the retry after `attempt` earlier ones. */
  function DelayMs(attempt: nat): nat {
    var doubled := RETRY_BASE_MS * PowerOfTwo(attempt);
    if doubled < RETRY_CAP_MS then doubled else RETRY_CAP_MS
  }

  function TotalDelayMs(attempts: nat): nat {
    if attempts == 0 then 0 else TotalDelayMs(attempts - 1) + DelayMs(attempts - 1)
  }

  function RetryScheduled(s: State): State {
    if !s.capturing || s.timer.Some? then s
    else if s.attempt >= RETRY_MAX_ATTEMPTS then s.(exhausted := true)
    else
      s.(exhausted := false, attempt := s.attempt + 1, timer := Some(s.nextTimer), nextTimer := s.nextTimer + 1,
         pendingTimers := s.pendingTimers + {s.nextTimer}, waitedMs := s.waitedMs + DelayMs(s.attempt))
  }

  function RetryCancelled(s: State): State {
    s.(pendingTimers := if s.timer.Some? then s.pendingTimers - {s.timer.value} else s.pendingTimers,
       timer := None, attempt := 0, exhausted := false)
  }

  function BridgeConnecting(s: State, created: bool): State {
    if !s.capturing || s.bridge.Some? then s
    else if created then
      s.(bridge := Some(s.nextSocket), nextSocket := s.nextSocket + 1, liveSockets := s.liveSockets + {s.nextSocket},
         tries := s.tries + 1)
    else RetryScheduled(s.(tries := s.tries + 1))
  }

  function TornDown(s: State): State {
    RetryCancelled(s).(capturing := false, heartbeat := false, connected := false, bridge := None, abandoned := false,
      liveSockets := if s.bridge.Some? then s.liveSockets - {s.bridge.value} else s.liveSockets)
  }

  function Opened(s: State, socket: SocketId): State {
    if s.bridge != Some(socket) || !s.capturing then s
    else s.(attempt := 0, heartbeat := true, connected := true, tries := 1, waitedMs := 0)
  }

  function Closed(s: State, socket: SocketId): State {
    var t := s.(liveSockets := s.liveSockets - {socket});
    if s.bridge != Some(socket) || !s.capturing then t
    else RetryScheduled(t.(bridge := None, connected := false, heartbeat := true))
  }

  function Fired(s: State, timer: TimerId, created: bool): State {
    if timer !in s.pendingTimers then s
    else BridgeConnecting(s.(pendingTimers := s.pendingTimers - {timer}, timer := None), created)
  }

  /** A manual retry starts the backoff over. */
  function RetryForced(s: State): State {
    RetryCancelled(s).(tries := if s.bridge.Some? then 1 else 0, waitedMs := 0, abandoned := false)
  }

  function Retried(s: State, created: bool): State {
    if !s.capturing || s.connected then s
    else BridgeConnecting(RetryForced(s), created)
  }

  /** Steps of the lifecycle queue that do not fit its phase cannot happen and change nothing. */
  function Next(s: State, event: Event): State {
    match event
    case StartRequested => if s.phase == Quiet then TornDown(s).(phase := Starting) else s
    case CaptureBegins(constructed) =>
      if s.phase == Starting
      then s.(phase := if constructed then Acquiring else Quiet, abandoned := !constructed,
              capturing := true, tries := 0, waitedMs := 0)
      else s
    case StreamAcquired(created) => if s.phase == Acquiring then BridgeConnecting(s, created).(phase := Resuming) else s
    case Resumed => if s.phase == Resuming then s.(phase := Quiet) else s
    case StartFails =>
      if s.phase == Acquiring || s.phase == Resuming then TornDown(s).(phase := Quiet) else s
    case Stops => if s.phase == Quiet then TornDown(s) else s
    case SocketOpens(socket) => Opened(s, socket)
    case SocketCloses(socket) => Closed(s, socket)
    case TimerFires(timer, created) => Fired(s, timer, created)
    case ManualRetry(created) => Retried(s, created)
  }

  function Run(s: State, events: seq<Event>): State
    decreases |events|
  {
    if events == [] then s else Run(Next(s, events[0]), events[1..])
  }

  // What every run keeps.

  function Singleton(id: Option<nat>): set<nat> { if id.Some? then {id.value} else {} }

  /** The browser holds exactly the timer and the socket the variables know of. */
  ghost predicate OneOfEach(s: State) {
    && s.pendingTimers == Singleton(s.timer) && s.liveSockets == Singleton(s.bridge)
    && (s.bridge.Some? ==> s.bridge.value < s.nextSocket) && (s.timer.Some? ==> s.timer.value < s.nextTimer)
  }

  ghost predicate Settled(s: State) {
    && s.attempt <= RETRY_MAX_ATTEMPTS
    && (!s.capturing ==> s.bridge.None? && s.timer.None? && !s.heartbeat && s.attempt == 0 && !s.exhausted)
    && (s.phase == Starting ==> !s.capturing) && (s.phase == Acquiring || s.phase == Resuming ==> s.capturing)
    && (s.connected ==> s.bridge.Some? && s.heartbeat)
    && (s.exhausted ==> s.timer.None?)
    && (s.abandoned ==> s.capturing && s.phase == Quiet)
  }

  /** A socket is connecting or open, a retry is due, or retries are exhausted. */
  predicate Progressing(s: State) { s.bridge.Some? || s.timer.Some? || s.exhausted }

  /** A capture that was acquired is stuck exactly when its start was abandoned. */
  ghost predicate StuckExactly(s: State) {
    s.capturing && s.phase != Acquiring ==> (Progressing(s) <==> !s.abandoned)
  }

  function PendingRetry(s: State): nat { if s.timer.Some? then 1 else 0 }

  /**
   * Each retry is one delay and at most one socket. Attaching the stream connects once more, also when
   * a manual retry during the acquisition has connected before.
   */
  ghost predicate WithinBudget(s: State) {
    s.capturing ==>
      && s.waitedMs == TotalDelayMs(s.attempt)
      && (s.tries == 0 ==> s.attempt == 0 && s.timer.None? && s.bridge.None?)
      && (s.phase == Acquiring && s.timer.Some? ==> s.bridge.None?)
      && s.tries + PendingRetry(s) <= (if s.phase == Acquiring then 1 else 2) + s.attempt
  }

  ghost predicate Invariant(s: State) { OneOfEach(s) && Settled(s) && StuckExactly(s) && WithinBudget(s) }

  /** Scheduling keeps the rest, and is due, pending or given up afterwards. */
  lemma SchedulingKeeps(s: State)
    requires OneOfEach(s) && Settled(s) && s.capturing && s.bridge.None?
    ensures var t := RetryScheduled(s);
            && OneOfEach(t) && Settled(t) && (t.timer.Some? || t.exhausted)
            && t.phase == s.phase && t.capturing && t.bridge.None? && t.tries == s.tries
            && t.connected == s.connected && t.abandoned == s.abandoned
            && (s.waitedMs == TotalDelayMs(s.attempt) ==> t.waitedMs == TotalDelayMs(t.attempt))
            && t.attempt == s.attempt + (if s.timer.None? && t.timer.Some? then 1 else 0)
  {
  }

  /** Connecting uses one attempt of the budget, whether or not the constructor throws. */
  lemma ConnectingKeeps(s: State, created: bool)
    requires OneOfEach(s) && Settled(s) && s.capturing && s.bridge.None? && !s.abandoned
    requires s.waitedMs == TotalDelayMs(s.attempt) && (s.phase == Acquiring ==> s.timer.None?)
    requires s.tries + PendingRetry(s) < (if s.phase == Acquiring then 1 else 2) + s.attempt
    ensures Invariant(BridgeConnecting(s, created))
  {
    if !created {
      SchedulingKeeps(s.(tries := s.tries + 1));
    }
  }

  lemma TearingDownKeeps(s: State)
    requires Invariant(s)
    ensures Invariant(TornDown(s).(phase := Starting)) && Invariant(TornDown(s).(phase := Quiet))
  {
  }

  lemma ClosingKeeps(s: State, socket: SocketId)
    requires Invariant(s)
    ensures Invariant(Closed(s, socket))
  {
    if s.bridge == Some(socket) && s.capturing {
      SchedulingKeeps(s.(liveSockets := s.liveSockets - {socket}, bridge := None, connected := false,
                         heartbeat := true));
    }
  }

  lemma FiringKeeps(s: State, timer: TimerId, created: bool)
    requires Invariant(s)
    ensures Invariant(Fired(s, timer, created))
  {
    var t := s.(pendingTimers := s.pendingTimers - {timer}, timer := None);
    if timer in s.pendingTimers && s.capturing && s.bridge.None? {
      ConnectingKeeps(t, created);
    }
  }

  lemma RetryingKeeps(s: State, created: bool)
    requires Invariant(s)
    ensures Invariant(Retried(s, created))
  {
    if s.capturing && !s.connected && s.bridge.None? {
      ConnectingKeeps(RetryForced(s), created);
    }
  }

  /** The stream is attached: one more connection, whatever a manual retry did before. */
  lemma AttachingKeeps(s: State, created: bool)
    requires Invariant(s) && s.phase == Acquiring
    ensures Invariant(BridgeConnecting(s, created).(phase := Resuming))
  {
    if s.bridge.None? {
      ConnectingKeeps(s.(phase := Resuming), created);
      assert BridgeConnecting(s, created).(phase := Resuming) == BridgeConnecting(s.(phase := Resuming), created);
    }
  }

  lemma StepKeepsInvariant(s: State, event: Event)
    requires Invariant(s)
    ensures Invariant(Next(s, event))
  {
    match event
    case StartRequested => TearingDownKeeps(s);
    case CaptureBegins(_) =>
    case StreamAcquired(created) =>
      if s.phase == Acquiring {
        AttachingKeeps(s, created);
      }
    case Resumed =>
    case StartFails => TearingDownKeeps(s);
    case Stops => TearingDownKeeps(s);
    case SocketOpens(socket) =>
    case SocketCloses(socket) => ClosingKeeps(s, socket);
    case TimerFires(timer, created) => FiringKeeps(s, timer, created);
    case ManualRetry(created) => RetryingKeeps(s, created);
  }

  lemma {:induction false} RunKeepsInvariant(s: State, events: seq<Event>)
    requires Invariant(s)
    ensures Invariant(Run(s, events))
    decreases |events|
  {
    if events != [] {
      StepKeepsInvariant(s, events[0]);
      RunKeepsInvariant(Next(s, events[0]), events[1..]);
    }
  }

  /**
   * In every run there is at most one pending timer and one live socket, exhaustion leaves no
   * timer, and a capture past its acquisition that shows neither connected nor waiting nor exhausted
   * has a socket unless its start was abandoned.
   */
  lemma EveryRunIsOrderly(events: seq<Event>)
    ensures var s := Run(START, events);
            && |s.pendingTimers| <= 1 && |s.liveSockets| <= 1
            && (s.exhausted ==> s.pendingTimers == {})
            && (ReconnectState(s) == Waiting ==> s.pendingTimers == {s.timer.value})
            && (ReconnectState(s) == Retrying && s.phase != Acquiring ==> (s.liveSockets != {} <==> !s.abandoned))
            && (s.abandoned ==> ReconnectState(s) == Retrying && s.liveSockets == {} && s.pendingTimers == {})
            && (!s.capturing ==> s.pendingTimers == {} && s.liveSockets == {} && !s.heartbeat)
  {
    RunKeepsInvariant(START, events);
  }

  /** Which starts are abandoned: the last one whose context could not be constructed, until a user acts. */
  predicate AbandonedBy(s: State, events: seq<Event>, abandoned: bool)
    decreases |events|
  {
    if events == [] then abandoned
    else
      var e := events[0];
      AbandonedBy(Next(s, e), events[1..],
                  if e.CaptureBegins? && s.phase == Starting then !e.constructed
                  else if UserActs(s, e) then false
                  else abandoned)
  }

  /** A new start, a stop, a failed start or a manual retry that is taken. */
  predicate UserActs(s: State, e: Event) {
    || ((e.StartRequested? || e.Stops?) && s.phase == Quiet)
    || (e.StartFails? && (s.phase == Acquiring || s.phase == Resuming))
    || (e.ManualRetry? && s.capturing && !s.connected)
  }

  lemma ConnectingKeepsAbandoned(s: State, created: bool)
    ensures BridgeConnecting(s, created).abandoned == s.abandoned
  {
  }

  lemma StepAbandons(s: State, e: Event)
    ensures Next(s, e).abandoned
            == if e.CaptureBegins? && s.phase == Starting then !e.constructed
               else if UserActs(s, e) then false
               else s.abandoned
  {
    if e.TimerFires? {
      ConnectingKeepsAbandoned(s.(pendingTimers := s.pendingTimers - {e.timer}, timer := None), e.created);
    } else if e.StreamAcquired? {
      ConnectingKeepsAbandoned(s, e.created);
    } else if e.ManualRetry? {
      ConnectingKeepsAbandoned(RetryForced(s), e.created);
    }
  }

  lemma {:induction false} AbandonedMeans(s: State, events: seq<Event>)
    ensures Run(s, events).abandoned == AbandonedBy(s, events, s.abandoned)
    decreases |events|
  {
    if events != [] {
      StepAbandons(s, events[0]);
      AbandonedMeans(Next(s, events[0]), events[1..]);
    }
  }

  /**
   * The exact condition: a capture past its acquisition has a socket, a due retry or exhausted retries
   * if and only if its start was not the last to fail in the context's constructor, untouched since.
   */
  lemma ProgressesExactly(events: seq<Event>)
    ensures var s := Run(START, events);
            s.capturing && s.phase != Acquiring ==> (Progressing(s) <==> !AbandonedBy(START, events, false))
  {
    RunKeepsInvariant(START, events);
    AbandonedMeans(START, events);
  }

  lemma StepStaysAbandoned(s: State, event: Event)
    requires Invariant(s) && s.abandoned && !UserActs(s, event)
    ensures Next(s, event) == s
  {
  }

  /** Once abandoned, nothing but a user's action changes anything: the reported bridge state stays retrying. */
  lemma {:induction false} AbandonedStartIsStuck(events: seq<Event>)
    requires forall k :: 0 <= k < |events| ==>
               !events[k].StartRequested? && !events[k].Stops? && !events[k].ManualRetry?
    ensures var failed := Run(START, [StartRequested, CaptureBegins(false)]);
            && Run(failed, events) == failed && ReconnectState(failed) == Retrying
            && failed.liveSockets == {} && failed.pendingTimers == {}
    decreases |events|
  {
    RunKeepsInvariant(START, [StartRequested, CaptureBegins(false)]);
    assert [StartRequested, CaptureBegins(false)][1..] == [CaptureBegins(false)];
    var failed := Next(Next(START, StartRequested), CaptureBegins(false));
    assert Run(START, [StartRequested, CaptureBegins(false)]) == failed;
    if events != [] {
      StepStaysAbandoned(failed, events[0]);
      AbandonedStartIsStuck(events[1..]);
    }
  }

  lemma {:induction false} DelaysAdd(attempts: nat, more: nat)
    requires attempts <= more
    ensures TotalDelayMs(attempts) <= TotalDelayMs(more)
  {
    if attempts < more {
      DelaysAdd(attempts, more - 1);
    }
  }

  lemma TenDelays()
    ensures TotalDelayMs(RETRY_MAX_ATTEMPTS) == MAX_WAIT_MS
  {
    assert PowerOfTwo(4) == 16 && PowerOfTwo(5) == 32 && PowerOfTwo(6) == 64;
    assert PowerOfTwo(7) == 128 && PowerOfTwo(8) == 256 && PowerOfTwo(9) == 512;
    assert TotalDelayMs(5) == 30000;
    assert TotalDelayMs(10) == TotalDelayMs(5) + 75000;
  }

  /** No manual retry is taken while the stream is being acquired. */
  predicate RetriesWait(s: State, events: seq<Event>)
    decreases |events|
  {
    events == [] || ((events[0].ManualRetry? ==> s.phase != Acquiring) && RetriesWait(Next(s, events[0]), events[1..]))
  }

  /** Attaching the stream is then the first connection of its capture. */
  ghost predicate WithinElevenSockets(s: State) {
    s.capturing ==>
      && (s.phase == Acquiring ==> s.tries == 0) && (s.timer.Some? ==> s.bridge.None?)
      && s.tries + PendingRetry(s) <= 1 + s.attempt
  }

  lemma ConnectingStaysWithin(s: State, created: bool)
    requires s.phase != Acquiring && s.bridge.None? && s.timer.None? && s.tries <= s.attempt
    ensures WithinElevenSockets(BridgeConnecting(s, created))
  {
  }

  lemma StepStaysWithin(s: State, event: Event)
    requires Invariant(s) && WithinElevenSockets(s) && (event.ManualRetry? ==> s.phase != Acquiring)
    ensures WithinElevenSockets(Next(s, event))
  {
    match event
    case StreamAcquired(created) =>
      if s.phase == Acquiring {
        ConnectingStaysWithin(s.(phase := Resuming), created);
        assert BridgeConnecting(s, created).(phase := Resuming) == BridgeConnecting(s.(phase := Resuming), created);
      }
    case TimerFires(timer, created) =>
      if timer in s.pendingTimers && s.capturing {
        ConnectingStaysWithin(s.(pendingTimers := s.pendingTimers - {timer}, timer := None), created);
      }
    case ManualRetry(created) =>
      if s.capturing && !s.connected && s.bridge.None? {
        ConnectingStaysWithin(RetryForced(s), created);
      }
    case _ =>
  }

  lemma {:induction false} RunStaysWithin(s: State, events: seq<Event>)
    requires Invariant(s) && WithinElevenSockets(s) && RetriesWait(s, events)
    ensures WithinElevenSockets(Run(s, events))
    decreases |events|
  {
    if events != [] {
      StepKeepsInvariant(s, events[0]);
      StepStaysWithin(s, events[0]);
      RunStaysWithin(Next(s, events[0]), events[1..]);
    }
  }

  /**
   * In every run, since the capture began, a socket opened or a manual retry was taken: retry delays of
   * at most 105 s, and at most 11 sockets, or 12 when a manual retry was taken during an acquisition.
   */
  lemma BackoffIsBounded(events: seq<Event>)
    ensures var s := Run(START, events);
            s.capturing ==>
              && s.waitedMs <= MAX_WAIT_MS && s.tries <= MAX_SOCKETS + 1
              && (RetriesWait(START, events) ==> s.tries <= MAX_SOCKETS)
  {
    RunKeepsInvariant(START, events);
    if RetriesWait(START, events) {
      RunStaysWithin(START, events);
    }
    var s := Run(START, events);
    DelaysAdd(if s.attempt <= RETRY_MAX_ATTEMPTS then s.attempt else 0, RETRY_MAX_ATTEMPTS);
    TenDelays();
  }

  /** A bridge that opened and closes is retried after the first delay, however long the backoff had grown. */
  lemma OpenStartsTheBackoffOver(s: State, socket: SocketId)
    requires Invariant(s) && s.capturing && s.bridge == Some(socket) && s.timer.None?
    ensures ReconnectState(Next(s, SocketOpens(socket))) == Connected && Next(s, SocketOpens(socket)).heartbeat
    ensures Next(s, SocketCloses(socket)).heartbeat
    ensures var t := Next(Next(s, SocketOpens(socket)), SocketCloses(socket));
            && t.timer.Some? && t.attempt == 1 && !t.exhausted && t.waitedMs == RETRY_BASE_MS
            && ReconnectState(t) == Waiting && t.bridge.None? && t.liveSockets == {}
  {
    assert DelayMs(0) == RETRY_BASE_MS;
  }

  lemma RunFour(s: State, a: Event, b: Event, c: Event, d: Event)
    ensures Run(s, [a, b, c, d]) == Next(Next(Next(Next(s, a), b), c), d)
  {
    assert [a, b, c, d][1..] == [b, c, d] && [b, c, d][1..] == [c, d] && [c, d][1..] == [d] && [d][1..] == [];
    assert Run(s, [a, b, c, d]) == Run(Next(s, a), [b, c, d]);
    assert Run(Next(s, a), [b, c, d]) == Run(Next(Next(s, a), b), [c, d]);
    assert Run(Next(Next(s, a), b), [c, d]) == Run(Next(Next(Next(s, a), b), c), [d]);
  }

  /** A start that goes well leaves its one socket connecting, or a first retry due, and a stop then leaves nothing. */
  lemma StartsAndStops(s: State, created: bool)
    requires Invariant(s) && s.phase == Quiet
    ensures var t := Run(s, [StartRequested, CaptureBegins(true), StreamAcquired(created), Resumed]);
            && t.phase == Quiet && t.capturing && !t.connected && !t.abandoned && t.tries == 1
            && (if created
                then t.bridge == Some(s.nextSocket) && t.liveSockets == {s.nextSocket} && t.pendingTimers == {}
                else t.liveSockets == {} && t.pendingTimers == {s.nextTimer} && t.attempt == 1)
            && var u := Next(t, Stops);
               && u.phase == Quiet && ReconnectState(u) == Idle
               && u.liveSockets == {} && u.pendingTimers == {} && !u.heartbeat
  {
    RunFour(s, StartRequested, CaptureBegins(true), StreamAcquired(created), Resumed);
  }

  /** A manual retry starts it over too: it connects at once, and the first failure after it waits the first delay. */
  lemma ManualRetryStartsTheBackoffOver(s: State)
    requires Invariant(s) && s.capturing && !s.connected && s.bridge.None?
    ensures var t := Next(s, ManualRetry(true));
            && t.bridge == Some(s.nextSocket) && t.timer.None? && !t.exhausted
            && var u := Next(t, SocketCloses(s.nextSocket));
               u.timer.Some? && u.attempt == 1 && u.waitedMs == RETRY_BASE_MS && ReconnectState(u) == Waiting
    ensures var t := Next(s, ManualRetry(false));
            t.bridge.None? && t.timer.Some? && t.attempt == 1 && t.waitedMs == RETRY_BASE_MS
  {
    assert DelayMs(0) == RETRY_BASE_MS;
  }

  // Events of sockets that are no longer the current one.

  lemma StaleEventsChangeNothing(s: State, socket: SocketId)
    requires Invariant(s) && s.bridge != Some(socket)
    ensures Next(s, SocketOpens(socket)) == s && Next(s, SocketCloses(socket)) == s
  {
  }

  lemma ConnectingKeepsStale(s: State, created: bool, socket: SocketId)
    requires socket < s.nextSocket && s.bridge != Some(socket)
    ensures var t := BridgeConnecting(s, created);
            socket < t.nextSocket && t.bridge != Some(socket)
  {
  }

  lemma StepKeepsStale(s: State, event: Event, socket: SocketId)
    requires socket < s.nextSocket && s.bridge != Some(socket)
    ensures socket < Next(s, event).nextSocket && Next(s, event).bridge != Some(socket)
  {
    match event
    case StartRequested =>
    case CaptureBegins(_) =>
    case StreamAcquired(created) => ConnectingKeepsStale(s, created, socket);
    case Resumed =>
    case StartFails =>
    case Stops =>
    case SocketOpens(_) =>
    case SocketCloses(_) =>
    case TimerFires(timer, created) =>
      ConnectingKeepsStale(s.(pendingTimers := s.pendingTimers - {timer}, timer := None), created, socket);
    case ManualRetry(created) =>
      ConnectingKeepsStale(RetryForced(s), created, socket);
  }

  /** A socket that was replaced or torn down never becomes current again, so none of its events counts. */
  lemma {:induction false} StaleForever(s: State, events: seq<Event>, socket: SocketId)
    requires Invariant(s) && socket < s.nextSocket && s.bridge != Some(socket)
    ensures var t := Run(s, events);
            && t.bridge != Some(socket)
            && Next(t, SocketOpens(socket)) == t && Next(t, SocketCloses(socket)) == t
    decreases |events|
  {
    if events == [] {
      StaleEventsChangeNothing(s, socket);
    } else {
      StepKeepsInvariant(s, events[0]);
      StepKeepsStale(s, events[0], socket);
      StaleForever(Next(s, events[0]), events[1..], socket);
    }
  }

  // The bound is reached: a bridge that never answers.

  lemma {:induction false} RunOneMore(s: State, events: seq<Event>, event: Event)
    ensures Run(s, events + [event]) == Next(Run(s, events), event)
    decreases |events|
  {
    if events == [] {
      assert events + [event] == [event] && [event][1..] == [];
    } else {
      assert (events + [event])[1..] == events[1..] + [event];
      RunOneMore(Next(s, events[0]), events[1..], event);
    }
  }

  /** A socket was created and has not answered yet; the next ids are these. */
  predicate Silent(s: State, socket: SocketId, timer: TimerId, attempt: nat, tries: nat) {
    && s.phase == Resuming && s.capturing && s.bridge == Some(socket) && s.timer.None?
    && s.nextSocket == socket + 1 && s.nextTimer == timer && s.attempt == attempt && s.tries == tries
  }

  /** After these events every socket closes without opening, through `retries` retries. */
  function Unanswered(first: seq<Event>, socket: SocketId, timer: TimerId, retries: nat): seq<Event> {
    if retries == 0 then first
    else
      Unanswered(first, socket, timer, retries - 1)
      + [SocketCloses(socket + retries - 1)] + [TimerFires(timer + retries - 1, true)]
  }

  lemma SilentTurn(s: State, socket: SocketId, timer: TimerId, attempt: nat, tries: nat)
    requires Silent(s, socket, timer, attempt, tries) && attempt < RETRY_MAX_ATTEMPTS
    ensures Silent(Next(Next(s, SocketCloses(socket)), TimerFires(timer, true)), socket + 1, timer + 1, attempt + 1,
                   tries + 1)
  {
  }

  lemma {:induction false} UnansweredRun(first: seq<Event>, socket: SocketId, timer: TimerId, attempt: nat, tries: nat,
                                         retries: nat)
    requires Silent(Run(START, first), socket, timer, attempt, tries) && attempt + retries <= RETRY_MAX_ATTEMPTS
    ensures Silent(Run(START, Unanswered(first, socket, timer, retries)),
                   socket + retries, timer + retries, attempt + retries, tries + retries)
  {
    if retries > 0 {
      var events := Unanswered(first, socket, timer, retries - 1);
      var close := SocketCloses(socket + retries - 1);
      UnansweredRun(first, socket, timer, attempt, tries, retries - 1);
      RunOneMore(START, events, close);
      RunOneMore(START, events + [close], TimerFires(timer + retries - 1, true));
      SilentTurn(Run(START, events), socket + retries - 1, timer + retries - 1, attempt + retries - 1,
                 tries + retries - 1);
    }
  }

  /** A capture whose every socket closes without opening. */
  function Hopeless(retries: nat): seq<Event> {
    Unanswered([StartRequested, CaptureBegins(true), StreamAcquired(true)], 0, 0, retries)
  }

  /** The same after a manual retry in the acquisition whose socket could not be constructed. */
  function Impatient(retries: nat): seq<Event> {
    Unanswered([StartRequested, CaptureBegins(true), ManualRetry(false), StreamAcquired(true), SocketCloses(0),
                TimerFires(0, true)], 1, 1, retries)
  }

  lemma RunThree(s: State, a: Event, b: Event, c: Event, rest: seq<Event>)
    ensures Run(s, [a, b, c] + rest) == Run(Next(Next(Next(s, a), b), c), rest)
  {
    assert ([a, b, c] + rest)[1..] == [b, c] + rest;
    assert ([b, c] + rest)[1..] == [c] + rest;
    assert ([c] + rest)[1..] == rest;
    assert Run(s, [a, b, c] + rest) == Run(Next(s, a), [b, c] + rest);
    assert Run(Next(s, a), [b, c] + rest) == Run(Next(Next(s, a), b), [c] + rest);
  }

  lemma FirstSocketIsSilent()
    ensures Silent(Next(Next(Next(START, StartRequested), CaptureBegins(true)), StreamAcquired(true)), 0, 0, 0, 1)
  {
  }

  lemma HopelessRun(retries: nat)
    requires retries <= RETRY_MAX_ATTEMPTS
    ensures Silent(Run(START, Hopeless(retries)), retries, retries, retries, retries + 1)
  {
    var first := [StartRequested, CaptureBegins(true), StreamAcquired(true)];
    RunThree(START, StartRequested, CaptureBegins(true), StreamAcquired(true), []);
    assert first + [] == first;
    FirstSocketIsSilent();
    UnansweredRun(first, 0, 0, 0, 1, retries);
  }

  lemma ImpatientRun(retries: nat)
    requires retries < RETRY_MAX_ATTEMPTS
    ensures Silent(Run(START, Impatient(retries)), retries + 1, retries + 1, retries + 1, retries + 3)
  {
    var first := [StartRequested, CaptureBegins(true), ManualRetry(false)];
    var second := [StreamAcquired(true), SocketCloses(0), TimerFires(0, true)];
    RunThree(START, StartRequested, CaptureBegins(true), ManualRetry(false), second);
    var s := Next(Next(Next(START, StartRequested), CaptureBegins(true)), ManualRetry(false));
    RunThree(s, StreamAcquired(true), SocketCloses(0), TimerFires(0, true), []);
    assert second + [] == second;
    UnansweredRun(first + second, 1, 1, 1, 3, retries);
    assert first + second == [StartRequested, CaptureBegins(true), ManualRetry(false), StreamAcquired(true),
                              SocketCloses(0), TimerFires(0, true)];
  }

  /** With all retries used, one more close exhausts them. */
  lemma LastSocketCloses(events: seq<Event>, tries: nat)
    requires Silent(Run(START, events), RETRY_MAX_ATTEMPTS, RETRY_MAX_ATTEMPTS, RETRY_MAX_ATTEMPTS, tries)
    ensures var s := Run(START, events + [SocketCloses(RETRY_MAX_ATTEMPTS)]);
            s.tries == tries && s.waitedMs == MAX_WAIT_MS && ReconnectState(s) == Exhausted
  {
    RunOneMore(START, events, SocketCloses(RETRY_MAX_ATTEMPTS));
    RunKeepsInvariant(START, events);
    TenDelays();
  }

  /** The eleventh socket that closes exhausts the retries; an impatient user gets a twelfth: the bounds are tight. */
  lemma BackoffBoundsAreReached()
    ensures var s := Run(START, Hopeless(RETRY_MAX_ATTEMPTS) + [SocketCloses(RETRY_MAX_ATTEMPTS)]);
            s.tries == MAX_SOCKETS && s.waitedMs == MAX_WAIT_MS && ReconnectState(s) == Exhausted
    ensures var s := Run(START, Impatient(RETRY_MAX_ATTEMPTS - 1) + [SocketCloses(RETRY_MAX_ATTEMPTS)]);
            s.tries == MAX_SOCKETS + 1 && s.waitedMs == MAX_WAIT_MS && ReconnectState(s) == Exhausted
  {
    HopelessRun(RETRY_MAX_ATTEMPTS);
    ImpatientRun(RETRY_MAX_ATTEMPTS - 1);
    LastSocketCloses(Hopeless(RETRY_MAX_ATTEMPTS), MAX_SOCKETS);
    LastSocketCloses(Impatient(RETRY_MAX_ATTEMPTS - 1), MAX_SOCKETS + 1);
  }

  /** The offscreen module: variables reassigned by the event handlers. */
  class OffscreenBridge {
    var phase: Phase
    var capturing: bool
    var bridge: Option<SocketId>
    var bridgeConnected: bool
    var bridgeRetryTimer: Option<TimerId>
    var bridgeRetryAttempt: nat
    var bridgeRetryExhausted: bool
    var stateHeartbeat: bool

    // The browser's side: ids handed out, sockets not yet closed, timers still to fire.
    var nextSocket: SocketId
    var nextTimer: TimerId
    var liveSockets: set<SocketId>
    var pendingTimers: set<TimerId>

    ghost var tries: nat
    ghost var waitedMs: nat
    ghost var abandoned: bool

    ghost function Model(): State
      reads this
    {
      State(phase, capturing, bridge, bridgeConnected, bridgeRetryTimer, bridgeRetryAttempt, bridgeRetryExhausted,
            stateHeartbeat, nextSocket, nextTimer, liveSockets, pendingTimers, tries, waitedMs, abandoned)
    }

    ghost predicate Valid()
      reads this
    {
      Invariant(Model())
    }

    constructor ()
      ensures Valid() && Model() == START
    {
      phase, capturing, bridge, bridgeConnected := Quiet, false, None, false;
      bridgeRetryTimer, bridgeRetryAttempt, bridgeRetryExhausted, stateHeartbeat := None, 0, false, false;
      nextSocket, nextTimer, liveSockets, pendingTimers := 0, 0, {}, {};
      tries, waitedMs, abandoned := 0, 0, false;
    }

    /** The popup's view of the machine. */
    method BridgeReconnectState() returns (state: Reconnect)
      requires Valid()
      ensures state == ReconnectState(Model())
      ensures state == Waiting <==> pendingTimers != {} && !bridgeConnected
      ensures state == Idle <==> !capturing
    {
      if bridgeConnected {
        return Connected;
      }
      if !capturing {
        return Idle;
      }
      if bridgeRetryTimer.Some? {
        return Waiting;
      }
      return if bridgeRetryExhausted then Exhausted else Retrying;
    }

    method ScheduleBridgeRetry()
      modifies this
      ensures Model() == RetryScheduled(old(Model()))
    {
      if !capturing || bridgeRetryTimer.Some? {
        return;
      }
      if bridgeRetryAttempt >= RETRY_MAX_ATTEMPTS {
        bridgeRetryExhausted := true;
        return;
      }
      bridgeRetryExhausted := false;
      waitedMs := waitedMs + DelayMs(bridgeRetryAttempt);
      bridgeRetryAttempt := bridgeRetryAttempt + 1;
      bridgeRetryTimer := Some(nextTimer);
      pendingTimers := pendingTimers + {nextTimer};
      nextTimer := nextTimer + 1;
    }

    method CancelBridgeRetry()
      modifies this
      ensures Model() == RetryCancelled(old(Model()))
    {
      if bridgeRetryTimer.Some? {
        pendingTimers := pendingTimers - {bridgeRetryTimer.value};
        bridgeRetryTimer := None;
      }
      bridgeRetryAttempt := 0;
      bridgeRetryExhausted := false;
    }

    method ConnectBridge(created: bool)
      modifies this
      ensures Model() == BridgeConnecting(old(Model()), created)
    {
      if !capturing || bridge.Some? {
        return;
      }
      tries := tries + 1;
      if !created {
        bridge := None;
        ScheduleBridgeRetry();
        return;
      }
      OpenSocket();
    }

    method OpenSocket()
      modifies this`bridge, this`liveSockets, this`nextSocket
      ensures var s := old(Model());
              Model() == s.(bridge := Some(s.nextSocket), nextSocket := s.nextSocket + 1,
                            liveSockets := s.liveSockets + {s.nextSocket})
    {
      bridge := Some(nextSocket);
      liveSockets := liveSockets + {nextSocket};
      nextSocket := nextSocket + 1;
    }

    method CloseBridge()
      modifies this`liveSockets, this`bridge, this`bridgeConnected
      ensures var s := old(Model());
              Model() == s.(bridge := None, connected := false, liveSockets :=
                              if s.bridge.Some? then s.liveSockets - {s.bridge.value} else s.liveSockets)
    {
      if bridge.Some? {
        liveSockets := liveSockets - {bridge.value};
      }
      bridge := None;
      bridgeConnected := false;
    }

    /** Everything up to the first await, which runs as one step. */
    method TeardownCaptureGraph()
      modifies this
      ensures Model() == TornDown(old(Model()))
    {
      capturing, abandoned := false, false;
      CancelBridgeRetry();
      stateHeartbeat := false;
      CloseBridge();
    }

    method OnOpen(socket: SocketId)
      requires Valid()
      modifies this
      ensures Valid() && Model() == Next(old(Model()), SocketOpens(socket))
    {
      StepKeepsInvariant(Model(), SocketOpens(socket));
      if bridge != Some(socket) || !capturing {
        return;
      }
      bridgeRetryAttempt := 0;
      stateHeartbeat := capturing;
      bridgeConnected := true;
      tries, waitedMs := 1, 0;
    }

    method OnClose(socket: SocketId)
      requires Valid()
      modifies this
      ensures Valid() && Model() == Next(old(Model()), SocketCloses(socket))
    {
      StepKeepsInvariant(Model(), SocketCloses(socket));
      var current := bridge == Some(socket) && capturing;
      MarkClosed(socket);
      if current {
        ScheduleBridgeRetry();
      }
    }

    /** The socket is gone; if it was the current one, so is the connection. */
    method MarkClosed(socket: SocketId)
      modifies this
      ensures var s := old(Model());
              var t := s.(liveSockets := s.liveSockets - {socket});
              Model() == if s.bridge == Some(socket) && s.capturing
                         then t.(bridge := None, connected := false, heartbeat := true) else t
    {
      liveSockets := liveSockets - {socket};
      if bridge != Some(socket) || !capturing {
        return;
      }
      bridge := None;
      bridgeConnected := false;
      stateHeartbeat := capturing;
    }

    method OnTimer(timer: TimerId, created: bool)
      requires Valid()
      modifies this
      ensures Valid() && Model() == Next(old(Model()), TimerFires(timer, created))
    {
      StepKeepsInvariant(Model(), TimerFires(timer, created));
      if timer !in pendingTimers {
        return;
      }
      pendingTimers := pendingTimers - {timer};
      bridgeRetryTimer := None;
      ConnectBridge(created);
    }

    method RetryTabBridge(created: bool) returns (accepted: bool)
      requires Valid()
      modifies this
      ensures Valid() && Model() == Next(old(Model()), ManualRetry(created))
      ensures accepted == (old(capturing) && !old(bridgeConnected))
    {
      StepKeepsInvariant(Model(), ManualRetry(created));
      if !capturing || bridgeConnected {
        return false;
      }
      CancelBridgeRetry();
      tries, waitedMs, abandoned := if bridge.Some? then 1 else 0, 0, false;
      ConnectBridge(created);
      return true;
    }

    /** The start operation up to its first await; the previous capture is torn down. */
    method StartCapture()
      requires Valid() && phase == Quiet
      modifies this
      ensures Valid() && Model() == Next(old(Model()), StartRequested)
    {
      StepKeepsInvariant(Model(), StartRequested);
      TeardownCaptureGraph();
      phase := Starting;
    }

    /** The capture is marked as running before its context is constructed, outside the guarded part. */
    method BeginCapture(constructed: bool)
      requires Valid() && phase == Starting
      modifies this
      ensures Valid() && Model() == Next(old(Model()), CaptureBegins(constructed))
    {
      StepKeepsInvariant(Model(), CaptureBegins(constructed));
      capturing := true;
      tries, waitedMs, abandoned := 0, 0, !constructed;
      if !constructed {
        phase := Quiet;
        return;
      }
      phase := Acquiring;
    }

    method AttachStream(created: bool)
      requires Valid() && phase == Acquiring
      modifies this
      ensures Valid() && Model() == Next(old(Model()), StreamAcquired(created))
    {
      StepKeepsInvariant(Model(), StreamAcquired(created));
      ConnectBridge(created);
      phase := Resuming;
    }

    method AbandonStart()
      requires Valid() && (phase == Acquiring || phase == Resuming)
      modifies this
      ensures Valid() && Model() == Next(old(Model()), StartFails)
    {
      StepKeepsInvariant(Model(), StartFails);
      TeardownCaptureGraph();
      phase := Quiet;
    }

    method StopCapture()
      requires Valid() && phase == Quiet
      modifies this
      ensures Valid() && Model() == Next(old(Model()), Stops)
    {
      StepKeepsInvariant(Model(), Stops);
      TeardownCaptureGraph();
    }
  }
}
