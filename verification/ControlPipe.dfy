/**
 * Request correlation on the control pipe. The engine answers requests in the order it received
 * them, one reply each, carrying the request's id; the client may give up on an exchange between
 * two frames. `sent` is what this connection has carried, `read` how many replies were consumed.
 */
module ControlPipe {
  import opened Bytes
  import opened Wrappers
  import opened IpcCodec

  const ACK: nat := 6

  datatype ConnectionState = Disconnected | Connected | Degraded

  /** How one exchange ends. `replyType` is the type the engine chose for the reply that is read. */
  datatype Ending =
    | CancelledBeforeWrite
    | CancelledAwaitingReply
    | PipeBroken
    | Replied(replyType: nat)

  datatype Outcome = Accepted(replyType: nat) | Refused | Cancelled | Broken

  datatype Wire = Wire(sent: seq<nat>, read: nat)

  ghost predicate ValidWire(w: Wire) { w.read <= |w.sent| }

  /** Replies the engine owes this connection: written requests whose reply nobody has read. */
  function Gap(w: Wire): nat
    requires ValidWire(w)
  {
    |w.sent| - w.read
  }

  /** The request the next reply answers once `id` has been written. */
  function NextReplyId(w: Wire, id: nat): nat
    requires ValidWire(w)
  {
    (w.sent + [id])[w.read]
  }

  function RoundTrip(w: Wire, id: nat, ending: Ending): (r: (Wire, Outcome))
    requires ValidWire(w)
    ensures ValidWire(r.0)
  {
    match ending
    case CancelledBeforeWrite => (w, Cancelled)
    case CancelledAwaitingReply => (Wire(w.sent + [id], w.read), Cancelled)
    case PipeBroken => (Wire(w.sent + [id], w.read), Broken)
    case Replied(t) =>
      (Wire(w.sent + [id], w.read + 1), if NextReplyId(w, id) == id then Accepted(t) else Refused)
  }

  datatype Client = Client(connection: ConnectionState, wire: Wire)

  /**
   * Events on one connection. Commands go out only while the client counts as connected and
   * degrade it when they fail; queries go out while the pipe exists, and the visual query fails quietly.
   */
  datatype Event =
    | Command(id: nat, ending: Ending)
    | Query(id: nat, ending: Ending)
    | QuietQuery(id: nat, ending: Ending)

  /** Whether a send is reported to its caller as acknowledged by the engine. */
  datatype Step = Step(client: Client, credited: bool)

  function Next(c: Client, event: Event): (s: Step)
    requires ValidWire(c.wire)
    ensures ValidWire(s.client.wire)
  {
    match event
    case Command(id, ending) =>
      if c.connection != Connected then Step(c, false)
      else
        var (wire, outcome) := RoundTrip(c.wire, id, ending);
        if outcome == Accepted(ACK) then Step(Client(Connected, wire), true)
        else if outcome == Cancelled then Step(Client(Connected, wire), false)
        else Step(Client(Degraded, wire), false)
    case Query(id, ending) =>
      var (wire, outcome) := RoundTrip(c.wire, id, ending);
      Step(Client(if outcome.Refused? || outcome.Broken? then Degraded else c.connection, wire), false)
    case QuietQuery(id, ending) =>
      Step(c.(wire := RoundTrip(c.wire, id, ending).0), false)
  }

  function Run(c: Client, events: seq<Event>): (r: Client)
    requires ValidWire(c.wire)
    ensures ValidWire(r.wire)
    decreases |events|
  {
    if events == [] then c else Run(Next(c, events[0]).client, events[1..])
  }

  /** Ids that `events` would put on the wire: each is new to the connection and used once. */
  ghost predicate WrittenOnce(c: Client, events: seq<Event>) {
    && (forall i :: 0 <= i < |events| ==> events[i].id !in c.wire.sent)
    && (forall i, j :: 0 <= i < j < |events| ==> events[i].id != events[j].id)
  }

  /**
   * An exchange is accepted exactly when nothing is owed, or when the oldest unanswered
   * transmission carried the very same id.
   */
  lemma AcceptedRepliesCarryTheRequestId(w: Wire, id: nat, replyType: nat)
    requires ValidWire(w)
    ensures RoundTrip(w, id, Replied(replyType)).1
            == (if Gap(w) == 0 || w.sent[w.read] == id then Accepted(replyType) else Refused)
  {
    if Gap(w) == 0 {
      assert (w.sent + [id])[w.read] == id;
    } else {
      assert (w.sent + [id])[w.read] == w.sent[w.read];
    }
  }

  /** An exchange for a new id is accepted exactly when no reply is owed from an earlier one. */
  lemma AcceptedExactlyWhenNothingIsOwed(w: Wire, id: nat, replyType: nat)
    requires ValidWire(w) && id !in w.sent
    ensures RoundTrip(w, id, Replied(replyType)).1 == (if Gap(w) == 0 then Accepted(replyType) else Refused)
  {
    AcceptedRepliesCarryTheRequestId(w, id, replyType);
  }

  /** Sending the very same envelope again after giving up on it is credited with the old reply. */
  lemma ResendingIsCreditedWithTheAbandonedReply(id: nat)
    ensures var abandoned := Run(Client(Connected, Wire([], 0)), [Command(id, CancelledAwaitingReply)]);
            Gap(abandoned.wire) == 1 && Next(abandoned, Command(id, Replied(ACK))).credited
  {
    var start := Client(Connected, Wire([], 0));
    var events := [Command(id, CancelledAwaitingReply)];
    assert events[1..] == [];
    assert Run(start, events) == Run(Next(start, events[0]).client, []);
  }

  lemma GapNeverShrinksInOneStep(c: Client, event: Event)
    requires ValidWire(c.wire)
    ensures Gap(Next(c, event).client.wire) >= Gap(c.wire)
  {
  }

  /** In every run the number of owed replies never goes down. */
  lemma {:induction false} GapNeverShrinks(c: Client, events: seq<Event>)
    requires ValidWire(c.wire)
    ensures Gap(Run(c, events).wire) >= Gap(c.wire)
    decreases |events|
  {
    if events != [] {
      GapNeverShrinksInOneStep(c, events[0]);
      GapNeverShrinks(Next(c, events[0]).client, events[1..]);
    }
  }

  /** A connection carries only what it carried before and the ids of its events. */
  lemma {:induction false} RunCarriesItsIds(c: Client, events: seq<Event>, id: nat)
    requires ValidWire(c.wire) && id !in c.wire.sent
    requires forall k :: 0 <= k < |events| ==> events[k].id != id
    ensures id !in Run(c, events).wire.sent
    decreases |events|
  {
    if events != [] {
      RunCarriesItsIds(Next(c, events[0]).client, events[1..], id);
    }
  }

  lemma LastIdIsNew(c: Client, events: seq<Event>, last: Event)
    requires ValidWire(c.wire) && WrittenOnce(c, events + [last])
    ensures last.id !in Run(c, events).wire.sent
  {
    var all := events + [last];
    assert all[|events|] == last;
    forall k | 0 <= k < |events| ensures events[k].id != last.id {
      assert all[k] == events[k];
    }
    RunCarriesItsIds(c, events, last.id);
  }

  /** With a new id, a command is credited exactly when it is acknowledged on a connection that owes nothing. */
  lemma CreditedExactly(c: Client, event: Event)
    requires ValidWire(c.wire) && event.id !in c.wire.sent
    ensures Next(c, event).credited
            <==> c.connection == Connected && Gap(c.wire) == 0 && event.Command? && event.ending == Replied(ACK)
    ensures Next(c, event).credited ==>
              Gap(Next(c, event).client.wire) == 0 && Next(c, event).client.wire.sent == c.wire.sent + [event.id]
  {
    if event.ending.Replied? {
      AcceptedExactlyWhenNothingIsOwed(c.wire, event.id, event.ending.replyType);
    }
  }

  /** What an exchange with a new id puts on the wire and takes off it. */
  lemma WireRecordsTheExchange(w: Wire, id: nat, ending: Ending)
    requires ValidWire(w)
    ensures RoundTrip(w, id, ending).0.sent == if ending.CancelledBeforeWrite? then w.sent else w.sent + [id]
    ensures RoundTrip(w, id, ending).0.read == if ending.Replied? then w.read + 1 else w.read
  {
  }

  /**
   * With a new id, exactly a command or a loud query that found the pipe broken or read somebody else's
   * reply, and a command whose own reply was no Ack, leave the connection degraded; a quiet query never does.
   */
  lemma DegradesExactly(c: Client, event: Event)
    requires ValidWire(c.wire) && event.id !in c.wire.sent && c.connection != Degraded
    requires event.Command? ==> c.connection == Connected
    ensures Next(c, event).client.wire == RoundTrip(c.wire, event.id, event.ending).0
    ensures Next(c, event).client.connection
            == if !event.QuietQuery?
                  && (event.ending.PipeBroken?
                      || (event.ending.Replied?
                          && (Gap(c.wire) > 0 || (event.Command? && event.ending.replyType != ACK))))
               then Degraded else c.connection
  {
    if event.ending.Replied? {
      AcceptedExactlyWhenNothingIsOwed(c.wire, event.id, event.ending.replyType);
    }
  }

  /** While degraded, commands do not go out at all, and queries that succeed do not restore the connection. */
  lemma DegradedStaysDegraded(c: Client, event: Event)
    requires ValidWire(c.wire) && c.connection != Connected
    ensures Next(c, event).client.connection == c.connection || Next(c, event).client.connection == Degraded
    ensures event.Command? ==> Next(c, event) == Step(c, false)
  {
  }

  /**
   * In every run of events with ids used once, the last event is credited exactly when it is a command
   * whose own Ack was read while connected and nothing was owed; then nothing was owed before the run
   * and nothing is owed after it. So no command is credited with another command's Ack.
   */
  lemma CommandsAreCreditedWithTheirOwnAck(c: Client, events: seq<Event>, last: Event)
    requires ValidWire(c.wire) && WrittenOnce(c, events + [last])
    ensures var r := Run(c, events);
            && (Next(r, last).credited
                <==> r.connection == Connected && Gap(r.wire) == 0 && last.Command? && last.ending == Replied(ACK))
            && (Next(r, last).credited ==>
                  Gap(c.wire) == 0 && Gap(Next(r, last).client.wire) == 0
                  && Next(r, last).client.wire.sent == r.wire.sent + [last.id])
  {
    LastIdIsNew(c, events, last);
    CreditedExactly(Run(c, events), last);
    GapNeverShrinks(c, events);
  }

  /** Once an exchange has been abandoned, no later command on the connection is credited. */
  lemma NothingIsCreditedAfterAnAbandonedExchange(c: Client, events: seq<Event>, last: Event)
    requires ValidWire(c.wire) && Gap(c.wire) > 0
    requires WrittenOnce(c, events + [last])
    ensures !Next(Run(c, events), last).credited
  {
    CommandsAreCreditedWithTheirOwnAck(c, events, last);
  }

  /** Hands out the 64-bit request ids; the counter wraps like the source's unsigned long. */
  class RequestSession {
    var nextRequestId: nat
    ghost var created: nat

    ghost predicate Valid()
      reads this
    {
      nextRequestId == RequestId(created)
    }

    constructor ()
      ensures Valid() && created == 0
    {
      nextRequestId := 1;
      created := 0;
    }

    method Create(messageType: nat, payload: seq<Byte>) returns (e: Envelope)
      requires Valid()
      modifies this
      ensures Valid() && created == old(created) + 1
      ensures e == Envelope(messageType, RequestId(old(created)), payload)
    {
      e := Envelope(messageType, nextRequestId, payload);
      nextRequestId := (nextRequestId + 1) % UINT64_LIMIT;
      created := created + 1;
    }
  }

  function RequestId(index: nat): (id: nat)
    ensures id < UINT64_LIMIT
  {
    (1 + index) % UINT64_LIMIT
  }

  /** Request ids strictly increase up to the wrap, and never repeat within 2^64 requests. */
  lemma RequestIdsAreDistinct(i: nat, j: nat)
    requires i < j
    ensures j < UINT64_LIMIT - 1 ==> RequestId(i) < RequestId(j)
    ensures j - i < UINT64_LIMIT ==> RequestId(i) != RequestId(j)
  {
    if RequestId(i) == RequestId(j) {
      var wraps := (1 + j) / UINT64_LIMIT - (1 + i) / UINT64_LIMIT;
      assert j - i == wraps * UINT64_LIMIT;
    }
  }

  /** Events that take their ids from one session, at most 2^64 of them, put each id on a new connection once. */
  lemma SessionIdsAreWrittenOnce(events: seq<Event>, indices: seq<nat>, first: nat)
    requires |indices| == |events| && forall k :: 0 <= k < |events| ==> events[k].id == RequestId(indices[k])
    requires forall k :: 0 <= k < |indices| ==> first <= indices[k] < first + UINT64_LIMIT
    requires forall i, j :: 0 <= i < j < |indices| ==> indices[i] != indices[j]
    ensures WrittenOnce(Client(Connected, Wire([], 0)), events)
  {
    forall i, j | 0 <= i < j < |events| ensures events[i].id != events[j].id {
      if indices[i] < indices[j] {
        RequestIdsAreDistinct(indices[i], indices[j]);
      } else {
        RequestIdsAreDistinct(indices[j], indices[i]);
      }
    }
  }

  /** One connection of the client: the pipe bookkeeping behind SendCommandAsync and the refreshes. */
  class ControlClient {
    var connection: ConnectionState
    var sent: seq<nat>
    var read: nat

    ghost predicate Valid()
      reads this
    {
      ValidWire(Wire(sent, read))
    }

    ghost function State(): Client
      reads this
    {
      Client(connection, Wire(sent, read))
    }

    /** A connection starts with nothing written and nothing owed. */
    constructor ()
      ensures Valid() && State() == Client(Connected, Wire([], 0))
    {
      connection, sent, read := Connected, [], 0;
    }

    method Exchange(id: nat, ending: Ending) returns (outcome: Outcome)
      requires Valid()
      modifies this`sent, this`read
      ensures Valid()
      ensures (Wire(sent, read), outcome) == RoundTrip(old(State().wire), id, ending)
    {
      if ending.CancelledBeforeWrite? {
        return Cancelled;
      }
      sent := sent + [id];
      match ending
      case CancelledAwaitingReply =>
        outcome := Cancelled;
      case PipeBroken =>
        outcome := Broken;
      case Replied(replyType) =>
        var replyId := sent[read];
        read := read + 1;
        outcome := if replyId != id then Refused else Accepted(replyType);
    }

    method SendCommand(id: nat, ending: Ending) returns (credited: bool)
      requires Valid()
      modifies this
      ensures Valid()
      ensures Step(State(), credited) == Next(old(State()), Command(id, ending))
    {
      if connection != Connected {
        return false;
      }
      var outcome := Exchange(id, ending);
      match outcome
      case Accepted(replyType) =>
        credited := replyType == ACK;
        if !credited {
          connection := Degraded;
        }
      case Cancelled =>
        credited := false;
      case _ =>
        connection := Degraded;
        credited := false;
    }

    method Refresh(id: nat, ending: Ending, quiet: bool)
      requires Valid()
      modifies this
      ensures Valid()
      ensures Step(State(), false)
              == Next(old(State()), if quiet then QuietQuery(id, ending) else Query(id, ending))
    {
      var outcome := Exchange(id, ending);
      if !quiet && (outcome.Refused? || outcome.Broken?) {
        connection := Degraded;
      }
    }
  }
}
