/** Execution commands: their lifecycle, the ledger, leasing and dispatch through a broker
    adapter that may answer anything or fail, and reconciliation before any retry. */
module Execution {
  import opened Numbers

  datatype CommandState = Created | Validating | Blocked | Authorized | Queued | Dispatching | Acknowledged
    | PartiallyApplied | Applied | Rejected | Superseded | OutcomeUnknown | Reconciling
    | NoEffectConfirmed | BlockedAmbiguous | Expired

  function Successors(s: CommandState): set<CommandState> {
    match s
    case Created => {Validating, Authorized, Blocked}
    case Validating => {Authorized, Blocked}
    case Authorized => {Queued, Expired, Blocked}
    case Queued => {Dispatching, Expired}
    case Dispatching => {Acknowledged, Rejected, OutcomeUnknown, Reconciling}
    case Reconciling => {Acknowledged, Applied, NoEffectConfirmed, BlockedAmbiguous}
    case Acknowledged => {PartiallyApplied, Applied, Reconciling, Rejected}
    case PartiallyApplied => {Applied, Reconciling}
    case OutcomeUnknown => {Reconciling}
    case _ => {}
  }

  /** Where each state may be entered from. */
  function Predecessors(t: CommandState): set<CommandState> {
    match t
    case Validating => {Created}
    case Authorized => {Created, Validating}
    case Blocked => {Created, Validating, Authorized}
    case Queued => {Authorized}
    case Expired => {Authorized, Queued}
    case Dispatching => {Queued}
    case OutcomeUnknown => {Dispatching}
    case Acknowledged => {Dispatching, Reconciling}
    case Rejected => {Dispatching, Acknowledged}
    case Reconciling => {Dispatching, Acknowledged, PartiallyApplied, OutcomeUnknown}
    case PartiallyApplied => {Acknowledged}
    case Applied => {Acknowledged, PartiallyApplied, Reconciling}
    case NoEffectConfirmed => {Reconciling}
    case BlockedAmbiguous => {Reconciling}
    case _ => {}
  }

  /** The lifecycle read backwards: a state follows another exactly when that one may precede it; nothing leads to
      CREATED or SUPERSEDED. */
  lemma EnteredExactlyFrom(s: CommandState, t: CommandState)
    ensures t in Successors(s) <==> s in Predecessors(t)
  {
  }

  /** Nothing follows exactly the blocked, applied, rejected, superseded, expired and finally reconciled states. */
  lemma TerminalStatesExactly(s: CommandState)
    ensures Successors(s) == {} <==>
      s == Blocked || s == Applied || s == Rejected || s == Superseded || s == NoEffectConfirmed
      || s == BlockedAmbiguous || s == Expired
  {
    assert Validating in Successors(Created) && Blocked in Successors(Validating) && Queued in Successors(Authorized);
    assert Dispatching in Successors(Queued) && Acknowledged in Successors(Dispatching);
    assert Applied in Successors(Acknowledged) && Applied in Successors(PartiallyApplied);
    assert Reconciling in Successors(OutcomeUnknown) && Applied in Successors(Reconciling);
  }

  /** The states a dispatch walks through follow one another in the lifecycle, whatever the adapter answers. */
  lemma DispatchFollowsTheLifecycle(c: Command, reply: Reply)
    requires c.state == Dispatching
    ensures Authorized in Successors(Created) && Queued in Successors(Authorized) && Dispatching in Successors(Queued)
    ensures
      var settled := Settled(c, reply);
      && (reply.Raises? ==> settled == Transition(c, OutcomeUnknown).value.(certainty := Uncertain))
      && (reply.Answers? ==>
            && Transition(c, Acknowledged).Success?
            && var acknowledged := Transition(c, Acknowledged).value;
               && Transition(acknowledged, Rejected).Success?
               && (if reply.rejected then Transition(acknowledged, Rejected).value else acknowledged)
                    == settled.(certainty := c.certainty, brokerOrder := c.brokerOrder))
  {
  }

  datatype Certainty = NoCertainty | Uncertain | Confirmed

  datatype Attempt = Attempt(number: nat, state: CommandState, error: Option<string>)

  /** The attempt list of a command; copies of the command share it. */
  class AttemptLog {
    var items: seq<Attempt>

    constructor ()
      ensures items == []
    {
      items := [];
    }
  }

  // What a command asks of the broker. An entry carries every field of the order; `maxLoss` is set for
  // plans with a broker-sized ticket.
  datatype Postcondition =
    | Entry(instrument: string, direction: string, quantity: real, entry: real, stop: real,
            targets: seq<real>, takeProfit: real, maxLoss: Option<real>, venue: string, specification: string)
    | Management(detail: string, requested: Requested)

  // The fields reconciliation looks for; a management command may leave any of them out.
  datatype Requested = Requested(
    instrument: Option<string>, direction: Option<string>, quantity: Option<real>,
    venue: Option<string>, specification: Option<string>)

  function RequestedBy(p: Postcondition): Requested {
    match p
    case Entry(instrument, direction, quantity, _, _, _, _, _, venue, specification) =>
      Requested(Some(instrument), Some(direction), Some(quantity), Some(venue), Some(specification))
    case Management(_, requested) => requested
  }

  datatype Command = Command(
    id: int, account: int, key: string, payload: Postcondition, state: CommandState, certainty: Certainty,
    brokerOrder: Option<string>, version: nat, attempts: AttemptLog)

  /** `transition`: staying put is free, anything else must be a listed successor. */
  function Transition(c: Command, target: CommandState): Result<Command, string> {
    if target == c.state then Success(c)
    else if target !in Successors(c.state) then Failure("cannot transition")
    else Success(c.(state := target, version := c.version + 1))
  }

  // ----- the ledger

  /** One entry per idempotency key; the first command bound to a key is the one returned. */
  class ExecutionLedger {
    var commands: map<int, Command>
    var byKey: map<string, int>
    var outbox: seq<int>

    ghost predicate Valid()
      reads this
    {
      && (forall key :: key in byKey ==>
          byKey[key] in commands && commands[byKey[key]].key == key && commands[byKey[key]].id == byKey[key])
      && (forall id :: id in commands ==>
          commands[id].id == id && commands[id].key in byKey && byKey[commands[id].key] == id)
      && |outbox| == |commands|
      && (forall i, j :: 0 <= i < j < |outbox| ==> outbox[i] != outbox[j])
      && (forall id :: id in outbox <==> id in commands)
    }

    constructor ()
      ensures Valid() && commands == map[] && outbox == []
    {
      commands, byKey, outbox := map[], map[], [];
    }

    /** `put`: a known key returns its command or refuses another payload; a fresh one is recorded
        together with its outbox event. */
    method Put(c: Command) returns (r: Result<Command, string>)
      requires Valid() && (c.key !in byKey ==> c.id !in commands)
      modifies this
      ensures Valid()
      ensures c.key in old(byKey) ==>
        && commands == old(commands) && byKey == old(byKey) && outbox == old(outbox)
        && var existing := old(commands)[old(byKey)[c.key]];
           r == if existing.payload == c.payload then Success(existing)
             else Failure("idempotency key is bound to a different command payload")
      ensures c.key !in old(byKey) ==>
        && r == Success(c) && commands == old(commands)[c.id := c] && byKey == old(byKey)[c.key := c.id]
        && outbox == old(outbox) + [c.id]
    {
      if c.key in byKey {
        var existing := commands[byKey[c.key]];
        if existing.payload != c.payload {
          return Failure("idempotency key is bound to a different command payload");
        }
        return Success(existing);
      }
      byKey := byKey[c.key := c.id];
      commands := commands[c.id := c];
      outbox := outbox + [c.id];
      return Success(c);
    }
  }

  // ----- dispatch

  // What the adapter call does.
  datatype Reply = Raises(error: string) | Answers(confirmed: bool, order: Option<string>, rejected: bool)

  /** States from which `dispatch` goes on to call the adapter. */
  predicate Dispatchable(s: CommandState) {
    s == Created || s == Authorized || s == Queued || s == Dispatching
  }

  /** Version steps taken on the way to DISPATCHING. */
  function StepsToDispatch(s: CommandState): nat {
    if s == Created then 3 else if s == Authorized then 2 else if s == Queued then 1 else 0
  }

  /** The command `dispatch` returns, for an adapter that behaves as `reply`. */
  function Dispatched(c: Command, reply: Reply): Result<Command, string> {
    if c.state == Applied || c.state == Rejected || c.state == BlockedAmbiguous then Success(c)
    else if !Dispatchable(c.state) then
      Failure(if c.state == OutcomeUnknown || c.state == Reconciling
        then "uncertain command must reconcile before retry" else "command cannot dispatch")
    else Success(Settled(c.(version := c.version + StepsToDispatch(c.state)), reply))
  }

  /** Walks a fresh, authorized or queued command to DISPATCHING. */
  method Advance(command: Command) returns (c: Command)
    requires Dispatchable(command.state)
    ensures c == command.(state := Dispatching, version := command.version + StepsToDispatch(command.state))
  {
    c := command;
    if c.state == Created {
      c := Transition(c, Authorized).value;
    }
    if c.state == Authorized {
      c := Transition(c, Queued).value;
    }
    if c.state == Queued {
      c := Transition(c, Dispatching).value;
    }
  }

  /** What the adapter's reply makes of a dispatching command. */
  function Settled(c: Command, reply: Reply): Command {
    match reply
    case Raises(error) => c.(state := OutcomeUnknown, certainty := Uncertain, version := c.version + 1)
    case Answers(confirmed, order, rejected) =>
      c.(state := if rejected then Rejected else Acknowledged,
         certainty := if confirmed then Confirmed else Uncertain, brokerOrder := order,
         version := if rejected then c.version + 2 else c.version + 1)
  }

  /** One adapter call: the attempt is on the shared list before the call, and is rewritten by its outcome. */
  method CallAdapter(command: Command, reply: Reply) returns (c: Command)
    modifies command.attempts
    ensures c == Settled(command, reply)
    ensures command.attempts.items == old(command.attempts.items) + [Outcome(|old(command.attempts.items)| + 1, reply)]
  {
    c := command;
    var log := c.attempts;
    var n := |log.items|;
    log.items := log.items + [Attempt(n + 1, Dispatching, None)];
    if reply.Raises? {
      log.items := log.items[n := Attempt(n + 1, OutcomeUnknown, Some(reply.error))];
      c := c.(state := OutcomeUnknown, version := c.version + 1);
      c := c.(certainty := Uncertain);
      return;
    }
    log.items := log.items[n := Attempt(n + 1, Acknowledged, None)];
    c := c.(state := Acknowledged, version := c.version + 1);
    c := c.(certainty := if reply.confirmed then Confirmed else Uncertain);
    c := c.(brokerOrder := reply.order);
    if reply.rejected {
      c := c.(state := Rejected, version := c.version + 1);
    }
  }

  /** The attempt an adapter call leaves behind. */
  function Outcome(number: nat, reply: Reply): Attempt {
    if reply.Raises? then Attempt(number, OutcomeUnknown, Some(reply.error)) else Attempt(number, Acknowledged, None)
  }

  /** `dispatch`: the adapter is called once, or not at all, and every call leaves one attempt. */
  method Dispatch(command: Command, reply: Reply) returns (r: Result<Command, string>, calls: nat)
    modifies command.attempts
    ensures r == Dispatched(command, reply)
    ensures calls == if Dispatchable(command.state) then 1 else 0
    ensures command.attempts.items == old(command.attempts.items)
      + if calls == 1 then [Outcome(|old(command.attempts.items)| + 1, reply)] else []
  {
    hide Transition, Outcome, Successors;
    calls := 0;
    if command.state == Applied || command.state == Rejected || command.state == BlockedAmbiguous {
      return Success(command), 0;
    }
    if command.state == OutcomeUnknown || command.state == Reconciling {
      return Failure("uncertain command must reconcile before retry"), 0;
    }
    if !Dispatchable(command.state) {
      return Failure("command cannot dispatch"), 0;
    }
    var c := Advance(command);
    c := CallAdapter(c, reply);
    return Success(c), 1;
  }

  // ----- chains of persisted commands

  // One step of a command's life: a lifecycle transition, a worker's lease, or a dispatch.
  datatype Event = Move(target: CommandState) | Lease | Send(reply: Reply)

  /** `lease_command` takes a queued or authorized record straight to DISPATCHING. */
  function Leased(c: Command): Command {
    if c.state == Queued || c.state == Authorized then c.(state := Dispatching) else c
  }

  /** A refused step leaves the command as it was. */
  function After(c: Command, e: Event): Command {
    match e
    case Move(target) => var r := Transition(c, target); if r.Success? then r.value else c
    case Lease => Leased(c)
    case Send(reply) => var r := Dispatched(c, reply); if r.Success? then r.value else c
  }

  function AfterAll(c: Command, events: seq<Event>): Command {
    if events == [] then c else After(AfterAll(c, events[..|events| - 1]), events[|events| - 1])
  }

  /** Adapter calls made along a chain. */
  function Calls(c: Command, events: seq<Event>): nat {
    if events == [] then 0
    else
      var before := AfterAll(c, events[..|events| - 1]);
      Calls(c, events[..|events| - 1])
        + if events[|events| - 1].Send? && Dispatchable(before.state) then 1 else 0
  }

  lemma {:induction false} ChainsConcatenate(c: Command, a: seq<Event>, b: seq<Event>)
    ensures AfterAll(c, a + b) == AfterAll(AfterAll(c, a), b)
    ensures Calls(c, a + b) == Calls(c, a) + Calls(AfterAll(c, a), b)
    decreases |b|
  {
    hide After, Dispatchable;
    if b == [] {
      assert a + b == a;
    } else {
      var n := |b| - 1;
      ChainsConcatenate(c, a, b[..n]);
      assert (a + b)[..|a + b| - 1] == a + b[..n] && (a + b)[|a + b| - 1] == b[n];
    }
  }

  /** States after the adapter may have been called. */
  predicate Sent(s: CommandState) {
    s in {Acknowledged, PartiallyApplied, Applied, Rejected, OutcomeUnknown, Reconciling, NoEffectConfirmed,
          BlockedAmbiguous}
  }

  lemma SentIsForever(c: Command, e: Event)
    requires Sent(c.state)
    ensures Sent(After(c, e).state)
  {
  }

  lemma {:induction false} CallsMeansSent(c: Command, events: seq<Event>)
    requires Dispatchable(c.state)
    ensures Calls(c, events) <= 1
    ensures Calls(c, events) == 1 ==> Sent(AfterAll(c, events).state)
    decreases |events|
  {
    hide After, Sent;
    if events != [] {
      var init, e := events[..|events| - 1], events[|events| - 1];
      CallsMeansSent(c, init);
      var before := AfterAll(c, init);
      SentIsNotDispatchable(before.state);
      if Calls(c, init) == 1 {
        SentIsForever(before, e);
      } else if e.Send? && Dispatchable(before.state) {
        SendingIsSent(before, e);
      }
    }
  }

  lemma SentIsNotDispatchable(s: CommandState)
    ensures Sent(s) ==> !Dispatchable(s)
  {
  }

  lemma SendingIsSent(c: Command, e: Event)
    requires e.Send? && Dispatchable(c.state)
    ensures Sent(After(c, e).state)
  {
  }

  /** At-most-once dispatch: along any chain of transitions, leases and dispatches of a command that
      has not been sent, the adapter is called at most once. */
  lemma AtMostOnceDispatch(c: Command, events: seq<Event>)
    requires Dispatchable(c.state)
    ensures Calls(c, events) <= 1
  {
    CallsMeansSent(c, events);
  }

  lemma NextIsDispatchingOrSent(c: Command, e: Event)
    requires c.state == Dispatching || Sent(c.state)
    ensures After(c, e).state == Dispatching || Sent(After(c, e).state)
  {
  }

  /** Once dispatching, a command never returns to a state before dispatch. */
  lemma {:induction false} NoWayBack(c: Command, events: seq<Event>)
    requires c.state == Dispatching || Sent(c.state)
    ensures var s := AfterAll(c, events).state; s == Dispatching || Sent(s)
    decreases |events|
  {
    hide After, Sent;
    if events != [] {
      NoWayBack(c, events[..|events| - 1]);
      NextIsDispatchingOrSent(AfterAll(c, events[..|events| - 1]), events[|events| - 1]);
    }
  }

  ghost predicate PassesReconciling(c: Command, events: seq<Event>) {
    exists k :: 0 <= k <= |events| && AfterAll(c, events[..k]).state == Reconciling
  }

  /** After an adapter exception the command stays uncertain until it has been reconciling. */
  lemma {:induction false} UncertainOnlyThroughReconciling(c: Command, events: seq<Event>)
    requires c.state == OutcomeUnknown
    ensures AfterAll(c, events).state == OutcomeUnknown || PassesReconciling(c, events)
    decreases |events|
  {
    if events != [] {
      var init := events[..|events| - 1];
      UncertainOnlyThroughReconciling(c, init);
      if PassesReconciling(c, init) {
        var k :| 0 <= k <= |init| && AfterAll(c, init[..k]).state == Reconciling;
        assert events[..k] == init[..k];
      } else if AfterAll(c, events).state != OutcomeUnknown {
        assert events[..|events|] == events;
        assert AfterAll(c, events[..|events|]).state == Reconciling;
      }
    }
  }

  lemma RejectedStays(c: Command, e: Event)
    requires c.state == Rejected
    ensures After(c, e) == c
  {
  }

  lemma {:induction false} RejectedForGood(c: Command, events: seq<Event>)
    requires c.state == Rejected
    ensures AfterAll(c, events) == c
    decreases |events|
  {
    hide After;
    if events != [] {
      RejectedForGood(c, events[..|events| - 1]);
      RejectedStays(c, events[|events| - 1]);
    }
  }

  lemma {:induction false} SentCallsNothing(c: Command, events: seq<Event>)
    requires Sent(c.state)
    ensures Calls(c, events) == 0 && Sent(AfterAll(c, events).state)
    decreases |events|
  {
    hide After, Sent, Dispatchable;
    if events != [] {
      var init := events[..|events| - 1];
      SentCallsNothing(c, init);
      SentIsForever(AfterAll(c, init), events[|events| - 1]);
      SentIsNotDispatchable(AfterAll(c, init).state);
    }
  }

  /** After an answer no later chain calls the adapter again or leaves the states after a call. A rejecting
      answer is final: no chain changes the command at all. Any other answer leaves it acknowledged, with the
      answer's certainty and order; a failure leaves it uncertain. */
  lemma {:induction false} AnswersDecide(c: Command, reply: Reply, events: seq<Event>)
    requires Dispatchable(c.state)
    ensures
      var sent := After(c, Send(reply));
      && sent.version > c.version
      && (reply.Raises? ==>
          sent.state == OutcomeUnknown && sent.certainty == Uncertain && sent.brokerOrder == c.brokerOrder)
      && (reply.Answers? ==> sent.brokerOrder == reply.order && (sent.certainty == Confirmed <==> reply.confirmed))
      && (reply.Answers? && !reply.rejected ==> sent.state == Acknowledged)
      && (reply.Answers? && reply.rejected ==> AfterAll(sent, events) == sent && sent.state == Rejected)
      && Calls(sent, events) == 0 && Sent(AfterAll(sent, events).state)
  {
    var sent := After(c, Send(reply));
    SentCallsNothing(sent, events);
    if sent.state == Rejected {
      RejectedForGood(sent, events);
    }
  }

  lemma OneSend(c: Command, reply: Reply)
    ensures Calls(c, [Send(reply)]) == if Dispatchable(c.state) then 1 else 0
    ensures AfterAll(c, [Send(reply)]) == After(c, Send(reply))
  {
    hide After, Dispatchable;
    var one := [Send(reply)];
    assert one[..0] == [];
  }

  lemma RefusedSend(c: Command, reply: Reply)
    requires !Dispatchable(c.state)
    ensures After(c, Send(reply)) == c
  {
  }

  /** The guarantee is about one chain of returned or persisted commands: dispatching the returned command again
      makes no second call, but dispatching one stored copy twice makes two, exactly when its state can be
      dispatched. */
  lemma StaleCopyCallsAgain(c: Command, first: Reply, second: Reply)
    ensures Calls(c, [Send(first), Send(second)]) == if Dispatchable(c.state) then 1 else 0
    ensures Calls(c, [Send(first)]) + Calls(c, [Send(second)]) == 2 <==> Dispatchable(c.state)
  {
    hide After, Sent, Dispatchable;
    OneSend(c, first);
    OneSend(c, second);
    var both := [Send(first), Send(second)];
    assert both[..1] == [Send(first)];
    if Dispatchable(c.state) {
      SendingIsSent(c, Send(first));
      SentIsNotDispatchable(After(c, Send(first)).state);
    } else {
      RefusedSend(c, first);
    }
  }

  // ----- reconciliation

  datatype Order = Order(id: string, command: int)

  datatype Position = Position(
    id: string, instrument: string, direction: Option<string>, quantity: real, venue: string, specification: string)

  datatype Finding = Matched | Ambiguous | NoEffect | UnknownOutcome

  datatype Reconciliation = Reconciliation(finding: Finding, certainty: Certainty, order: Option<string>,
                                           position: Option<string>)

  predicate OrderMatches(c: Command, o: Order) {
    o.command == c.id || (c.brokerOrder.Some? && o.id == c.brokerOrder.value)
  }

  /** The instrument must be requested and agree; any other field only when the command asks for it, and a
      position without a direction fits either. */
  predicate PositionMatches(c: Command, p: Position) {
    var r := RequestedBy(c.payload);
    && r.instrument == Some(p.instrument)
    && (r.direction.None? || p.direction.None? || p.direction == r.direction)
    && (r.quantity.None? || Abs(p.quantity) == r.quantity.value)
    && (r.venue.None? || p.venue == r.venue.value)
    && (r.specification.None? || p.specification == r.specification.value)
  }

  function Matching<T>(items: seq<T>, fits: T -> bool): seq<T> {
    if items == [] then []
    else
      var rest := Matching(items[1..], fits);
      if fits(items[0]) then [items[0]] + rest else rest
  }

  function MatchingOrders(c: Command, orders: seq<Order>): seq<Order> {
    Matching(orders, (o: Order) => OrderMatches(c, o))
  }

  function MatchingPositions(c: Command, positions: seq<Position>): seq<Position> {
    Matching(positions, (p: Position) => PositionMatches(c, p))
  }

  /** `reconcile_command`: broker facts first, and no effect only on an authoritative snapshot. */
  function ReconcileCommand(c: Command, orders: seq<Order>, positions: seq<Position>,
                            authoritative: bool): Reconciliation {
    var os := MatchingOrders(c, orders);
    var ps := MatchingPositions(c, positions);
    if |os| == 1 then Reconciliation(Matched, Confirmed, Some(os[0].id), None)
    else if |os| > 1 then Reconciliation(Ambiguous, Uncertain, None, None)
    else if |ps| == 1 then Reconciliation(Matched, Confirmed, None, Some(ps[0].id))
    else if |ps| > 1 then Reconciliation(Ambiguous, Uncertain, None, None)
    else if authoritative then Reconciliation(NoEffect, Confirmed, None, None)
    else Reconciliation(UnknownOutcome, Uncertain, None, None)
  }

  predicate RetryAllowed(r: Reconciliation) {
    r.finding == NoEffect && r.certainty == Confirmed
  }

  lemma {:induction false} NoneMatches<T>(items: seq<T>, fits: T -> bool)
    ensures Matching(items, fits) == [] <==> forall i :: 0 <= i < |items| ==> !fits(items[i])
  {
    if items != [] {
      NoneMatches(items[1..], fits);
      assert forall i :: 1 <= i < |items| ==> items[i] == items[1..][i - 1];
      assert forall i :: 0 <= i < |items| - 1 ==> items[1..][i] == items[i + 1];
    }
  }

  /** Exactly one item fits. */
  ghost predicate Only<T>(items: seq<T>, fits: T -> bool, i: nat) {
    i < |items| && fits(items[i]) && forall k :: 0 <= k < |items| && k != i ==> !fits(items[k])
  }

  lemma {:induction false} OneMatches<T>(items: seq<T>, fits: T -> bool, i: nat)
    requires Only(items, fits, i)
    ensures Matching(items, fits) == [items[i]]
    decreases |items|
  {
    var rest := items[1..];
    assert forall k :: 0 <= k < |rest| ==> rest[k] == items[k + 1];
    if i == 0 {
      NoneMatches(rest, fits);
    } else {
      assert Only(rest, fits, i - 1);
      OneMatches(rest, fits, i - 1);
    }
  }

  lemma {:induction false} SomeMatches<T>(items: seq<T>, fits: T -> bool, i: nat)
    requires i < |items| && fits(items[i])
    ensures |Matching(items, fits)| >= 1
    decreases |items|
  {
    if i > 0 {
      SomeMatches(items[1..], fits, i - 1);
    }
  }

  lemma {:induction false} TwoMatch<T>(items: seq<T>, fits: T -> bool, i: nat, j: nat)
    requires i < j < |items| && fits(items[i]) && fits(items[j])
    ensures |Matching(items, fits)| >= 2
    decreases |items|
  {
    if i == 0 {
      SomeMatches(items[1..], fits, j - 1);
    } else {
      TwoMatch(items[1..], fits, i - 1, j - 1);
    }
  }

  /** The order carries the command's own id, or the broker's id of its order. */
  predicate IsOrderOf(o: Order, c: Command) {
    o.command == c.id || c.brokerOrder == Some(o.id)
  }

  /** A long or short holding of exactly this size. */
  predicate SameSize(quantity: real, size: real) {
    size >= 0.0 && (quantity == size || quantity == -size)
  }

  /** The position could be the command's: of its instrument, and agreeing with whatever of direction, quantity, venue
      and specification the command asks for; an entry asks for all four. */
  predicate CouldBe(p: Position, payload: Postcondition) {
    match payload
    case Entry(instrument, direction, quantity, _, _, _, _, _, venue, specification) =>
      && p.instrument == instrument && (p.direction.None? || p.direction == Some(direction))
      && SameSize(p.quantity, quantity)
      && p.venue == venue && p.specification == specification
    case Management(_, asked) =>
      && asked.instrument == Some(p.instrument)
      && (asked.direction.None? || p.direction.None? || p.direction == asked.direction)
      && (asked.quantity.None? || SameSize(p.quantity, asked.quantity.value))
      && (asked.venue.None? || asked.venue == Some(p.venue))
      && (asked.specification.None? || asked.specification == Some(p.specification))
  }

  lemma MatchesMean(c: Command)
    ensures forall o :: OrderMatches(c, o) <==> IsOrderOf(o, c)
    ensures forall p :: PositionMatches(c, p) <==> CouldBe(p, c.payload)
  {
    hide PositionMatches, CouldBe;
    forall p ensures PositionMatches(c, p) <==> CouldBe(p, c.payload) {
      PositionMeans(c, p);
    }
  }

  lemma PositionMeans(c: Command, p: Position)
    ensures PositionMatches(c, p) <==> CouldBe(p, c.payload)
  {
  }

  /** What reconciliation finds. A single matching order is the match, several are ambiguous, and positions count only
      without any; without those either, the command had no effect on an authoritative snapshot and stays unknown on
      any other. */
  lemma ReconciliationExactly(c: Command, orders: seq<Order>, positions: seq<Position>, authoritative: bool)
    ensures
      var r := ReconcileCommand(c, orders, positions, authoritative);
      var isOrder, couldBe := (o: Order) => IsOrderOf(o, c), (p: Position) => CouldBe(p, c.payload);
      && (forall i: nat :: Only(orders, isOrder, i) ==>
          r == Reconciliation(Matched, Confirmed, Some(orders[i].id), None))
      && ((exists i, j :: 0 <= i < j < |orders| && IsOrderOf(orders[i], c) && IsOrderOf(orders[j], c)) ==>
            r == Reconciliation(Ambiguous, Uncertain, None, None))
      && ((forall i :: 0 <= i < |orders| ==> !IsOrderOf(orders[i], c)) ==>
            && (forall i: nat :: Only(positions, couldBe, i) ==>
                  r == Reconciliation(Matched, Confirmed, None, Some(positions[i].id)))
            && ((exists i, j :: 0 <= i < j < |positions|
                   && CouldBe(positions[i], c.payload) && CouldBe(positions[j], c.payload)) ==>
                  r == Reconciliation(Ambiguous, Uncertain, None, None))
            && ((forall i :: 0 <= i < |positions| ==> !CouldBe(positions[i], c.payload)) ==>
                  r == if authoritative then Reconciliation(NoEffect, Confirmed, None, None)
                    else Reconciliation(UnknownOutcome, Uncertain, None, None)))
  {
    hide OrderMatches, PositionMatches, IsOrderOf, CouldBe, Matching;
    MatchesMean(c);
    var orderFits, positionFits := (o: Order) => OrderMatches(c, o), (p: Position) => PositionMatches(c, p);
    NoneMatches(orders, orderFits);
    NoneMatches(positions, positionFits);
    forall i: nat | Only(orders, (o: Order) => IsOrderOf(o, c), i)
      ensures MatchingOrders(c, orders) == [orders[i]]
    {
      assert Only(orders, orderFits, i);
      OneMatches(orders, orderFits, i);
    }
    forall i: nat | Only(positions, (p: Position) => CouldBe(p, c.payload), i)
      ensures MatchingPositions(c, positions) == [positions[i]]
    {
      assert Only(positions, positionFits, i);
      OneMatches(positions, positionFits, i);
    }
    forall i, j | 0 <= i < j < |orders| && IsOrderOf(orders[i], c) && IsOrderOf(orders[j], c)
      ensures |MatchingOrders(c, orders)| >= 2
    {
      TwoMatch(orders, orderFits, i, j);
    }
    forall i, j | 0 <= i < j < |positions| && CouldBe(positions[i], c.payload) && CouldBe(positions[j], c.payload)
      ensures |MatchingPositions(c, positions)| >= 2
    {
      TwoMatch(positions, positionFits, i, j);
    }
  }

  /** A retry is allowed exactly on an authoritative snapshot without an order of the command and without a position
      that could be its own. */
  lemma RetryOnlyWithoutEffect(c: Command, orders: seq<Order>, positions: seq<Position>, authoritative: bool)
    ensures RetryAllowed(ReconcileCommand(c, orders, positions, authoritative)) <==>
      && authoritative
      && (forall i :: 0 <= i < |orders| ==> !IsOrderOf(orders[i], c))
      && (forall i :: 0 <= i < |positions| ==> !CouldBe(positions[i], c.payload))
  {
    hide OrderMatches, PositionMatches, IsOrderOf, CouldBe, Matching;
    MatchesMean(c);
    NoneMatches(orders, (o: Order) => OrderMatches(c, o));
    NoneMatches(positions, (p: Position) => PositionMatches(c, p));
  }
}
