/** One command between the workers and the bridge: dispatch tasks that hold the row lock and may crash
    at any point, lease tasks that hold none, and the bridge's queue with its terminal. */
module Delivery {
  import opened Numbers
  import opened BridgeQueue
  import opened BridgeRuns
  import E = Execution

  datatype Record = Record(state: E.CommandState, version: nat)

  // The stored command row, the copies lease tasks have read, and the bridge. `calls` and `crashes`
  // count adapter calls and dispatch tasks that died between their call and their commit.
  datatype System = System(row: Record, copies: map<int, Record>, calls: nat, crashes: nat, queue: Queue)

  // How a dispatch task fares once it has leased the command: the call may or may not reach the bridge,
  // and the worker may or may not live to store what the adapter answered.
  datatype Fate = Fate(reached: bool, survives: bool, reply: E.Reply)

  datatype Step =
    | Move(target: E.CommandState)
    | LeaseRead(worker: int)
    | LeaseCommit(worker: int)
    | Dispatch(fate: Fate)
    | Bridge(event: Event)

  predicate Leasable(s: E.CommandState) {
    s == E.Queued || s == E.Authorized
  }

  /** The state that `dispatch` stores for a leased command. */
  function Stored(reply: E.Reply): E.CommandState {
    match reply
    case Raises(_) => E.OutcomeUnknown
    case Answers(_, _, rejected) => if rejected then E.Rejected else E.Acknowledged
  }

  /** `ResourceStore.update`: the expected version is compared with the record in hand, not the stored one. */
  function Updated(r: Record, state: E.CommandState, expected: nat): Result<Record, string> {
    if r.version != expected then Failure("resource version conflict") else Success(Record(state, r.version + 1))
  }

  /** A lease task writes back the copy it read, expecting that copy's own version. */
  function LeaseCommitted(s: System, worker: int): System {
    if worker !in s.copies then s
    else
      var rest, copy := s.copies - {worker}, s.copies[worker];
      var leased := Updated(copy, E.Dispatching, copy.version);
      if Leasable(copy.state) && leased.Success? then s.(row := leased.value, copies := rest) else s.(copies := rest)
  }

  /** A dispatch task: replayed, not leased, or one adapter call. */
  function Dispatched(s: System, c: Row, fate: Fate): System {
    if !Leasable(s.row.state) then s
    else
      var queue := if fate.reached then After(s.queue, Enqueue(c)) else s.queue;
      s.(queue := queue, calls := s.calls + 1,
         crashes := if fate.survives then s.crashes else s.crashes + 1,
         row := if fate.survives then Record(Stored(fate.reply), s.row.version + 2) else s.row)
  }

  function Next(s: System, c: Row, step: Step): System {
    match step
    case Move(target) => if target in E.Successors(s.row.state) then s.(row := Record(target, s.row.version + 1)) else s
    case LeaseRead(worker) => s.(copies := s.copies[worker := s.row])
    case LeaseCommit(worker) => LeaseCommitted(s, worker)
    case Dispatch(fate) => Dispatched(s, c, fate)
    case Bridge(event) => s.(queue := After(s.queue, event))
  }

  function AfterSteps(s: System, c: Row, steps: seq<Step>): System {
    if steps == [] then s else Next(AfterSteps(s, c, steps[..|steps| - 1]), c, steps[|steps| - 1])
  }

  // ----- adapter calls

  /** The adapter has been called as often as tasks crashed, or once more and the row shows it. */
  predicate Accounted(s: System) {
    s.calls == s.crashes || (s.calls == s.crashes + 1 && (s.row.state == E.Dispatching || E.Sent(s.row.state)))
  }

  lemma NextIsAccounted(s: System, c: Row, step: Step)
    requires Accounted(s)
    ensures Accounted(Next(s, c, step))
  {
    hide After;
  }

  /** Calls over any interleaving of dispatch tasks, lease tasks and transitions: one for every task that crashed
      between its call and its commit, and at most one more. */
  lemma {:induction false} CallsAreBounded(s: System, c: Row, steps: seq<Step>)
    requires s.calls == 0 && s.crashes == 0
    ensures var after := AfterSteps(s, c, steps); after.crashes <= after.calls <= after.crashes + 1
    ensures Accounted(AfterSteps(s, c, steps))
    decreases |steps|
  {
    hide Next;
    if steps != [] {
      CallsAreBounded(s, c, steps[..|steps| - 1]);
      NextIsAccounted(AfterSteps(s, c, steps[..|steps| - 1]), c, steps[|steps| - 1]);
    }
  }

  function Crashing(n: nat, reply: E.Reply): seq<Step> {
    if n == 0 then [] else Crashing(n - 1, reply) + [Dispatch(Fate(true, false, reply))]
  }

  lemma OneStep(s: System, c: Row, step: Step)
    ensures AfterSteps(s, c, [step]) == Next(s, c, step)
  {
    hide Next;
    assert [step][..0] == [];
  }

  lemma OneMore(s: System, c: Row, steps: seq<Step>, last: Step)
    ensures AfterSteps(s, c, steps + [last]) == Next(AfterSteps(s, c, steps), c, last)
  {
    hide Next;
    assert (steps + [last])[..|steps|] == steps;
  }

  lemma {:induction false} CrashesLeaveTheRow(s: System, c: Row, n: nat, reply: E.Reply)
    requires Leasable(s.row.state)
    ensures
      var after := AfterSteps(s, c, Crashing(n, reply));
      after.row == s.row && after.calls == s.calls + n && after.crashes == s.crashes + n
  {
    hide After;
    if n > 0 {
      CrashesLeaveTheRow(s, c, n - 1, reply);
      OneMore(s, c, Crashing(n - 1, reply), Dispatch(Fate(true, false, reply)));
    }
  }

  /** The bound is reached for any number of crashes: after each of them the command is called again. */
  lemma CrashCallsAgain(s: System, c: Row, n: nat, reply: E.Reply)
    requires Leasable(s.row.state)
    ensures
      var after := AfterSteps(s, c, Crashing(n, reply) + [Dispatch(Fate(true, true, reply))]);
      after.calls == s.calls + n + 1 && after.crashes == s.crashes + n
  {
    hide After;
    CrashesLeaveTheRow(s, c, n, reply);
    OneMore(s, c, Crashing(n, reply), Dispatch(Fate(true, true, reply)));
  }

  /** States a command passes before its first lease. */
  predicate Waiting(s: E.CommandState) {
    s == E.Created || s == E.Validating || Leasable(s)
  }

  lemma {:induction false} LeftForGood(s: System, c: Row, steps: seq<Step>)
    requires !Waiting(s.row.state)
    ensures !Waiting(AfterSteps(s, c, steps).row.state) && AfterSteps(s, c, steps).calls == s.calls
    decreases |steps|
  {
    hide After;
    if steps != [] {
      LeftForGood(s, c, steps[..|steps| - 1]);
    }
  }

  ghost predicate NeverCalledAgain(s: System, c: Row) {
    forall steps: seq<Step> :: AfterSteps(s, c, steps).calls == s.calls
  }

  /** No run calls the adapter again if and only if the stored row has left the states before its lease,
      whatever copies lease tasks still hold. */
  lemma CallsEndExactly(s: System, c: Row)
    ensures NeverCalledAgain(s, c) <==> !Waiting(s.row.state)
  {
    hide After, AfterSteps;
    var call := Dispatch(Fate(true, true, E.Raises("timeout")));
    if Leasable(s.row.state) {
      OneStep(s, c, call);
      assert AfterSteps(s, c, [call]).calls == s.calls + 1;
    } else if Waiting(s.row.state) {
      var authorize := Move(E.Authorized);
      OneStep(s, c, authorize);
      OneMore(s, c, [authorize], call);
      assert AfterSteps(s, c, [authorize] + [call]).calls == s.calls + 1;
    } else {
      forall steps: seq<Step> ensures AfterSteps(s, c, steps).calls == s.calls {
        LeftForGood(s, c, steps);
      }
    }
  }

  // ----- leases

  /** The worker's commit stores a lease. */
  predicate Leases(s: System, worker: int) {
    worker in s.copies && Leasable(s.copies[worker].state)
  }

  /** Any two lease tasks that both read a row that waits for its lease both lease it: the version check compares
      each copy with itself. */
  lemma UnlockedWorkersBothLease(s: System, c: Row, one: int, other: int)
    requires Leasable(s.row.state) && one != other
    ensures
      var read := Next(Next(s, c, LeaseRead(one)), c, LeaseRead(other));
      var leased := Record(E.Dispatching, s.row.version + 1);
      && Leases(read, one) && Next(read, c, LeaseCommit(one)).row == leased
      && Leases(Next(read, c, LeaseCommit(one)), other)
      && Next(Next(read, c, LeaseCommit(one)), c, LeaseCommit(other)).row == leased
  {
  }

  /** A lease task that read before a dispatch takes its stored outcome, whatever it is, back to DISPATCHING. */
  lemma StaleLeaseUndoesOutcome(s: System, c: Row, worker: int, reached: bool, reply: E.Reply)
    requires Leasable(s.row.state)
    ensures
      var sent := Next(Next(s, c, LeaseRead(worker)), c, Dispatch(Fate(reached, true, reply)));
      && E.Sent(sent.row.state) && sent.row.state == Stored(reply)
      && Next(sent, c, LeaseCommit(worker)).row.state == E.Dispatching
  {
    hide After;
  }

  ghost predicate NoLeasableCopy(s: System) {
    forall worker :: worker in s.copies ==> !Leasable(s.copies[worker].state)
  }

  predicate Claimed(s: E.CommandState) {
    s == E.Dispatching || E.Sent(s)
  }

  lemma NextStaysClaimed(s: System, c: Row, step: Step)
    requires Claimed(s.row.state) && NoLeasableCopy(s)
    ensures
      var after := Next(s, c, step);
      && Claimed(after.row.state) && NoLeasableCopy(after) && after.calls == s.calls
      && (E.Sent(s.row.state) ==> E.Sent(after.row.state))
  {
    hide After;
  }

  /** Once the row is dispatching or beyond and no task holds a copy from before, no later reader leases it or
      calls the adapter, and a row that was sent stays sent. */
  lemma {:induction false} LateReadersDoNotLease(s: System, c: Row, steps: seq<Step>)
    requires Claimed(s.row.state) && NoLeasableCopy(s)
    ensures
      var after := AfterSteps(s, c, steps);
      && Claimed(after.row.state) && NoLeasableCopy(after) && after.calls == s.calls
      && (E.Sent(s.row.state) ==> E.Sent(after.row.state))
    decreases |steps|
  {
    hide Next, Claimed, E.Sent, NoLeasableCopy;
    if steps != [] {
      LateReadersDoNotLease(s, c, steps[..|steps| - 1]);
      NextStaysClaimed(AfterSteps(s, c, steps[..|steps| - 1]), c, steps[|steps| - 1]);
    }
  }

  ghost predicate NeverLeasedAgain(s: System, c: Row) {
    forall steps: seq<Step>, worker :: !Leases(AfterSteps(s, c, steps), worker)
  }

  /** A command that one worker has taken is leased by no other if and only if no task holds a copy that it
      read before. */
  lemma LeasedOnceExactly(s: System, c: Row)
    requires Claimed(s.row.state)
    ensures NeverLeasedAgain(s, c) <==> NoLeasableCopy(s)
  {
    hide Claimed, Leasable;
    if NoLeasableCopy(s) {
      forall steps: seq<Step>, worker ensures !Leases(AfterSteps(s, c, steps), worker) {
        LateReadersDoNotLease(s, c, steps);
      }
    } else {
      var worker :| worker in s.copies && Leasable(s.copies[worker].state);
      assert Leases(AfterSteps(s, c, []), worker);
    }
  }

  ghost predicate StaysSent(s: System, c: Row) {
    forall steps: seq<Step> :: E.Sent(AfterSteps(s, c, steps).row.state)
  }

  /** A stored outcome stands, or moves on, in every run if and only if no lease task still holds a copy that it
      can lease; otherwise that task's commit takes the row back to DISPATCHING. */
  lemma OutcomeStandsExactly(s: System, c: Row)
    requires E.Sent(s.row.state)
    ensures StaysSent(s, c) <==> NoLeasableCopy(s)
  {
    hide AfterSteps;
    if NoLeasableCopy(s) {
      forall steps: seq<Step> ensures E.Sent(AfterSteps(s, c, steps).row.state) {
        LateReadersDoNotLease(s, c, steps);
      }
    } else {
      var worker :| worker in s.copies && Leasable(s.copies[worker].state);
      OneStep(s, c, LeaseCommit(worker));
      assert !E.Sent(AfterSteps(s, c, [LeaseCommit(worker)]).row.state);
    }
  }

  // ----- refinement

  /** What a dispatch task stores is what `dispatch` returns for the leased command. */
  lemma StoredIsDispatched(command: E.Command, reply: E.Reply)
    requires command.state == E.Dispatching
    ensures E.Dispatched(command, reply).Success? && E.Dispatched(command, reply).value.state == Stored(reply)
  {
  }

  /** A step of the locked protocol that is not cut short. */
  predicate Regular(step: Step) {
    step.Move? || step.Bridge? || (step.Dispatch? && step.fate.survives)
  }

  /** What such a step means in the command's own lifecycle. */
  function EventsOf(s: System, step: Step): seq<E.Event> {
    match step
    case Move(target) => [E.Move(target)]
    case Dispatch(fate) => if Leasable(s.row.state) then [E.Lease, E.Send(fate.reply)] else []
    case _ => []
  }

  function Trace(s: System, c: Row, steps: seq<Step>): seq<E.Event> {
    if steps == [] then []
    else
      var init := steps[..|steps| - 1];
      Trace(s, c, init) + EventsOf(AfterSteps(s, c, init), steps[|steps| - 1])
  }

  lemma LeaseThenSend(command: E.Command, reply: E.Reply)
    requires Leasable(command.state)
    ensures E.AfterAll(command, [E.Lease, E.Send(reply)]).state == Stored(reply)
    ensures E.Calls(command, [E.Lease, E.Send(reply)]) == 1
  {
    hide E.Dispatched;
    var both := [E.Lease, E.Send(reply)];
    assert both[..1] == [E.Lease] && [E.Lease][..0] == [];
    assert E.AfterAll(command, [E.Lease]) == E.Leased(command);
    StoredIsDispatched(E.Leased(command), reply);
    assert E.AfterAll(command, both) == E.After(E.Leased(command), E.Send(reply));
    assert E.Calls(command, [E.Lease]) == 0;
    assert E.Calls(command, both) == E.Calls(command, both[..1]) + 1;
  }

  lemma OneMove(command: E.Command, target: E.CommandState)
    ensures E.AfterAll(command, [E.Move(target)]) == E.After(command, E.Move(target))
    ensures E.Calls(command, [E.Move(target)]) == 0
  {
    hide E.After;
    assert [E.Move(target)][..0] == [];
  }

  lemma StepMeansEvents(s: System, c: Row, step: Step, command: E.Command)
    requires Regular(step) && command.state == s.row.state
    ensures E.AfterAll(command, EventsOf(s, step)).state == Next(s, c, step).row.state
    ensures E.Calls(command, EventsOf(s, step)) == Next(s, c, step).calls - s.calls
  {
    hide After, Stored, E.Dispatched;
    match step
    case Move(target) => OneMove(command, target);
    case Dispatch(fate) =>
      if Leasable(s.row.state) {
        LeaseThenSend(command, fate.reply);
      }
    case _ =>
  }

  /** Refinement: a run of dispatch tasks that all live to commit, with transitions in between, takes the stored
      row exactly where the command's own chain of leases and dispatches takes it, with the same calls. */
  lemma {:induction false} WorkersFollowTheLifecycle(s: System, c: Row, steps: seq<Step>, command: E.Command)
    requires command.state == s.row.state && s.calls == 0
    requires forall k :: 0 <= k < |steps| ==> Regular(steps[k])
    ensures E.AfterAll(command, Trace(s, c, steps)).state == AfterSteps(s, c, steps).row.state
    ensures E.Calls(command, Trace(s, c, steps)) == AfterSteps(s, c, steps).calls
    decreases |steps|
  {
    hide Next, Regular, EventsOf, E.After;
    if steps != [] {
      var init, last := steps[..|steps| - 1], steps[|steps| - 1];
      WorkersFollowTheLifecycle(s, c, init, command);
      var before := AfterSteps(s, c, init);
      StepMeansEvents(before, c, last, E.AfterAll(command, Trace(s, c, init)));
      E.ChainsConcatenate(command, Trace(s, c, init), EventsOf(before, last));
    }
  }

  // ----- the bridge's command

  /** Whatever the bridge holds under this key or id is this command, in some state of its life. */
  ghost predicate Mirrors(q: Queue, c: Row) {
    forall i :: 0 <= i < |q.rows| && (q.rows[i].key == c.key || q.rows[i].id == c.id) ==>
      q.rows[i] == c.(state := q.rows[i].state, lease := q.rows[i].lease)
  }

  /** Other commands have their own ids and keys, and a terminal answers this command only once the bridge
      holds it. */
  predicate Foreign(q: Queue, e: Event, c: Row) {
    && (e.Enqueue? ==> e.row.id != c.id && e.row.key != c.key)
    && (e.Receive? && e.receipt.command == c.id ==> FindKey(q.rows, c.key).Some?)
  }

  ghost predicate ForeignSteps(s: System, c: Row, steps: seq<Step>) {
    forall k :: 0 <= k < |steps| && steps[k].Bridge? ==> Foreign(AfterSteps(s, c, steps[..k]).queue, steps[k].event, c)
  }

  ghost predicate QueueOk(q: Queue, c: Row) {
    && Distinct(q.rows) && Shows(q, c.id) && Mirrors(q, c)
    && (c.id in q.receipts ==> FindKey(q.rows, c.key).Some?)
  }

  lemma EnqueueKeepsMirror(q: Queue, c: Row, row: Row)
    requires Mirrors(q, c) && (row == c || (row.id != c.id && row.key != c.key))
    ensures Mirrors(After(q, Enqueue(row)), c)
    ensures FindKey(q.rows, c.key).Some? ==> FindKey(After(q, Enqueue(row)).rows, c.key).Some?
  {
    hide FindKey, FindId;
    var r := After(q, Enqueue(row));
    if FindKey(q.rows, c.key).Some? {
      var i := FindKey(q.rows, c.key).value;
      assert q.rows[i].id == c.id;
      assert r.rows[i].key == c.key;
    }
  }

  lemma SettlingKeepsMirror(q: Queue, c: Row, e: Event)
    requires Mirrors(q, c) && !e.Enqueue?
    ensures Mirrors(After(q, e), c)
    ensures FindKey(q.rows, c.key).Some? <==> FindKey(After(q, e).rows, c.key).Some?
  {
    hide FindKey, FindId, Taken;
    var r := After(q, e);
    assert |r.rows| == |q.rows| && forall i :: 0 <= i < |q.rows| ==>
        r.rows[i] == q.rows[i].(state := r.rows[i].state, lease := r.rows[i].lease);
    if FindKey(q.rows, c.key).Some? {
      assert r.rows[FindKey(q.rows, c.key).value].key == c.key;
    }
    if FindKey(r.rows, c.key).Some? {
      assert q.rows[FindKey(r.rows, c.key).value].key == c.key;
    }
  }

  lemma EventKeepsQueue(q: Queue, c: Row, e: Event)
    requires QueueOk(q, c) && (Foreign(q, e, c) || e == Enqueue(c))
    ensures QueueOk(After(q, e), c)
  {
    hide FindKey, FindId, Mirrors, Shows, Distinct, Polled, Put;
    EventKeepsDistinct(q, e);
    EventShows(q, e, c.id);
    if e.Enqueue? {
      EnqueueKeepsMirror(q, c, e.row);
    } else {
      SettlingKeepsMirror(q, c, e);
    }
  }

  lemma {:induction false} StepsKeepQueue(s: System, c: Row, steps: seq<Step>)
    requires QueueOk(s.queue, c) && ForeignSteps(s, c, steps)
    ensures QueueOk(AfterSteps(s, c, steps).queue, c)
    decreases |steps|
  {
    hide QueueOk, After, Foreign;
    if steps != [] {
      var init, last := steps[..|steps| - 1], steps[|steps| - 1];
      forall k | 0 <= k < |init| && init[k].Bridge?
        ensures Foreign(AfterSteps(s, c, init[..k]).queue, init[k].event, c)
      {
        assert init[..k] == steps[..k];
      }
      StepsKeepQueue(s, c, init);
      var before := AfterSteps(s, c, init);
      match last
      case Dispatch(fate) => EventKeepsQueue(before.queue, c, Enqueue(c));
      case Bridge(event) => EventKeepsQueue(before.queue, c, event);
      case _ =>
    }
  }

  /** End to end, over any interleaving of tasks, crashes, leases, polls and receipts: the bridge holds at most
      one command under the key, it is this command, and once a receipt settles it, it is never handed out
      again, however often it is dispatched. */
  lemma DeliveredOnce(c: Row, row: Record, leaseSeconds: int, steps: seq<Step>, poll: Event)
    requires
      var s := System(row, map[], 0, 0, Queue([], map[], leaseSeconds));
      ForeignSteps(s, c, steps)
    ensures
      var q := AfterSteps(System(row, map[], 0, 0, Queue([], map[], leaseSeconds)), c, steps).queue;
      && (forall i, j :: 0 <= i < j < |q.rows| ==> !(q.rows[i].key == c.key && q.rows[j].key == c.key))
      && Mirrors(q, c)
      && (Settled(q, c.id) ==> !HandsOut(q, poll, c.id))
  {
    hide AfterSteps, FindKey, ForeignSteps;
    var s := System(row, map[], 0, 0, Queue([], map[], leaseSeconds));
    StepsKeepQueue(s, c, steps);
    var q := AfterSteps(s, c, steps).queue;
    if Settled(q, c.id) {
      SettledIsHeldBack(q, poll, c.id);
    }
  }
}
