/** The bridge's command queue: commands are mutable objects in insertion order, handed out under a
    lease and settled by their first receipt. Times are microseconds. */
module BridgeQueue {
  import opened Numbers

  // The value of a pending command. A receipt may set any state.
  datatype Row = Row(id: int, account: int, action: string, key: string, payload: string, state: string,
                     lease: Option<int>)

  datatype Receipt = Receipt(command: int, state: string, outcome: string)

  /** `now.replace(microsecond=0)`. */
  function WholeSecond(now: int): int {
    now - now % SECOND
  }

  predicate Offered(state: string) {
    state == "QUEUED" || state == "LEASED"
  }

  predicate Deliverable(r: Row, account: int, now: int) {
    && r.account == account && Offered(r.state)
    && !(r.state == "LEASED" && r.lease.Some? && r.lease.value > now)
  }

  /** The limit is checked after a command is taken, so at least one is handed out. */
  function Cap(limit: int): nat {
    if limit < 1 then 1 else limit
  }

  function Available(rows: seq<Row>, account: int, now: int): nat {
    if rows == [] then 0
    else Available(rows[..|rows| - 1], account, now) + if Deliverable(rows[|rows| - 1], account, now) then 1 else 0
  }

  /** A command is taken when it is among the first deliverable ones. */
  predicate Taken(rows: seq<Row>, i: nat, account: int, limit: int, now: int)
    requires i < |rows|
  {
    Deliverable(rows[i], account, now) && Available(rows[..i], account, now) < Cap(limit)
  }

  function Leased(r: Row, now: int, leaseSeconds: int): Row {
    r.(state := "LEASED", lease := Some(WholeSecond(now) + leaseSeconds * SECOND))
  }

  function PolledRow(rows: seq<Row>, i: nat, account: int, limit: int, now: int, leaseSeconds: int): Row
    requires i < |rows|
  {
    if Taken(rows, i, account, limit, now) then Leased(rows[i], now, leaseSeconds) else rows[i]
  }

  /** The queue after a poll. */
  function Polled(rows: seq<Row>, account: int, limit: int, now: int, leaseSeconds: int): seq<Row> {
    seq(|rows|, i requires 0 <= i < |rows| => PolledRow(rows, i, account, limit, now, leaseSeconds))
  }

  /** Ids of the commands a poll hands out, in queue order. */
  function Handed(rows: seq<Row>, account: int, limit: int, now: int): seq<int> {
    if rows == [] then []
    else
      var n := |rows| - 1;
      Handed(rows[..n], account, limit, now) + if Taken(rows, n, account, limit, now) then [rows[n].id] else []
  }

  /** A poll hands out as many deliverable commands as the limit allows, and one where the limit allows none. */
  lemma {:induction false} PollFillsItsLimit(rows: seq<Row>, account: int, limit: int, now: int)
    ensures |Handed(rows, account, limit, now)| == if Available(rows, account, now) < Cap(limit)
      then Available(rows, account, now) else Cap(limit)
  {
    if rows != [] {
      PollFillsItsLimit(rows[..|rows| - 1], account, limit, now);
    }
  }

  lemma {:induction false} AvailableGrows(rows: seq<Row>, i: nat, account: int, now: int)
    requires i <= |rows|
    ensures Available(rows[..i], account, now) <= Available(rows, account, now)
    decreases |rows|
  {
    if i == |rows| {
      assert rows[..i] == rows;
    } else {
      var init := rows[..|rows| - 1];
      AvailableGrows(init, i, account, now);
      assert rows[..i] == init[..i];
    }
  }

  /** Once the limit is reached, nothing further along is taken. */
  lemma NothingMore(rows: seq<Row>, i: nat, k: nat, account: int, limit: int, now: int)
    requires i <= k < |rows| && Available(rows[..i], account, now) >= Cap(limit)
    ensures !Taken(rows, k, account, limit, now)
  {
    AvailableGrows(rows[..k], i, account, now);
    assert rows[..k][..i] == rows[..i];
  }

  lemma {:induction false} HandedStops(rows: seq<Row>, i: nat, account: int, limit: int, now: int)
    requires i <= |rows| && Available(rows[..i], account, now) >= Cap(limit)
    ensures Handed(rows, account, limit, now) == Handed(rows[..i], account, limit, now)
    decreases |rows|
  {
    hide Taken;
    if i == |rows| {
      assert rows[..i] == rows;
    } else {
      var n := |rows| - 1;
      NothingMore(rows, i, n, account, limit, now);
      assert rows[..n][..i] == rows[..i];
      HandedStops(rows[..n], i, account, limit, now);
    }
  }

  // ----- the queue as a value

  datatype Queue = Queue(rows: seq<Row>, receipts: map<int, Receipt>, leaseSeconds: int)

  function FindKey(rows: seq<Row>, key: string): (found: Option<nat>)
    ensures found.Some? ==> found.value < |rows| && rows[found.value].key == key
    ensures found.None? ==> forall i :: 0 <= i < |rows| ==> rows[i].key != key
  {
    LastIndex(rows, (r: Row) => r.key == key)
  }

  function FindId(rows: seq<Row>, id: int): (found: Option<nat>)
    ensures found.Some? ==> found.value < |rows| && rows[found.value].id == id
    ensures found.None? ==> forall i :: 0 <= i < |rows| ==> rows[i].id != id
  {
    LastIndex(rows, (r: Row) => r.id == id)
  }

  /** Dictionary assignment: a known id keeps its place. */
  function Put(rows: seq<Row>, row: Row): seq<Row> {
    var at := FindId(rows, row.id);
    if at.Some? then rows[at.value := row] else rows + [row]
  }

  function Enqueued(rows: seq<Row>, row: Row): Result<seq<Row>, string> {
    var bound := FindKey(rows, row.key);
    if bound.None? then Success(Put(rows, row))
    else if rows[bound.value].payload != row.payload || rows[bound.value].action != row.action
    then Failure("idempotency key is bound to a different command")
    else Success(rows)
  }

  /** The first receipt of a command settles it. */
  function Received(q: Queue, receipt: Receipt): Queue {
    if receipt.command in q.receipts then q
    else
      var at := FindId(q.rows, receipt.command);
      q.(receipts := q.receipts[receipt.command := receipt],
         rows := if at.Some? then q.rows[at.value := q.rows[at.value].(state := receipt.state, lease := None)]
           else q.rows)
  }

  ghost predicate Distinct(rows: seq<Row>) {
    forall i, j :: 0 <= i < j < |rows| ==> rows[i].id != rows[j].id && rows[i].key != rows[j].key
  }

  // ----- the queue as objects

  class BridgeCommand {
    const id: int
    const account: int
    const action: string
    const key: string
    const payload: string
    var state: string
    var lease: Option<int>

    constructor (id: int, account: int, action: string, key: string, payload: string)
      ensures View() == Row(id, account, action, key, payload, "QUEUED", None)
    {
      this.id, this.account, this.action, this.key, this.payload := id, account, action, key, payload;
      state, lease := "QUEUED", None;
    }

    function View(): Row
      reads this
    {
      Row(id, account, action, key, payload, state, lease)
    }
  }

  function Views(commands: seq<BridgeCommand>): (rows: seq<Row>)
    reads commands
    ensures |rows| == |commands| && forall i :: 0 <= i < |rows| ==> rows[i] == commands[i].View()
  {
    if commands == [] then [] else Views(commands[..|commands| - 1]) + [commands[|commands| - 1].View()]
  }

  function Ids(commands: seq<BridgeCommand>): seq<int> {
    seq(|commands|, i requires 0 <= i < |commands| => commands[i].id)
  }

  class BridgeCommandQueue {
    var pending: seq<BridgeCommand>
    var receipts: map<int, Receipt>
    const leaseSeconds: int

    ghost predicate Valid()
      reads this, pending
    {
      Distinct(Views(pending)) && leaseSeconds >= 5
    }

    function Current(): Queue
      reads this, pending
    {
      Queue(Views(pending), receipts, leaseSeconds)
    }

    constructor (leaseSeconds: int)
      ensures Valid() && Current() == Queue([], map[], this.leaseSeconds)
      ensures this.leaseSeconds == if leaseSeconds > 5 then leaseSeconds else 5
    {
      pending, receipts := [], map[];
      this.leaseSeconds := if leaseSeconds > 5 then leaseSeconds else 5;
    }

    /** The loop looks for the key; a new command joins the queue. */
    method Enqueue(command: BridgeCommand) returns (r: Result<BridgeCommand, string>)
      requires Valid()
      modifies this`pending
      ensures Valid() && receipts == old(receipts)
      ensures
        var spec := Enqueued(old(Views(pending)), command.View());
        && Views(pending) == (if spec.Success? then spec.value else old(Views(pending)))
        && (r.Success? <==> spec.Success?) && (r.Failure? ==> r.error == spec.error)
        && (r.Success? ==> r.value in pending && r.value.key == command.key
                           && (FindKey(old(Views(pending)), command.key).None? ==> r.value == command))
    {
      hide Views, FindKey, FindId, Put, Distinct;
      ghost var before := Views(pending);
      for i := 0 to |pending|
        invariant forall k :: 0 <= k < i ==> before[k].key != command.key
      {
        if pending[i].key == command.key {
          OnlyHolder(before, i, command.key);
          if pending[i].payload != command.payload || pending[i].action != command.action {
            return Failure("idempotency key is bound to a different command");
          }
          return Success(pending[i]);
        }
      }
      NoHolder(before, command.key);
      Assign(command);
      PutKeepsDistinct(before, command.View());
      return Success(command);
    }

    /** `self.pending[command.command_id] = command`. */
    method Assign(command: BridgeCommand)
      modifies this`pending
      ensures Views(pending) == Put(old(Views(pending)), command.View())
      ensures command in pending
    {
      hide Views, FindId;
      var at := FindId(Views(pending), command.id);
      if at.Some? {
        pending := pending[at.value := command];
        assert pending[at.value] == command;
      } else {
        pending := pending + [command];
        assert pending[|pending| - 1] == command;
      }
    }

    /** Rewrites one command in place. */
    method Rewrite(at: nat, state: string, lease: Option<int>)
      requires Valid() && at < |pending|
      modifies pending[at]
      ensures Views(pending) == old(Views(pending))[at := old(Views(pending))[at].(state := state, lease := lease)]
      ensures Valid()
    {
      hide Views;
      ghost var rows := Views(pending);
      forall k | 0 <= k < |pending| && k != at
        ensures pending[k] != pending[at]
      {
        assert rows[k].id == pending[k].id && rows[at].id == pending[at].id;
      }
      pending[at].state := state;
      pending[at].lease := lease;
    }

    method Poll(account: int, limit: int, now: int) returns (result: seq<BridgeCommand>)
      requires Valid()
      modifies pending
      ensures Valid() && pending == old(pending) && receipts == old(receipts)
      ensures Views(pending) == Polled(old(Views(pending)), account, limit, now, leaseSeconds)
      ensures Ids(result) == Handed(old(Views(pending)), account, limit, now)
      ensures forall c :: c in result ==> c in pending
    {
      hide Views, Handed, Available, Taken, Distinct, Deliverable;
      result := [];
      ghost var rows := Views(pending);
      ghost var stop := |rows|;
      NothingYet(rows, account, limit, now);
      for i := 0 to |pending|
        invariant Valid()
        invariant forall k :: 0 <= k < i ==> Views(pending)[k] == PolledRow(rows, k, account, limit, now, leaseSeconds)
        invariant forall k :: i <= k < |pending| ==> Views(pending)[k] == rows[k]
        invariant Ids(result) == Handed(rows[..i], account, limit, now)
        invariant |result| == Available(rows[..i], account, now) < Cap(limit)
        invariant forall c :: c in result ==> c in pending
      {
        var command := pending[i];
        assert Views(pending)[i] == rows[i];
        ProgressAt(rows, i, account, limit, now);
        if !Due(command, account, now) {
          continue;
        }
        Rewrite(i, "LEASED", Some(WholeSecond(now) + leaseSeconds * SECOND));
        result := result + [command];
        if |result| >= limit {
          stop := i + 1;
          break;
        }
      }
      Finishes(rows, stop, account, limit, now, leaseSeconds);
    }

    method Receive(receipt: Receipt) returns (r: Receipt)
      requires Valid()
      modifies this`receipts, pending
      ensures Valid() && pending == old(pending)
      ensures Current() == Received(old(Current()), receipt)
      ensures r == Current().receipts[receipt.command]
    {
      hide Views, FindId, Distinct;
      if receipt.command in receipts {
        return receipts[receipt.command];
      }
      receipts := receipts[receipt.command := receipt];
      var at := FindId(Views(pending), receipt.command);
      if at.Some? {
        Rewrite(at.value, receipt.state, None);
      }
      return receipt;
    }
  }

  /** The two tests that make `poll` skip a command. */
  predicate Due(command: BridgeCommand, account: int, now: int)
    reads command
    ensures Due(command, account, now) <==> Deliverable(command.View(), account, now)
  {
    if command.account != account || !Offered(command.state) then false
    else !(command.state == "LEASED" && command.lease.Some? && command.lease.value > now)
  }

  lemma NothingYet(rows: seq<Row>, account: int, limit: int, now: int)
    ensures Available(rows[..0], account, now) == 0 && Handed(rows[..0], account, limit, now) == []
  {
  }

  lemma NoHolder(rows: seq<Row>, key: string)
    requires forall k :: 0 <= k < |rows| ==> rows[k].key != key
    ensures FindKey(rows, key).None?
  {
  }

  lemma PutKeepsDistinct(rows: seq<Row>, row: Row)
    requires Distinct(rows) && FindKey(rows, row.key).None?
    ensures Distinct(Put(rows, row))
  {
    hide FindKey, FindId;
  }

  lemma OnlyHolder(rows: seq<Row>, i: nat, key: string)
    requires i < |rows| && rows[i].key == key && Distinct(rows)
    ensures FindKey(rows, key) == Some(i)
  {
    hide FindKey;
  }

  /** One more command looked at. */
  lemma ProgressAt(rows: seq<Row>, i: nat, account: int, limit: int, now: int)
    requires i < |rows| && Available(rows[..i], account, now) < Cap(limit)
    ensures Taken(rows, i, account, limit, now) <==> Deliverable(rows[i], account, now)
    ensures Available(rows[..i + 1], account, now)
         == Available(rows[..i], account, now) + if Deliverable(rows[i], account, now) then 1 else 0
    ensures Handed(rows[..i + 1], account, limit, now)
         == Handed(rows[..i], account, limit, now) + if Deliverable(rows[i], account, now) then [rows[i].id] else []
  {
    assert rows[..i + 1][..i] == rows[..i];
  }

  /** Where the loop stops, the rest of the queue stays as it was. */
  lemma Finishes(rows: seq<Row>, stop: nat, account: int, limit: int, now: int, leaseSeconds: int)
    requires stop <= |rows| && (stop == |rows| || Available(rows[..stop], account, now) >= Cap(limit))
    ensures Handed(rows, account, limit, now) == Handed(rows[..stop], account, limit, now)
    ensures forall k :: stop <= k < |rows| ==> PolledRow(rows, k, account, limit, now, leaseSeconds) == rows[k]
  {
    if stop == |rows| {
      assert rows[..stop] == rows;
    } else {
      HandedStops(rows, stop, account, limit, now);
      forall k | stop <= k < |rows|
        ensures PolledRow(rows, k, account, limit, now, leaseSeconds) == rows[k]
      {
        NothingMore(rows, stop, k, account, limit, now);
      }
    }
  }
}
