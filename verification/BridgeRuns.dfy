/** The command queue over whole runs, for any clock: unique keys, first receipts, settled commands and
    the time between two deliveries of one command. */
module BridgeRuns {
  import opened Numbers
  import opened BridgeQueue

  datatype Event = Enqueue(row: Row) | Poll(account: int, limit: int, now: int) | Receive(receipt: Receipt)

  function After(q: Queue, e: Event): Queue {
    match e
    case Enqueue(row) =>
      var r := Enqueued(q.rows, row);
      if r.Success? then q.(rows := r.value) else q
    case Poll(account, limit, now) => q.(rows := Polled(q.rows, account, limit, now, q.leaseSeconds))
    case Receive(receipt) => Received(q, receipt)
  }

  function AfterAll(q: Queue, events: seq<Event>): Queue {
    if events == [] then q else After(AfterAll(q, events[..|events| - 1]), events[|events| - 1])
  }

  /** The poll hands this command out. */
  predicate HandsOut(q: Queue, e: Event, id: int) {
    e.Poll? && id in Handed(q.rows, e.account, e.limit, e.now)
  }

  function RowOf(rows: seq<Row>, id: int): Option<Row> {
    var at := FindId(rows, id);
    if at.Some? then Some(rows[at.value]) else None
  }

  lemma RowAt(rows: seq<Row>, i: nat)
    requires i < |rows| && Distinct(rows)
    ensures RowOf(rows, rows[i].id) == Some(rows[i])
  {
    hide FindId;
  }

  lemma {:induction false} HandedExactly(rows: seq<Row>, account: int, limit: int, now: int, id: int)
    ensures id in Handed(rows, account, limit, now) <==>
      exists i :: 0 <= i < |rows| && Taken(rows, i, account, limit, now) && rows[i].id == id
  {
    hide Taken;
    if rows != [] {
      var n := |rows| - 1;
      HandedExactly(rows[..n], account, limit, now, id);
      forall i | 0 <= i < n
        ensures Taken(rows[..n], i, account, limit, now) == Taken(rows, i, account, limit, now)
      {
        TakenByPrefix(rows, n, i, account, limit, now);
      }
    }
  }

  lemma TakenByPrefix(rows: seq<Row>, n: nat, i: nat, account: int, limit: int, now: int)
    requires i < n <= |rows|
    ensures Taken(rows[..n], i, account, limit, now) == Taken(rows, i, account, limit, now)
  {
    assert rows[..n][..i] == rows[..i];
  }

  // ----- what a poll hands out

  /** A command of the account that waits, or whose lease is over. */
  predicate OnOffer(r: Row, account: int, now: int) {
    && r.account == account
    && (r.state == "QUEUED" || (r.state == "LEASED" && (r.lease.None? || r.lease.value <= now)))
  }

  lemma OnOfferIsDeliverable(r: Row, account: int, now: int)
    ensures OnOffer(r, account, now) <==> Deliverable(r, account, now)
  {
  }

  /** A poll hands out exactly the account's commands on offer that have fewer than its limit of them before them in
      the queue; a limit below one counts as one. */
  lemma HandedOutExactly(rows: seq<Row>, account: int, limit: int, now: int, i: nat)
    requires Distinct(rows) && i < |rows|
    ensures rows[i].id in Handed(rows, account, limit, now) <==>
      OnOffer(rows[i], account, now) && Available(rows[..i], account, now) < (if limit < 1 then 1 else limit)
  {
    hide Handed, Deliverable, OnOffer, Available;
    HandedExactly(rows, account, limit, now, rows[i].id);
    OnOfferIsDeliverable(rows[i], account, now);
    if j :| 0 <= j < |rows| && Taken(rows, j, account, limit, now) && rows[j].id == rows[i].id {
      assert j == i;
    }
    assert Taken(rows, i, account, limit, now) ==> rows[i].id == rows[i].id;
  }

  /** A command that is handed out is leased from the whole second of the poll; every other one stays. */
  lemma PollLeasesExactly(rows: seq<Row>, account: int, limit: int, now: int, leaseSeconds: int, i: nat)
    requires Distinct(rows) && i < |rows|
    ensures
      var after := Polled(rows, account, limit, now, leaseSeconds);
      && |after| == |rows|
      && (rows[i].id !in Handed(rows, account, limit, now) ==> after[i] == rows[i])
      && (rows[i].id in Handed(rows, account, limit, now) ==>
            && after[i].lease.Some? && after[i] == rows[i].(state := "LEASED", lease := after[i].lease)
            && after[i].lease.value % 1_000_000 == 0
            && now - 1_000_000 < after[i].lease.value - leaseSeconds * 1_000_000 <= now)
  {
    hide Handed, Deliverable, Available;
    HandedExactly(rows, account, limit, now, rows[i].id);
    if j :| 0 <= j < |rows| && Taken(rows, j, account, limit, now) && rows[j].id == rows[i].id {
      assert j == i;
    }
    WholeSecondsAdd(now, leaseSeconds);
  }

  /** A known key returns what it names, or is refused for another payload or action; a new one joins under its id
      and leaves every command of another id in its place. */
  lemma EnqueueExactly(rows: seq<Row>, row: Row)
    requires Distinct(rows)
    ensures Enqueued(rows, row).Failure? <==>
      exists i :: 0 <= i < |rows| && rows[i].key == row.key
        && (rows[i].payload != row.payload || rows[i].action != row.action)
    ensures (exists i :: 0 <= i < |rows| && rows[i].key == row.key) && Enqueued(rows, row).Success? ==>
      Enqueued(rows, row).value == rows
    ensures (forall i :: 0 <= i < |rows| ==> rows[i].key != row.key) ==>
      && Enqueued(rows, row).Success? && row in Enqueued(rows, row).value
      && |rows| <= |Enqueued(rows, row).value| <= |rows| + 1
      && forall i :: 0 <= i < |rows| && rows[i].id != row.id ==> Enqueued(rows, row).value[i] == rows[i]
  {
    hide FindKey, FindId;
    if FindKey(rows, row.key).None? {
      var next := Put(rows, row);
      var at := if FindId(rows, row.id).Some? then FindId(rows, row.id).value else |rows|;
      assert next[at] == row;
    }
  }

  // ----- unique keys, first receipts

  lemma EventKeepsDistinct(q: Queue, e: Event)
    requires Distinct(q.rows)
    ensures Distinct(After(q, e).rows)
  {
    hide FindKey, FindId, Taken, Put;
    if e.Enqueue? && FindKey(q.rows, e.row.key).None? {
      PutKeepsDistinct(q.rows, e.row);
    }
  }

  /** Ids and idempotency keys in the queue stay unique over every run. */
  lemma {:induction false} KeysStayUnique(q: Queue, events: seq<Event>)
    requires Distinct(q.rows)
    ensures Distinct(AfterAll(q, events).rows)
    decreases |events|
  {
    hide After, Distinct;
    if events != [] {
      KeysStayUnique(q, events[..|events| - 1]);
      EventKeepsDistinct(AfterAll(q, events[..|events| - 1]), events[|events| - 1]);
    }
  }

  /** The first receipt of a command is its receipt for good. */
  lemma {:induction false} FirstReceiptWins(q: Queue, events: seq<Event>, id: int)
    requires id in q.receipts
    ensures id in AfterAll(q, events).receipts && AfterAll(q, events).receipts[id] == q.receipts[id]
    decreases |events|
  {
    hide FindKey, FindId, Taken, Put, Polled;
    if events != [] {
      FirstReceiptWins(q, events[..|events| - 1], id);
    }
  }

  // ----- settled commands

  /** The command's receipt says that it is done, one way or another. */
  predicate Settled(q: Queue, id: int) {
    id in q.receipts && !Offered(q.receipts[id].state)
  }

  /** A settling receipt shows in the queue. */
  ghost predicate Shows(q: Queue, id: int) {
    forall i :: 0 <= i < |q.rows| && q.rows[i].id == id && Settled(q, id) ==> q.rows[i].state == q.receipts[id].state
  }

  /** The event puts a command with a new key in the queue under this id. */
  predicate Brings(q: Queue, e: Event, id: int) {
    e.Enqueue? && e.row.id == id && FindKey(q.rows, e.row.key).None?
  }

  lemma EventShows(q: Queue, e: Event, id: int)
    requires Distinct(q.rows) && Shows(q, id) && (Brings(q, e, id) ==> !Settled(q, id))
    ensures Shows(After(q, e), id)
  {
    hide FindKey, FindId;
  }

  /** No command joins the queue under this id once a receipt has settled the id. */
  ghost predicate JoinsInTime(q: Queue, events: seq<Event>, id: int) {
    forall k :: 0 <= k < |events| && Brings(AfterAll(q, events[..k]), events[k], id) ==>
      !Settled(AfterAll(q, events[..k]), id)
  }

  lemma JoinsInTimeEarlier(q: Queue, events: seq<Event>, id: int, n: nat)
    requires n <= |events| && JoinsInTime(q, events, id)
    ensures JoinsInTime(q, events[..n], id)
  {
    hide AfterAll, Brings, Settled;
    forall k | 0 <= k < n && Brings(AfterAll(q, events[..n][..k]), events[..n][k], id)
      ensures !Settled(AfterAll(q, events[..n][..k]), id)
    {
      assert events[..n][..k] == events[..k];
    }
  }

  lemma {:induction false} RunShows(q: Queue, events: seq<Event>, id: int)
    requires Distinct(q.rows) && Shows(q, id) && JoinsInTime(q, events, id)
    ensures Shows(AfterAll(q, events), id)
    decreases |events|
  {
    hide After, Distinct, Shows, Brings, Settled;
    if events != [] {
      var n := |events| - 1;
      JoinsInTimeEarlier(q, events, id, n);
      RunShows(q, events[..n], id);
      KeysStayUnique(q, events[..n]);
      EventShows(AfterAll(q, events[..n]), events[n], id);
    }
  }

  lemma SettledIsHeldBack(q: Queue, e: Event, id: int)
    requires Shows(q, id) && Settled(q, id)
    ensures !HandsOut(q, e, id)
  {
    if e.Poll? {
      HandedExactly(q.rows, e.account, e.limit, e.now, id);
      forall i | 0 <= i < |q.rows| && q.rows[i].id == id
        ensures !Taken(q.rows, i, e.account, e.limit, e.now)
      {
      }
    }
  }

  /** A poll whose limit exceeds the queue. */
  function PollAll(q: Queue, account: int, now: int): Event {
    Poll(account, |q.rows| + 1, now)
  }

  lemma {:induction false} FewAvailable(rows: seq<Row>, account: int, now: int)
    ensures Available(rows, account, now) <= |rows|
  {
    if rows != [] {
      FewAvailable(rows[..|rows| - 1], account, now);
    }
  }

  lemma DeliverableIsHandedOut(q: Queue, i: nat, now: int)
    requires i < |q.rows| && Deliverable(q.rows[i], q.rows[i].account, now)
    ensures HandsOut(q, PollAll(q, q.rows[i].account, now), q.rows[i].id)
  {
    var row := q.rows[i];
    FewAvailable(q.rows[..i], row.account, now);
    assert Taken(q.rows, i, row.account, |q.rows| + 1, now);
    HandedExactly(q.rows, row.account, |q.rows| + 1, now, row.id);
  }

  /** A queued command that joins is handed out by the next poll that reaches it, whatever receipt its id has. */
  lemma JoinedIsHandedOut(q: Queue, row: Row, now: int)
    requires Brings(q, Enqueue(row), row.id) && row.state == "QUEUED"
    ensures
      var after := After(q, Enqueue(row));
      HandsOut(after, PollAll(after, row.account, now), row.id)
  {
    hide HandsOut, FindKey, FindId;
    var after := After(q, Enqueue(row));
    var i := if FindId(q.rows, row.id).Some? then FindId(q.rows, row.id).value else |q.rows|;
    assert after.rows[i] == row;
    DeliverableIsHandedOut(after, i, now);
  }

  /** Nowhere along the run does a poll hand out the command after a receipt has settled it. */
  ghost predicate NeverRevived(q: Queue, events: seq<Event>, id: int) {
    forall k, poll :: 0 <= k <= |events| && Settled(AfterAll(q, events[..k]), id) ==>
      !HandsOut(AfterAll(q, events[..k]), poll, id)
  }

  lemma LateJoinerIsHandedOut(q: Queue, events: seq<Event>, id: int, k: nat)
    requires k < |events| && events[k].Enqueue? && events[k].row.state == "QUEUED"
    requires Brings(AfterAll(q, events[..k]), events[k], id) && Settled(AfterAll(q, events[..k]), id)
    ensures !NeverRevived(q, events, id)
  {
    hide AfterAll, HandsOut, FindKey, FindId;
    var before, row := AfterAll(q, events[..k]), events[k].row;
    var after := After(before, events[k]);
    OneEventMore(q, events, k);
    JoinedIsHandedOut(before, row, 0);
    assert Settled(AfterAll(q, events[..k + 1]), id);
    assert HandsOut(AfterAll(q, events[..k + 1]), PollAll(after, row.account, 0), id);
  }

  lemma OneEventMore(q: Queue, events: seq<Event>, k: nat)
    requires k < |events|
    ensures AfterAll(q, events[..k + 1]) == After(AfterAll(q, events[..k]), events[k])
  {
    hide After;
    assert events[..k + 1][..k] == events[..k];
  }

  /** A settled command is never handed out again in a run if and only if no command joins the queue under its id
      after the receipt, that is, no receipt comes before its command. */
  lemma SettledIsNeverHandedOut(q: Queue, events: seq<Event>, id: int)
    requires Distinct(q.rows) && Shows(q, id)
    requires forall k :: 0 <= k < |events| && events[k].Enqueue? ==> events[k].row.state == "QUEUED"
    ensures NeverRevived(q, events, id) <==> JoinsInTime(q, events, id)
  {
    hide AfterAll, Brings, Settled, HandsOut, Distinct, Shows;
    if JoinsInTime(q, events, id) {
      forall k, poll | 0 <= k <= |events| && Settled(AfterAll(q, events[..k]), id)
        ensures !HandsOut(AfterAll(q, events[..k]), poll, id)
      {
        JoinsInTimeEarlier(q, events, id, k);
        RunShows(q, events[..k], id);
        SettledIsHeldBack(AfterAll(q, events[..k]), poll, id);
      }
    } else {
      var k :| 0 <= k < |events| && Brings(AfterAll(q, events[..k]), events[k], id)
        && Settled(AfterAll(q, events[..k]), id);
      BringsAQueuedRow(AfterAll(q, events[..k]), events[k], id);
      LateJoinerIsHandedOut(q, events, id, k);
    }
  }

  lemma BringsAQueuedRow(q: Queue, e: Event, id: int)
    requires Brings(q, e, id)
    ensures e.Enqueue?
  {
  }

  /** A receipt that arrives before its command settles nothing: the command is handed out afterwards. */
  lemma EarlyReceiptDoesNotSettle(row: Row, leaseSeconds: int, now: int)
    requires row.state == "QUEUED"
    ensures
      var early := After(Queue([], map[], leaseSeconds), Receive(Receipt(row.id, "APPLIED", "CONFIRMED")));
      var q := After(early, Enqueue(row));
      Settled(q, row.id) && HandsOut(q, PollAll(q, row.account, now), row.id)
  {
    hide HandsOut;
    var early := After(Queue([], map[], leaseSeconds), Receive(Receipt(row.id, "APPLIED", "CONFIRMED")));
    JoinedIsHandedOut(early, row, now);
  }

  // ----- leases

  /** The command is leased until `until` at least. */
  predicate LeasedUntil(q: Queue, id: int, until: int) {
    var row := RowOf(q.rows, id);
    row.Some? && row.value.state == "LEASED" && row.value.lease.Some? && row.value.lease.value >= until
  }

  /** No poll before `until` hands the command out. */
  predicate HeldUntil(q: Queue, id: int, until: int) {
    var row := RowOf(q.rows, id);
    row.Some? && (LeasedUntil(q, id, until) || !Offered(row.value.state))
  }

  /** The event is the command's first receipt and puts it back on offer. */
  predicate Reoffers(q: Queue, e: Event, id: int) {
    e.Receive? && e.receipt.command == id && id !in q.receipts && Offered(e.receipt.state)
  }

  /** The event puts the command, or another one under its id, on offer. */
  predicate EndsLease(q: Queue, e: Event, id: int) {
    Reoffers(q, e, id) || Brings(q, e, id)
  }

  lemma DeliveryLeases(q: Queue, e: Event, id: int)
    requires Distinct(q.rows) && HandsOut(q, e, id)
    ensures LeasedUntil(After(q, e), id, WholeSecond(e.now) + q.leaseSeconds * SECOND)
  {
    hide FindId, Available, FindKey, WholeSecond;
    HandedExactly(q.rows, e.account, e.limit, e.now, id);
    var i :| 0 <= i < |q.rows| && Taken(q.rows, i, e.account, e.limit, e.now) && q.rows[i].id == id;
    RowAt(q.rows, i);
    EventKeepsDistinct(q, e);
    RowAt(After(q, e).rows, i);
  }

  lemma WholeSecondKeeps(until: int, now: int)
    requires until % SECOND == 0 && until <= now
    ensures until <= WholeSecond(now)
  {
  }

  lemma PutKeepsRow(rows: seq<Row>, row: Row, id: int)
    requires Distinct(rows) && row.id != id && FindKey(rows, row.key).None?
    ensures RowOf(rows, id).Some? ==> RowOf(Put(rows, row), id) == RowOf(rows, id)
  {
    hide FindId, FindKey;
    PutKeepsDistinct(rows, row);
    if RowOf(rows, id).Some? {
      var i := FindId(rows, id).value;
      assert Put(rows, row)[i] == rows[i];
      RowAt(Put(rows, row), i);
    }
  }

  lemma LeaseSurvives(q: Queue, e: Event, id: int, until: int)
    requires Distinct(q.rows) && HeldUntil(q, id, until) && !EndsLease(q, e, id)
    requires until % SECOND == 0 && q.leaseSeconds >= 0
    ensures HeldUntil(After(q, e), id, until)
  {
    hide FindId, FindKey, Put, Available, WholeSecond;
    var i := FindId(q.rows, id).value;
    RowAt(q.rows, i);
    EventKeepsDistinct(q, e);
    match e
    case Enqueue(row) =>
      if FindKey(q.rows, row.key).None? {
        PutKeepsRow(q.rows, row, id);
      }
    case Poll(account, limit, now) =>
      RowAt(After(q, e).rows, i);
      if Taken(q.rows, i, account, limit, now) {
        WholeSecondKeeps(until, now);
      }
    case Receive(receipt) =>
      RowAt(After(q, e).rows, i);
  }

  ghost predicate NothingEnds(q: Queue, events: seq<Event>, id: int) {
    forall k :: 0 <= k < |events| ==> !EndsLease(AfterAll(q, events[..k]), events[k], id)
  }

  lemma {:induction false} LeaseSurvivesAll(q: Queue, events: seq<Event>, id: int, until: int)
    requires Distinct(q.rows) && HeldUntil(q, id, until) && NothingEnds(q, events, id)
    requires until % SECOND == 0 && q.leaseSeconds >= 0
    ensures HeldUntil(AfterAll(q, events), id, until) && AfterAll(q, events).leaseSeconds == q.leaseSeconds
    decreases |events|
  {
    hide Distinct, HeldUntil, EndsLease, Enqueued, Received, Polled;
    if events != [] {
      var init := events[..|events| - 1];
      forall k | 0 <= k < |init|
        ensures !EndsLease(AfterAll(q, init[..k]), init[k], id)
      {
        assert init[..k] == events[..k];
      }
      LeaseSurvivesAll(q, init, id, until);
      KeysStayUnique(q, init);
      LeaseSurvives(AfterAll(q, init), events[|init|], id, until);
      KeepsLeaseSeconds(AfterAll(q, init), events[|init|]);
    }
  }

  lemma KeepsLeaseSeconds(q: Queue, e: Event)
    ensures After(q, e).leaseSeconds == q.leaseSeconds
  {
    hide FindKey, FindId, Polled;
  }

  lemma HeldIsNotHandedOut(q: Queue, e: Event, id: int, until: int)
    requires Distinct(q.rows) && HeldUntil(q, id, until) && HandsOut(q, e, id)
    ensures e.now >= until
  {
    hide FindId, Available;
    HandedExactly(q.rows, e.account, e.limit, e.now, id);
    var i :| 0 <= i < |q.rows| && Taken(q.rows, i, e.account, e.limit, e.now) && q.rows[i].id == id;
    RowAt(q.rows, i);
  }

  /** Redelivery: once handed out, a command is handed out again no earlier than the whole second of that
      delivery plus the lease, whatever the clock and the other commands do, unless in between its first receipt
      puts it back on offer or a new command takes its id. */
  lemma RedeliveryWaits(q: Queue, first: Event, between: seq<Event>, again: Event, id: int)
    requires Distinct(q.rows) && q.leaseSeconds >= 0
    requires HandsOut(q, first, id) && NothingEnds(After(q, first), between, id)
    requires HandsOut(AfterAll(After(q, first), between), again, id)
    ensures again.now >= WholeSecond(first.now) + q.leaseSeconds * SECOND
  {
    hide After, AfterAll, LeasedUntil, NothingEnds, Distinct, WholeSecond, Handed;
    var until := WholeSecond(first.now) + q.leaseSeconds * SECOND;
    DeliveryLeases(q, first, id);
    LeasedIsHeld(After(q, first), id, until);
    EventKeepsDistinct(q, first);
    KeepsLeaseSeconds(q, first);
    WholeSecondsAdd(first.now, q.leaseSeconds);
    LeaseSurvivesAll(After(q, first), between, id, until);
    KeysStayUnique(After(q, first), between);
    HeldIsNotHandedOut(AfterAll(After(q, first), between), again, id, until);
  }

  lemma LeasedIsHeld(q: Queue, id: int, until: int)
    requires LeasedUntil(q, id, until)
    ensures HeldUntil(q, id, until)
  {
  }

  ghost predicate HandedOutAt(q: Queue, id: int, now: int) {
    exists account, limit :: HandsOut(q, Poll(account, limit, now), id)
  }

  lemma EndedIsHandedOut(q: Queue, e: Event, id: int, now: int)
    requires Distinct(q.rows) && EndsLease(q, e, id) && RowOf(q.rows, id).Some?
    requires e.Enqueue? ==> e.row.state == "QUEUED"
    ensures HandedOutAt(After(q, e), id, now)
  {
    hide HandsOut, FindId, FindKey;
    var after := After(q, e);
    if e.Enqueue? {
      JoinedIsHandedOut(q, e.row, now);
      assert HandsOut(after, Poll(e.row.account, |after.rows| + 1, now), id);
    } else {
      var i := FindId(q.rows, id).value;
      DeliverableIsHandedOut(after, i, now);
      assert HandsOut(after, Poll(after.rows[i].account, |after.rows| + 1, now), id);
    }
  }

  /** Before its lease is over, a poll can hand a leased command out after one more event if and only if that
      event is a first receipt that offers it again or brings a new command under its id. */
  lemma LeaseEndsExactly(q: Queue, e: Event, id: int, until: int, now: int)
    requires Distinct(q.rows) && LeasedUntil(q, id, until) && now < until
    requires until % SECOND == 0 && q.leaseSeconds >= 0
    requires e.Enqueue? ==> e.row.state == "QUEUED"
    ensures HandedOutAt(After(q, e), id, now) <==> EndsLease(q, e, id)
  {
    hide After, HandsOut, FindId, EndsLease, Distinct;
    if EndsLease(q, e, id) {
      EndedIsHandedOut(q, e, id, now);
    } else {
      LeaseSurvives(q, e, id, until);
      EventKeepsDistinct(q, e);
      if account, limit :| HandsOut(After(q, e), Poll(account, limit, now), id) {
        HeldIsNotHandedOut(After(q, e), Poll(account, limit, now), id, until);
        assert false;
      }
    }
  }

  lemma WholeSecondsAdd(now: int, seconds: int)
    ensures (WholeSecond(now) + seconds * SECOND) % SECOND == 0
  {
    assert WholeSecond(now) == now / SECOND * SECOND;
    assert WholeSecond(now) + seconds * SECOND == (now / SECOND + seconds) * SECOND;
    Multiple(now / SECOND + seconds);
  }

  lemma Multiple(n: int)
    ensures (n * SECOND) % SECOND == 0
  {
  }
}
