/** Durable risk reservations: a table of rows, the operations on it, and the active sum
    they may or may not change. Each operation is one database transaction. */
module Reservations {
  import opened Numbers

  datatype State = Provisional | CommandPending | OrderWorking | PartiallyFilled | OpenPosition
                 | Released | Expired | Active | Confirmed

  predicate Terminal(s: State) {
    s == Released || s == Expired
  }

  datatype Reservation = Reservation(
    owner: int, account: int, plan: Option<int>, command: Option<int>, position: Option<int>,
    amount: real, state: State, expiresAt: int, version: nat)

  // A row's identity is its index: rows are only ever appended.
  type Table = seq<Reservation>

  predicate Holds(r: Reservation, owner: int, account: int) {
    r.owner == owner && r.account == account && !Terminal(r.state)
  }

  /** Amounts of an account's active rows. */
  function ActiveAmounts(t: Table, owner: int, account: int): seq<real> {
    if t == [] then []
    else
      var rest := ActiveAmounts(t[..|t| - 1], owner, account);
      if Holds(t[|t| - 1], owner, account) then rest + [t[|t| - 1].amount] else rest
  }

  function ActiveSum(t: Table, owner: int, account: int): real {
    Sum(ActiveAmounts(t, owner, account))
  }

  /** What one row adds to an account's active sum. */
  function Part(r: Reservation, owner: int, account: int): real {
    if Holds(r, owner, account) then r.amount else 0.0
  }

  ghost predicate NonNegative(t: Table) {
    forall i :: 0 <= i < |t| ==> t[i].amount >= 0.0
  }

  // ----- the operations as functions of the table

  predicate Lapses(r: Reservation, account: Option<int>, now: int) {
    !Terminal(r.state) && r.expiresAt <= now && (account.None? || r.account == account.value)
  }

  function ExpireRow(r: Reservation, account: Option<int>, now: int): Reservation {
    if Lapses(r, account, now) then r.(state := Expired, version := r.version + 1) else r
  }

  function ExpireAll(t: Table, account: Option<int>, now: int): Table {
    seq(|t|, i requires 0 <= i < |t| => ExpireRow(t[i], account, now))
  }

  function FindPlan(t: Table, owner: int, plan: int): (found: Option<nat>)
    ensures found.Some? ==> found.value < |t| && t[found.value].owner == owner && t[found.value].plan == Some(plan)
    ensures found.None? ==> forall i :: 0 <= i < |t| ==> !(t[i].owner == owner && t[i].plan == Some(plan))
  {
    LastIndex(t, (r: Reservation) => r.owner == owner && r.plan == Some(plan))
  }

  datatype Granted = Granted(table: Table, id: nat)

  /** `reserve`: an existing reservation of the plan is returned as it is; otherwise lapsed rows
      expire and the amount must fit what the active rows leave of `available`. */
  function Reserved(t: Table, accountExists: bool, owner: int, account: int, plan: int,
                    amount: real, available: real, now: int, ttl: int): Result<Granted, string> {
    var found := FindPlan(t, owner, plan);
    if !accountExists then Failure("active account is required before reserving risk")
    else if found.Some? then
      if t[found.value].amount != amount then Failure("trade plan is already bound to a different risk amount")
      else Success(Granted(t, found.value))
    else
      var live := ExpireAll(t, Some(account), now);
      if amount <= 0.0 || ActiveSum(live, owner, account) + amount > available
      then Failure("insufficient unreserved risk capacity")
      else Success(Granted(live + [Reservation(owner, account, Some(plan), None, None, amount, Provisional, now + ttl,
                                               1)], |t|))
  }

  datatype Change = Change(target: State, command: Option<int>, position: Option<int>, amount: Option<real>)

  function Or(a: Option<int>, b: Option<int>): Option<int> {
    if a.Some? then a else b
  }

  /** `transition`: any state may follow a live one; the amount may only shrink. */
  function Transitioned(t: Table, id: nat, owner: int, c: Change): Result<Table, string> {
    if id >= |t| || t[id].owner != owner then Failure("risk reservation not found")
    else if Terminal(t[id].state) then Failure("risk reservation is already terminal")
    else if c.amount.Some? && (c.amount.value < 0.0 || c.amount.value > t[id].amount)
    then Failure("reservation transition amount is invalid")
    else
      var r := t[id];
      Success(t[id := r.(state := c.target, command := Or(c.command, r.command), position := Or(c.position, r.position),
                         amount := if c.amount.Some? then c.amount.value else r.amount, version := r.version + 1)])
  }

  /** `split_partial_fill`: the row keeps the filled amount, the remainder becomes a new row. */
  function Split(t: Table, id: nat, owner: int, filled: real, position: int, remaining: real): Result<Table, string> {
    var kept := Transitioned(t, id, owner, Change(PartiallyFilled, None, Some(position), Some(filled)));
    if kept.Failure? || remaining <= 0.0 then kept
    else
      var r := kept.value[id];
      Success(kept.value + [Reservation(r.owner, r.account, None, r.command, None, remaining, CommandPending,
                                        r.expiresAt, 1)])
  }

  // ----- the store

  /** The store assigns rows and amounts step by step; a refused operation changes nothing. */
  class ReservationStore {
    var records: Table

    constructor ()
      ensures records == []
    {
      records := [];
    }

    method Expire(account: Option<int>, now: int)
      modifies this
      ensures records == ExpireAll(old(records), account, now)
    {
      var rows := records;
      records := seq(|rows|, i requires 0 <= i < |rows| => ExpireRow(rows[i], account, now));
    }

    method Reserve(accountExists: bool, owner: int, account: int, plan: int, amount: real, available: real, now: int,
                   ttl: int)
      returns (r: Result<nat, string>)
      modifies this
      ensures
        var spec := Reserved(old(records), accountExists, owner, account, plan, amount, available, now, ttl);
        && records == (if spec.Success? then spec.value.table else old(records))
        && r == (if spec.Success? then Success(spec.value.id) else Failure(spec.error))
    {
      if !accountExists {
        return Failure("active account is required before reserving risk");
      }
      var existing := FindPlan(records, owner, plan);
      if existing.Some? {
        if records[existing.value].amount != amount {
          return Failure("trade plan is already bound to a different risk amount");
        }
        return Success(existing.value);
      }
      var before := records;
      Expire(Some(account), now);
      var used := Sum(ActiveAmounts(records, owner, account));
      if amount <= 0.0 || used + amount > available {
        records := before;
        return Failure("insufficient unreserved risk capacity");
      }
      records := records + [Reservation(owner, account, Some(plan), None, None, amount, Provisional, now + ttl, 1)];
      return Success(|records| - 1);
    }

    method Transition(id: nat, owner: int, c: Change) returns (r: Result<Reservation, string>)
      modifies this
      ensures
        var spec := Transitioned(old(records), id, owner, c);
        && records == (if spec.Success? then spec.value else old(records))
        && r == (if spec.Success? then Success(records[id]) else Failure(spec.error))
    {
      if id >= |records| || records[id].owner != owner {
        return Failure("risk reservation not found");
      }
      var record := records[id];
      if Terminal(record.state) {
        return Failure("risk reservation is already terminal");
      }
      record := record.(state := c.target);
      record := record.(command := Or(c.command, record.command));
      record := record.(position := Or(c.position, record.position));
      if c.amount.Some? {
        if c.amount.value < 0.0 || c.amount.value > record.amount {
          return Failure("reservation transition amount is invalid");
        }
        record := record.(amount := c.amount.value);
      }
      record := record.(version := record.version + 1);
      records := records[id := record];
      return Success(record);
    }

    method SplitPartialFill(id: nat, owner: int, filled: real, position: int, remaining: real)
      returns (r: Result<Reservation, string>)
      modifies this
      ensures
        var spec := Split(old(records), id, owner, filled, position, remaining);
        && records == (if spec.Success? then spec.value else old(records))
        && r == (if spec.Success? then Success(records[id]) else Failure(spec.error))
    {
      r := Transition(id, owner, Change(PartiallyFilled, None, Some(position), Some(filled)));
      if r.Success? && remaining > 0.0 {
        var record := r.value;
        records := records + [Reservation(record.owner, record.account, None, record.command, None,
                                          remaining, CommandPending, record.expiresAt, 1)];
      }
    }
  }

  // ----- the active sum

  lemma ActiveSumSnoc(t: Table, r: Reservation, owner: int, account: int)
    ensures ActiveSum(t + [r], owner, account) == ActiveSum(t, owner, account) + Part(r, owner, account)
  {
    assert (t + [r])[..|t|] == t;
    SumSnoc(ActiveAmounts(t, owner, account), r.amount);
  }

  lemma {:induction false} ActiveSumUpdate(t: Table, id: nat, r: Reservation, owner: int, account: int)
    requires id < |t|
    ensures ActiveSum(t[id := r], owner, account)
         == ActiveSum(t, owner, account) - Part(t[id], owner, account) + Part(r, owner, account)
    decreases |t|
  {
    hide ActiveSum, Part;
    var init, last := t[..|t| - 1], t[|t| - 1];
    assert t == init + [last];
    ActiveSumSnoc(init, last, owner, account);
    if id == |t| - 1 {
      assert t[id := r] == init + [r];
      ActiveSumSnoc(init, r, owner, account);
    } else {
      ActiveSumUpdate(init, id, r, owner, account);
      assert t[id := r] == init[id := r] + [last];
      ActiveSumSnoc(init[id := r], last, owner, account);
    }
  }

  lemma {:induction false} ActiveSumIsNotNegative(t: Table, owner: int, account: int)
    requires NonNegative(t)
    ensures ActiveSum(t, owner, account) >= 0.0
  {
    if t != [] {
      var init := t[..|t| - 1];
      assert NonNegative(init) by {
        assert forall i :: 0 <= i < |init| ==> init[i] == t[i];
      }
      ActiveSumIsNotNegative(init, owner, account);
      ActiveSumSnoc(init, t[|t| - 1], owner, account);
      assert t == init + [t[|t| - 1]];
    }
  }

  /** Expiring rows never raises any account's active sum. */
  lemma {:induction false} ExpireNeverRaises(t: Table, expired: Option<int>, now: int, owner: int, account: int)
    requires NonNegative(t)
    ensures NonNegative(ExpireAll(t, expired, now))
    ensures ActiveSum(ExpireAll(t, expired, now), owner, account) <= ActiveSum(t, owner, account)
  {
    if t != [] {
      hide ActiveSum;
      var init, last := t[..|t| - 1], t[|t| - 1];
      assert NonNegative(init) by {
        assert forall i :: 0 <= i < |init| ==> init[i] == t[i];
      }
      ExpireNeverRaises(init, expired, now, owner, account);
      assert t == init + [last];
      assert ExpireAll(t, expired, now) == ExpireAll(init, expired, now) + [ExpireRow(last, expired, now)];
      ActiveSumSnoc(init, last, owner, account);
      ActiveSumSnoc(ExpireAll(init, expired, now), ExpireRow(last, expired, now), owner, account);
    }
  }

  /** A transition is accepted exactly for a live row of its owner and an amount that does not grow; it moves that row
      alone, keeps whose it is and when it lapses, and keeps a command or position that the change leaves out. */
  lemma TransitionExactly(t: Table, id: nat, by': int, c: Change)
    ensures
      var r := Transitioned(t, id, by', c);
      && (r.Success? <==>
            && id < |t| && t[id].owner == by' && t[id].state != Released && t[id].state != Expired
            && (c.amount.Some? ==> 0.0 <= c.amount.value <= t[id].amount))
      && (r.Success? ==>
            && |r.value| == |t| && (forall k :: 0 <= k < |t| && k != id ==> r.value[k] == t[k])
            && r.value[id].owner == by' && r.value[id].account == t[id].account && r.value[id].plan == t[id].plan
            && r.value[id].expiresAt == t[id].expiresAt && r.value[id].state == c.target
            && (c.command.Some? ==> r.value[id].command == c.command)
            && (c.command.None? ==> r.value[id].command == t[id].command)
            && (c.position.Some? ==> r.value[id].position == c.position)
            && (c.position.None? ==> r.value[id].position == t[id].position)
            && r.value[id].amount == (if c.amount.Some? then c.amount.value else t[id].amount))
  {
  }

  /** A transition never raises any account's active sum. */
  lemma TransitionNeverRaises(t: Table, id: nat, by': int, c: Change, owner: int, account: int)
    requires NonNegative(t) && Transitioned(t, id, by', c).Success?
    ensures NonNegative(Transitioned(t, id, by', c).value)
    ensures ActiveSum(Transitioned(t, id, by', c).value, owner, account) <= ActiveSum(t, owner, account)
  {
    hide ActiveSum;
    ActiveSumUpdate(t, id, Transitioned(t, id, by', c).value[id], owner, account);
  }

  /** Reserving succeeds exactly for a known account whose plan either holds this very amount, which it then keeps, or
      holds nothing and asks for a positive amount that the rows left after expiry leave room for. */
  lemma ReserveExactly(t: Table, known: bool, owner: int, account: int, plan: int, amount: real, available: real,
                       now: int, ttl: int)
    ensures
      var r, held := Reserved(t, known, owner, account, plan, amount, available, now, ttl), FindPlan(t, owner, plan);
      var live := ExpireAll(t, Some(account), now);
      && (held.Some? ==>
            && (r.Success? <==> known && t[held.value].amount == amount)
            && (r.Success? ==> r.value.table == t && r.value.id == held.value))
      && (held.None? ==>
            && (r.Success? <==> known && amount > 0.0 && ActiveSum(live, owner, account) + amount <= available)
            && (r.Success? ==>
                  && |r.value.table| == |t| + 1 && r.value.table[..|t|] == live && r.value.id == |t|
                  && var row := r.value.table[|t|];
                     && row.owner == owner && row.account == account && row.plan == Some(plan) && row.amount == amount
                     && row.state == Provisional && row.expiresAt == now + ttl
                     && row.command.None? && row.position.None?))
  {
    hide ActiveSum;
  }

  /** A split leaves the filled part on the row, with the position, and puts the remainder on a new row of the same
      command and the same time, bound to no plan. */
  lemma SplitExactly(t: Table, id: nat, by': int, filled: real, position: int, remaining: real)
    requires Split(t, id, by', filled, position, remaining).Success?
    ensures
      var after := Split(t, id, by', filled, position, remaining).value;
      && id < |t| && |after| == |t| + (if remaining > 0.0 then 1 else 0)
      && (forall k :: 0 <= k < |t| && k != id ==> after[k] == t[k])
      && after[id].amount == filled && after[id].state == PartiallyFilled && after[id].position == Some(position)
      && after[id].plan == t[id].plan && after[id].command == t[id].command
      && after[id].expiresAt == t[id].expiresAt
      && (remaining > 0.0 ==>
            && after[|t|].amount == remaining && after[|t|].state == CommandPending && after[|t|].plan.None?
            && after[|t|].position.None? && after[|t|].command == t[id].command
            && after[|t|].owner == t[id].owner && after[|t|].account == t[id].account
            && after[|t|].expiresAt == t[id].expiresAt)
  {
  }

  /** A split moves the account's active sum by exactly what the two parts miss or exceed the old
      amount; so it raises the sum exactly when they exceed it. */
  lemma SplitRaisesExactly(t: Table, id: nat, by': int, filled: real, position: int, remaining: real)
    requires NonNegative(t) && Split(t, id, by', filled, position, remaining).Success?
    ensures
      var after := Split(t, id, by', filled, position, remaining).value;
      var before, sum := ActiveSum(t, by', t[id].account), ActiveSum(after, by', t[id].account);
      && sum == before - t[id].amount + filled + Max(0.0, remaining)
      && (sum <= before <==> filled + Max(0.0, remaining) <= t[id].amount)
      && NonNegative(after)
      && forall owner, account :: (owner, account) != (by', t[id].account) ==>
           ActiveSum(after, owner, account) == ActiveSum(t, owner, account)
  {
    hide ActiveSum;
    var kept := Transitioned(t, id, by', Change(PartiallyFilled, None, Some(position), Some(filled))).value;
    var after := Split(t, id, by', filled, position, remaining).value;
    forall owner, account
      ensures ActiveSum(after, owner, account) == ActiveSum(t, owner, account)
        + if (owner, account) == (by', t[id].account) then filled + Max(0.0, remaining) - t[id].amount else 0.0
    {
      ActiveSumUpdate(t, id, kept[id], owner, account);
      if remaining > 0.0 {
        ActiveSumSnoc(kept, after[|kept|], owner, account);
      }
    }
  }

  /** Terminal rows stay as they are. */
  ghost predicate KeepsTerminal(before: Table, after: Table) {
    && |before| <= |after|
    && forall i :: 0 <= i < |before| && Terminal(before[i].state) ==> after[i] == before[i]
  }

  datatype Operation =
    | Expiring(account: Option<int>, now: int)
    | Reserving(accountExists: bool, owner: int, reservedFor: int, plan: int, amount: real, available: real, at: int,
                ttl: int)
    | Transitioning(id: nat, owner: int, change: Change)
    | Splitting(id: nat, owner: int, filled: real, position: int, remaining: real)

  /** A refused operation changes nothing. */
  function Applied(t: Table, op: Operation): Table {
    match op
    case Expiring(account, now) => ExpireAll(t, account, now)
    case Reserving(known, owner, account, plan, amount, available, at, ttl) =>
      var r := Reserved(t, known, owner, account, plan, amount, available, at, ttl);
      if r.Success? then r.value.table else t
    case Transitioning(id, owner, change) =>
      var r := Transitioned(t, id, owner, change);
      if r.Success? then r.value else t
    case Splitting(id, owner, filled, position, remaining) =>
      var r := Split(t, id, owner, filled, position, remaining);
      if r.Success? then r.value else t
  }

  function AppliedAll(t: Table, ops: seq<Operation>): Table {
    if ops == [] then t else Applied(AppliedAll(t, ops[..|ops| - 1]), ops[|ops| - 1])
  }

  lemma ExpiryKeepsTerminal(t: Table, account: Option<int>, now: int)
    ensures KeepsTerminal(t, ExpireAll(t, account, now))
  {
  }

  lemma TransitionKeepsTerminal(t: Table, id: nat, owner: int, c: Change)
    ensures var r := Transitioned(t, id, owner, c); r.Success? ==> KeepsTerminal(t, r.value)
  {
  }

  lemma AppendKeepsTerminal(before: Table, after: Table, row: Reservation)
    requires KeepsTerminal(before, after)
    ensures KeepsTerminal(before, after + [row])
  {
  }

  lemma OperationKeepsTerminal(t: Table, op: Operation)
    ensures KeepsTerminal(t, Applied(t, op))
  {
    hide ActiveSum, FindPlan, ExpireAll, Transitioned, KeepsTerminal;
    assert KeepsTerminal(t, t) by {
      Untouched(t);
    }
    match op
    case Expiring(account, now) => ExpiryKeepsTerminal(t, account, now);
    case Reserving(_, owner, account, plan, _, _, at, _) =>
      ExpiryKeepsTerminal(t, Some(account), at);
      if Applied(t, op) != t {
        AppendKeepsTerminal(t, ExpireAll(t, Some(account), at), Applied(t, op)[|Applied(t, op)| - 1]);
      }
    case Transitioning(id, owner, change) => TransitionKeepsTerminal(t, id, owner, change);
    case Splitting(id, owner, filled, position, remaining) =>
      var change := Change(PartiallyFilled, None, Some(position), Some(filled));
      TransitionKeepsTerminal(t, id, owner, change);
      var kept := Transitioned(t, id, owner, change);
      if kept.Success? && remaining > 0.0 {
        AppendKeepsTerminal(t, kept.value, Applied(t, op)[|kept.value|]);
      }
  }

  lemma Untouched(t: Table)
    ensures KeepsTerminal(t, t)
  {
  }

  /** Over any operations a terminal reservation is never revived or touched. */
  lemma {:induction false} TerminalStaysTerminal(t: Table, ops: seq<Operation>)
    ensures KeepsTerminal(t, AppliedAll(t, ops))
    decreases |ops|
  {
    hide Applied;
    if ops != [] {
      TerminalStaysTerminal(t, ops[..|ops| - 1]);
      OperationKeepsTerminal(AppliedAll(t, ops[..|ops| - 1]), ops[|ops| - 1]);
    }
  }

  /** A new grant adds exactly its amount and fits what was available at that moment. */
  lemma GrantFits(t: Table, owner: int, account: int, plan: int, amount: real, available: real, now: int, ttl: int)
    requires NonNegative(t) && FindPlan(t, owner, plan).None?
    requires Reserved(t, true, owner, account, plan, amount, available, now, ttl).Success?
    ensures
      var after := Reserved(t, true, owner, account, plan, amount, available, now, ttl).value.table;
      && NonNegative(after) && amount > 0.0
      && ActiveSum(after, owner, account) <= available
      && ActiveSum(after, owner, account) <= ActiveSum(t, owner, account) + amount
  {
    hide ActiveSum;
    var live := ExpireAll(t, Some(account), now);
    ExpireNeverRaises(t, Some(account), now, owner, account);
    var after := Reserved(t, true, owner, account, plan, amount, available, now, ttl).value.table;
    ActiveSumSnoc(live, after[|live|], owner, account);
  }

  // ----- the same partial fill reported again

  function Repeated(op: Operation, n: nat): seq<Operation> {
    if n == 0 then [] else Repeated(op, n - 1) + [op]
  }

  lemma OneMore(t: Table, ops: seq<Operation>, op: Operation)
    ensures AppliedAll(t, ops + [op]) == Applied(AppliedAll(t, ops), op)
  {
    hide Applied;
    assert (ops + [op])[..|ops|] == ops;
  }

  /** The caller splits by the plan's whole risk. The first report of a partial fill keeps the active sum; every
      repetition finds the row holding just its filled part and adds the remainder once more. */
  lemma {:induction false} RepeatedFillAddsItsRemainder(t: Table, id: nat, by': int, filled: real, position: int,
                                                        remaining: real, n: nat)
    requires NonNegative(t) && id < |t| && t[id].owner == by' && !Terminal(t[id].state)
    requires t[id].amount == filled + remaining && filled >= 0.0 && remaining > 0.0
    ensures
      var after := AppliedAll(t, Repeated(Splitting(id, by', filled, position, remaining), n + 1));
      && NonNegative(after) && id < |after| && after[id].owner == by' && after[id].account == t[id].account
      && !Terminal(after[id].state) && after[id].amount == filled
      && ActiveSum(after, by', t[id].account) == ActiveSum(t, by', t[id].account) + n as real * remaining
  {
    hide ActiveSum, AppliedAll;
    var report := Splitting(id, by', filled, position, remaining);
    OneMore(t, Repeated(report, n), report);
    if n == 0 {
      NothingApplied(t);
      SplitRaisesExactly(t, id, by', filled, position, remaining);
    } else {
      RepeatedFillAddsItsRemainder(t, id, by', filled, position, remaining, n - 1);
      SplitRaisesExactly(AppliedAll(t, Repeated(report, n)), id, by', filled, position, remaining);
    }
  }

  lemma NothingApplied(t: Table)
    ensures AppliedAll(t, []) == t
  {
  }

  // ----- what expiry takes out of the active sum

  /** States of a row whose order or position is with the broker. */
  predicate AtBroker(s: State) {
    s == OrderWorking || s == PartiallyFilled || s == OpenPosition
  }

  /** The part of an account's active sum that stands for live orders and positions. */
  function LiveRisk(t: Table, owner: int, account: int): real {
    if t == [] then 0.0
    else
      var last := t[|t| - 1];
      LiveRisk(t[..|t| - 1], owner, account) + if AtBroker(last.state) then Part(last, owner, account) else 0.0
  }

  lemma {:induction false} LiveRiskIsActive(t: Table, owner: int, account: int)
    requires NonNegative(t)
    ensures 0.0 <= LiveRisk(t, owner, account) <= ActiveSum(t, owner, account)
  {
    if t != [] {
      hide ActiveSum;
      var init := t[..|t| - 1];
      assert t == init + [t[|t| - 1]];
      assert NonNegative(init) by {
        assert forall i :: 0 <= i < |init| ==> init[i] == t[i];
      }
      LiveRiskIsActive(init, owner, account);
      ActiveSumSnoc(init, t[|t| - 1], owner, account);
    } else {
      NothingIsActive(owner, account);
    }
  }

  lemma NothingIsActive(owner: int, account: int)
    ensures ActiveSum([], owner, account) == 0.0
  {
  }

  /** A live row of the account with something at risk lapses. */
  ghost predicate LiveRowLapses(t: Table, expired: Option<int>, now: int, owner: int, account: int) {
    exists i :: 0 <= i < |t| && AtBroker(t[i].state) && Part(t[i], owner, account) > 0.0 && Lapses(t[i], expired, now)
  }

  /** Expiry looks at the time alone: it takes risk of live orders and positions out of the active sum exactly when
      a row of theirs has lapsed. */
  lemma {:induction false} LiveRiskStaysCountedExactly(t: Table, expired: Option<int>, now: int, owner: int,
                                                       account: int)
    requires NonNegative(t)
    ensures LiveRisk(ExpireAll(t, expired, now), owner, account) <= LiveRisk(t, owner, account)
    ensures LiveRisk(ExpireAll(t, expired, now), owner, account) < LiveRisk(t, owner, account) <==>
      LiveRowLapses(t, expired, now, owner, account)
  {
    if t != [] {
      var init, last := t[..|t| - 1], t[|t| - 1];
      assert NonNegative(init) by {
        assert forall i :: 0 <= i < |init| ==> init[i] == t[i];
      }
      LiveRiskStaysCountedExactly(init, expired, now, owner, account);
      assert ExpireAll(t, expired, now)[..|init|] == ExpireAll(init, expired, now);
      assert ExpireAll(t, expired, now)[|init|] == ExpireRow(last, expired, now);
      LiveRowLapsesSnoc(t, expired, now, owner, account);
    }
  }

  lemma LiveRowLapsesSnoc(t: Table, expired: Option<int>, now: int, owner: int, account: int)
    requires t != []
    ensures
      var last := t[|t| - 1];
      LiveRowLapses(t, expired, now, owner, account) <==>
        || LiveRowLapses(t[..|t| - 1], expired, now, owner, account)
        || (AtBroker(last.state) && Part(last, owner, account) > 0.0 && Lapses(last, expired, now))
  {
    hide AtBroker, Part, Lapses;
    var init := t[..|t| - 1];
    if LiveRowLapses(init, expired, now, owner, account) {
      var i :| 0 <= i < |init| && AtBroker(init[i].state) && Part(init[i], owner, account) > 0.0
        && Lapses(init[i], expired, now);
      assert t[i] == init[i];
    }
    if LiveRowLapses(t, expired, now, owner, account) {
      var i :| 0 <= i < |t| && AtBroker(t[i].state) && Part(t[i], owner, account) > 0.0 && Lapses(t[i], expired, now);
      assert i < |init| ==> init[i] == t[i];
    }
  }

  /** While none has lapsed, the active sum after an expiry still covers every live order and position. */
  lemma ActiveSumCoversLiveRisk(t: Table, expired: Option<int>, now: int, owner: int, account: int)
    requires NonNegative(t) && !LiveRowLapses(t, expired, now, owner, account)
    ensures ActiveSum(ExpireAll(t, expired, now), owner, account) >= LiveRisk(t, owner, account)
  {
    hide ActiveSum, LiveRisk;
    LiveRiskStaysCountedExactly(t, expired, now, owner, account);
    ExpireNeverRaises(t, expired, now, owner, account);
    LiveRiskIsActive(ExpireAll(t, expired, now), owner, account);
  }

  /** Nothing prolongs a reservation. */
  ghost predicate KeepsTimes(before: Table, after: Table) {
    && |before| <= |after|
    && (forall i :: 0 <= i < |before| ==> after[i].expiresAt == before[i].expiresAt)
    && (forall i :: 0 <= i < |before| ==> after[i].account == before[i].account)
  }

  lemma OperationKeepsTimes(t: Table, op: Operation)
    ensures KeepsTimes(t, Applied(t, op))
  {
    hide ActiveSum, FindPlan, Lapses, Or, Terminal;
  }

  lemma {:induction false} RunKeepsTimes(t: Table, ops: seq<Operation>)
    ensures KeepsTimes(t, AppliedAll(t, ops))
    decreases |ops|
  {
    hide Applied;
    if ops != [] {
      RunKeepsTimes(t, ops[..|ops| - 1]);
      OperationKeepsTimes(AppliedAll(t, ops[..|ops| - 1]), ops[|ops| - 1]);
    }
  }

  /** Whatever happens to a row in between, the first expiry at or past its time ends it, live order or not, and
      then every later transition or split of it is refused, a fill report included. */
  lemma LateReportIsRefused(t: Table, i: nat, before: seq<Operation>, account: Option<int>, now: int,
                            later: seq<Operation>, owner: int, c: Change)
    requires i < |t| && t[i].expiresAt <= now && (account.None? || account == Some(t[i].account))
    ensures
      var after := AppliedAll(ExpireAll(AppliedAll(t, before), account, now), later);
      && i < |after| && Terminal(after[i].state) && Transitioned(after, i, owner, c).Failure?
  {
    hide AppliedAll;
    RunKeepsTimes(t, before);
    var expired := ExpireAll(AppliedAll(t, before), account, now);
    assert Terminal(expired[i].state);
    TerminalStaysTerminal(expired, later);
  }

  /** The operation is not about this row and comes before the given time. */
  predicate Passes(op: Operation, id: nat, until: int) {
    match op
    case Expiring(_, now) => now < until
    case Reserving(_, _, _, _, _, _, at, _) => at < until
    case Transitioning(other, _, _) => other != id
    case Splitting(other, _, _, _, _) => other != id
  }

  lemma OperationPasses(t: Table, op: Operation, id: nat)
    requires id < |t| && Passes(op, id, t[id].expiresAt)
    ensures id < |Applied(t, op)| && Applied(t, op)[id] == t[id]
  {
    hide ActiveSum, FindPlan, ExpireAll, Terminal, Or;
    match op
    case Expiring(account, now) => ExpiryPasses(t, account, now, id);
    case Reserving(_, _, account, _, _, _, at, _) => ExpiryPasses(t, Some(account), at, id);
    case _ =>
  }

  lemma ExpiryPasses(t: Table, account: Option<int>, now: int, id: nat)
    requires id < |t| && now < t[id].expiresAt
    ensures |ExpireAll(t, account, now)| == |t| && ExpireAll(t, account, now)[id] == t[id]
  {
  }

  /** Until it lapses a row is changed only by operations that name it. */
  lemma {:induction false} UnlapsedRowStays(t: Table, ops: seq<Operation>, id: nat)
    requires id < |t| && forall k :: 0 <= k < |ops| ==> Passes(ops[k], id, t[id].expiresAt)
    ensures id < |AppliedAll(t, ops)| && AppliedAll(t, ops)[id] == t[id]
    decreases |ops|
  {
    hide Applied, Passes;
    if ops != [] {
      UnlapsedRowStays(t, ops[..|ops| - 1], id);
      OperationPasses(AppliedAll(t, ops[..|ops| - 1]), ops[|ops| - 1], id);
    }
  }
}
