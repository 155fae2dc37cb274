/** What entry queueing guarantees: a queued entry's plan, reservation and command agree and its risk
    fits every limit, and no interleaving of transactions over-commits an account. */
module CoordinatorRuns {
  import opened Numbers
  import opened Risk
  import opened Reservations
  import opened Coordinator
  import P = RiskProofs
  import E = Execution
  import K = KillSwitches

  // ----- one transaction

  /** Only a queued entry touches reservations or commands, and a refusal touches nothing. */
  lemma OnlyQueuedEntriesCommit(b: Books, plan: TradePlan, r: Reads, g: Gate)
    ensures
      var after := Queueing(b, plan, r, g);
      && (after.outcome.Refused? ==> after.books == b)
      && (!after.outcome.Entered? ==> after.books.reservations == b.reservations && after.books.commands == b.commands)
      && (forall id :: id in b.plans && id != plan.id ==>
          id in after.books.plans && after.books.plans[id] == b.plans[id])
  {
    hide Revalidated, Claimed;
    RevalidationKeepsIdentity(plan, r, b.reservations);
    var phase := Revalidated(plan, r, b.reservations);
    if phase.Proceed? {
      ClaimKeepsOthers(Saved(b, plan), phase.plan, phase.verdict, g);
    }
  }

  /** Revalidation rewrites the risk, the size, the ticket and perhaps the state of a plan, nothing else. */
  lemma RevalidationKeepsIdentity(plan: TradePlan, r: Reads, t: Table)
    ensures
      var phase := Revalidated(plan, r, t);
      && (phase.Block? ==> phase.blocked.id == plan.id && phase.blocked.state == K.BlockedPlan)
      && (phase.Proceed? ==>
            && phase.plan == plan.(decision := phase.verdict.decision, candidateRisk := phase.verdict.candidateRisk,
                                   size := phase.verdict.approvedSize, ticket := phase.plan.ticket)
            && (phase.plan.ticket.Some? <==> plan.ticket.Some?))
  {
    hide Evaluated, P.BuildTicket, P.SizeError, Limit, ActiveAmounts, TypedCandidate;
  }

  lemma ClaimKeepsOthers(b: Books, plan: TradePlan, v: Verdict, g: Gate)
    ensures
      var claim := Claimed(b, plan, v, g);
      claim.Success? ==>
        && claim.value.outcome.Entered?
        && (forall id :: id in b.plans && id != plan.id ==>
            id in claim.value.books.plans && claim.value.books.plans[id] == b.plans[id])
  {
    hide Reserved, K.Authorize, Transitioned, Persisted, WithRow;
  }

  // The context a plan is judged in, and the candidate it is judged as.
  function JudgedIn(plan: TradePlan, r: Reads, t: Table): Context
    requires r.context.Success?
  {
    InContext(r.context.value, t, plan.owner, plan.account)
  }

  function JudgedAs(plan: TradePlan, r: Reads): Result<Candidate, string>
    requires plan.ticket.Some? ==> r.terms.Success?
  {
    TypedCandidate(plan, r.native, if plan.ticket.Some? then Some(r.terms.value) else None)
  }

  /** A plan proceeds only with an accepted verdict; a ticketed one also needs a verified currency and a
      hard, positive per-trade limit. */
  lemma ProceedMeansAccepted(plan: TradePlan, r: Reads, t: Table)
    requires Revalidated(plan, r, t).Proceed?
    ensures r.context.Success? && r.snapshotFresh && (plan.ticket.Some? ==> r.terms.Success?)
      && JudgedAs(plan, r).Success?
    ensures
      var o := Evaluated(JudgedIn(plan, r, t), JudgedAs(plan, r).value);
      && P.Accepts(o) && o.verdict == Revalidated(plan, r, t).verdict
    ensures plan.ticket.Some? ==> r.currencyVerified && PerTradeLimitStands(JudgedIn(plan, r, t))
  {
    hide Evaluated, P.BuildTicket, P.SizeError, Limit, ActiveAmounts, TypedCandidate;
  }

  /** The reservation that stands for a plan and its pending command. */
  predicate HeldFor(held: Reservation, plan: TradePlan, command: int) {
    && held.owner == plan.owner && held.account == plan.account && held.plan == Some(plan.id)
    && held.state == CommandPending && held.command == Some(command) && held.amount == plan.candidateRisk
  }

  /** A queued entry agrees with itself: plan, reservation and command name each other, the reserved amount
      is the plan's risk, the command asks for the plan's order, and the authority guard accepts it. */
  lemma QueuedEntryAgrees(b: Books, plan: TradePlan, r: Reads, g: Gate)
    requires Queueing(b, plan, r, g).outcome.Entered?
    requires FindPlan(b.reservations, plan.owner, plan.id).None?
    requires FindKey(b.commands, g.key).None? && FindId(b.commands, g.commandId).None?
    ensures
      var after := Queueing(b, plan, r, g);
      var q, row, k := after.outcome.plan, after.outcome.command, |b.reservations|;
      && after.books.plans == b.plans[plan.id := q] && after.books.commands == b.commands + [row]
      && |after.books.reservations| == k + 1
      && HeldFor(after.books.reservations[k], q, row.id)
      && q.state == K.ExecutionPending && q.reservation == Some(k) && q.command == Some(row.id)
      && q.targets != [] && row.payload == Payload(q) && row.state == E.Queued && row.key == g.key
      && q.authorization.Some?
      && K.AuthorityError(K.Order(row.account, K.PlaceOrder, row.authorization, row.payload), q.authorization.value,
                          Guarded(q), g.permissions, g.platform, g.account, g.now).None?
  {
    hide Revalidated, Claimed, FindPlan, FindKey, FindId, K.AuthorityError, Payload, Row;
    RevalidationKeepsIdentity(plan, r, b.reservations);
    var phase := Revalidated(plan, r, b.reservations);
    ClaimOfNewPlan(Saved(b, plan), phase.plan, phase.verdict, g);
    ClaimIsAuthorized(Saved(b, plan), phase.plan, phase.verdict, g);
    var q := Queueing(b, plan, r, g).outcome.plan;
    RowOf(phase.plan, q, g);
    assert b.plans[plan.id := plan][plan.id := q] == b.plans[plan.id := q];
  }

  lemma RowOf(plan: TradePlan, q: TradePlan, g: Gate)
    requires plan.targets != []
      && q == plan.(reservation := q.reservation, authorization := q.authorization, state := q.state,
                                              command := q.command, version := q.version)
    ensures Row(plan, g) ==
      CommandRow(g.commandId, plan.account, plan.id, g.authorizationId, g.key, Payload(q), E.Queued, 3)
  {
  }

  lemma ClaimOfNewPlan(b: Books, plan: TradePlan, v: Verdict, g: Gate)
    requires Claimed(b, plan, v, g).Success? && plan.candidateRisk == v.candidateRisk
    requires FindPlan(b.reservations, plan.owner, plan.id).None?
    requires FindKey(b.commands, g.key).None? && FindId(b.commands, g.commandId).None?
    ensures
      var claim := Claimed(b, plan, v, g).value;
      var k := |b.reservations|;
      && claim.outcome.Entered? && plan.targets != []
      && claim.outcome.command == Row(plan, g)
      && claim.outcome.plan == plan.(reservation := Some(k), authorization := claim.outcome.plan.authorization,
                                     state := K.ExecutionPending, command := Some(g.commandId),
                                       version := plan.version + 1)
      && claim.books.plans == b.plans[plan.id := claim.outcome.plan]
      && claim.books.commands == b.commands + [claim.outcome.command]
      && |claim.books.reservations| == k + 1
      && HeldFor(claim.books.reservations[k], plan, g.commandId)
  {
    hide ActiveSum, FindPlan, FindKey, FindId, K.Authorize, Payload, ExpireRow;
  }

  lemma ClaimIsAuthorized(b: Books, plan: TradePlan, v: Verdict, g: Gate)
    requires Claimed(b, plan, v, g).Success?
    ensures
      var q := Claimed(b, plan, v, g).value.outcome.plan;
      && plan.targets != [] && q.authorization.Some?
      && K.AuthorityError(K.Order(plan.account, K.PlaceOrder, g.authorizationId, Payload(q)), q.authorization.value,
                          Guarded(q), g.permissions, g.platform, g.account, g.now).None?
  {
    hide Reserved, Transitioned, Persisted, WithRow, K.AuthorityError, K.Authorize;
    var q := Claimed(b, plan, v, g).value.outcome.plan;
    GuardAcceptsFreshAuthorization(plan, q, g);
  }

  lemma GuardAcceptsFreshAuthorization(plan: TradePlan, q: TradePlan, g: Gate)
    requires q.targets != [] && q.account == plan.account && q.decision == plan.decision
      && q.expiresAt == plan.expiresAt
    requires q.state == K.ExecutionPending
    requires
      var auth := K.Authorize(g.authorizationId, Guarded(plan), K.PlaceOrder, g.permissions, g.platform, g.account,
                              g.now, AUTHORIZATION_TTL);
      auth.Success? && q.authorization == Some(auth.value)
    ensures K.AuthorityError(K.Order(plan.account, K.PlaceOrder, g.authorizationId, Payload(q)), q.authorization.value,
                             Guarded(q), g.permissions, g.platform, g.account, g.now).None?
  {
    hide K.SameOrder, K.Authorize;
    AuthorizedEntry(plan, g);
    assert K.SameOrder(Payload(q), Payload(q)) by {
      SameOrderIsReflexive(q);
    }
  }

  lemma SameOrderIsReflexive(q: TradePlan)
    requires q.targets != []
    ensures K.SameOrder(Payload(q), Payload(q))
  {
  }

  lemma AuthorizedEntry(plan: TradePlan, g: Gate)
    ensures
      var auth := K.Authorize(g.authorizationId, Guarded(plan), K.PlaceOrder, g.permissions, g.platform, g.account,
                              g.now, AUTHORIZATION_TTL);
      auth.Success? ==>
        && auth.value == K.Authorization(g.authorizationId, plan.account, K.PlaceOrder, g.platform.epoch,
                                         g.account.epoch, g.now + AUTHORIZATION_TTL)
        && plan.decision != HardBlock && g.now < plan.expiresAt && K.Allows(g.permissions, K.PlaceOrder)
        && !g.platform.active && !g.account.active
  {
    hide Payload;
  }

  /** Portfolio limit and open-position risk of a context. */
  function PortfolioLimit(ctx: Context): real
    requires Limit(ctx.constraints, MaxPortfolioRisk).Some?
  {
    Limit(ctx.constraints, MaxPortfolioRisk).value.value
  }

  predicate Measured(ctx: Context) {
    Limit(ctx.constraints, MaxPortfolioRisk).Some? && ReservedRisk(ctx.positions, ctx.includeProfit).Some?
  }

  function OpenRiskOf(ctx: Context): real
    requires Measured(ctx)
  {
    ReservedRisk(ctx.positions, ctx.includeProfit).value
  }

  /** What a context leaves for reservations: the portfolio limit less open-position risk. */
  function Room(ctx: Context): real
    requires Measured(ctx)
  {
    PortfolioLimit(ctx) - OpenRiskOf(ctx)
  }

  /** What a verdict says of the portfolio it was reached on. */
  lemma ProceedMeasures(plan: TradePlan, r: Reads, t: Table)
    requires Revalidated(plan, r, t).Proceed?
    ensures r.context.Success? && Measured(r.context.value)
    ensures
      var v := Revalidated(plan, r, t).verdict;
      && v.candidateRisk > 0.0
      && v.remainingPortfolio ==
          PortfolioLimit(r.context.value) - OpenRiskOf(r.context.value) - ActiveSum(t, plan.owner, plan.account)
      && v.candidateRisk <= v.remainingPortfolio
  {
    hide Revalidated, Evaluated, ReservedRisk, Limit, TypedCandidate, Exposure, UnitRisk, Drawdown, DailyLoss, Times;
    ProceedMeansAccepted(plan, r, t);
    P.AcceptedRiskIsSafe(JudgedIn(plan, r, t), JudgedAs(plan, r).value);
  }

  /** The claim's reservation of a proceeding plan. */
  function ReservationOf(plan: TradePlan, v: Verdict, t: Table, now: int): Result<Granted, string> {
    Reserved(t, true, plan.owner, plan.account, plan.id, v.candidateRisk, v.remainingPortfolio, now, RESERVATION_TTL)
  }

  /** The engine's capacity is already net of every reservation that was active when it was read, and
      `reserve` subtracts those still live again: a new entry that fits the policy is reserved exactly when
      it also fits with the live reservations counted a second time. */
  lemma ReservationsCountTwice(plan: TradePlan, r: Reads, t: Table, now: int)
    requires Revalidated(plan, r, t).Proceed? && FindPlan(t, plan.owner, plan.id).None?
    ensures r.context.Success? && Measured(r.context.value)
    ensures
      var v := Revalidated(plan, r, t).verdict;
      var limit, open := PortfolioLimit(r.context.value), OpenRiskOf(r.context.value);
      var held := ActiveSum(t, plan.owner, plan.account);
      var live := ActiveSum(ExpireAll(t, Some(plan.account), now), plan.owner, plan.account);
      && open + held + v.candidateRisk <= limit
      && (ReservationOf(plan, v, t, now).Success? <==> open + held + live + v.candidateRisk <= limit)
  {
    hide Revalidated, ReservedRisk, Limit, ActiveSum, FindPlan, ExpireRow;
    ProceedMeasures(plan, r, t);
  }

  /** With nothing lapsed every active reservation counts exactly twice. */
  lemma QuietStoreCountsTwice(plan: TradePlan, r: Reads, t: Table, now: int)
    requires Revalidated(plan, r, t).Proceed? && FindPlan(t, plan.owner, plan.id).None?
    requires ExpireAll(t, Some(plan.account), now) == t
    ensures r.context.Success? && Measured(r.context.value)
    ensures
      var v := Revalidated(plan, r, t).verdict;
      var limit, open := PortfolioLimit(r.context.value), OpenRiskOf(r.context.value);
      var held := ActiveSum(t, plan.owner, plan.account);
      ReservationOf(plan, v, t, now).Success? <==> open + 2.0 * held + v.candidateRisk <= limit
  {
    hide Revalidated, ReservedRisk, Limit, ActiveSum, FindPlan, ExpireAll, ReservationOf;
    ReservationsCountTwice(plan, r, t, now);
  }

  const TIGHT_CONTEXT := Context(1000.0, 1000.0, 0.0, 0.0,
    [Constraint(MaxTotalDrawdown, 1000.0, true), Constraint(MaxDailyLoss, 1000.0, true),
     Constraint(MaxPortfolioRisk, 100.0, true)],
    [], [], 1, false, map["spec" := Specification(true, None)], None, [])

  const FITTING_PLAN := TradePlan(1, 1, 1, K.Ready, Pass, 30.0, 30.0, "EURUSD", "FOREX", Spot, false, "venue", "spec",
                                  P.Buy, 2.0, 1.0, [3.0],
                                  None, 1_000_000_000, None, None, None, 1)

  const FITTING_READS := Reads(true, Failure("not needed"), Some(NativeTerms(1.0, 1.0, 1.0, None, 0.0)),
                               Success(TIGHT_CONTEXT), true)

  const ONE_HELD: Table := [Reservation(1, 1, Some(7), Some(3), None, 40.0, CommandPending, 1_000_000_000, 2)]

  lemma TightLimits()
    ensures var cs := TIGHT_CONTEXT.constraints;
      && Limit(cs, MaxTotalDrawdown) == Some(cs[0]) && Limit(cs, MaxDailyLoss) == Some(cs[1])
      && Limit(cs, MaxPortfolioRisk) == Some(cs[2]) && Limit(cs, MaxRiskPerTrade).None?
  {
    hide Limit;
    var cs := TIGHT_CONTEXT.constraints;
    LimitIsStrictest(cs, MaxTotalDrawdown);
    LimitIsStrictest(cs, MaxDailyLoss);
    LimitIsStrictest(cs, MaxPortfolioRisk);
    LimitIsStrictest(cs, MaxRiskPerTrade);
    assert cs[0] in cs && cs[1] in cs && cs[2] in cs;
  }

  lemma OneActive(r: Reservation)
    requires Holds(r, 1, 1)
    ensures ActiveSum([r], 1, 1) == r.amount
  {
    assert [r] == [] + [r];
    ActiveSumSnoc([], r, 1, 1);
  }

  /** With at most 69 held the fitting candidate is approved whole, at a risk of 30. */
  lemma FittingPlanIsApproved(t: Table, held: real)
    requires ActiveSum(t, 1, 1) == held && 0.0 <= held <= 69.0
    ensures
      var phase := Revalidated(FITTING_PLAN, FITTING_READS, t);
      && phase.Proceed? && phase.verdict.candidateRisk == 30.0 && phase.verdict.approvedSize == 30.0
      && phase.verdict.decision == Pass && phase.plan == FITTING_PLAN
  {
    hide Limit, Evaluated, ActiveAmounts;
    var ctx, cand := JudgedIn(FITTING_PLAN, FITTING_READS, t), JudgedAs(FITTING_PLAN, FITTING_READS);
    assert cand.Success?;
    ApprovedWhole(ctx, cand.value, t, held);
  }

  lemma ApprovedWhole(ctx: Context, cand: Candidate, t: Table, held: real)
    requires ctx == TIGHT_CONTEXT.(reservations := ActiveAmounts(t, 1, 1))
    requires ActiveSum(t, 1, 1) == held && 0.0 <= held <= 69.0
    requires cand.requestedSize == 30.0 && UnitRisk(cand) == Success(1.0) && cand.financing == 0.0
      && cand.increment == 1.0
    requires cand.multiplier == 1.0 && AuthorityError(ctx, cand).None?
    ensures
      var o := Evaluated(ctx, cand);
      P.Accepts(o) && o.verdict.candidateRisk == 30.0 && o.verdict.approvedSize == 30.0 && o.verdict.decision == Pass
  {
    hide Limit, Evaluated, ActiveAmounts, AuthorityError, UnitRisk;
    TightLimits();
    assert Capacities(ctx) == [1000.0, 1000.0, 100.0 - held];
    P.BlockedExactlyWhenNoStepFits(ctx, cand);
    P.AcceptedSizeIsMaximal(ctx, cand);
    P.AcceptedRiskIsSafe(ctx, cand);
  }

  /** The policy has room for this entry, and its reservation is refused. */
  lemma FittingEntryIsRefused(g: Gate)
    requires g.now == 0
    ensures Queueing(Books(map[], ONE_HELD, []), FITTING_PLAN, FITTING_READS, g)
         == Effect(Books(map[], ONE_HELD, []), Refused("insufficient unreserved risk capacity"))
    ensures OpenRiskOf(TIGHT_CONTEXT) + ActiveSum(ONE_HELD, 1, 1) + 30.0 <= PortfolioLimit(TIGHT_CONTEXT)
  {
    hide Revalidated, ActiveSum, Limit;
    TightLimits();
    OneActive(ONE_HELD[0]);
    FittingPlanIsApproved(ONE_HELD, 40.0);
    var v := Revalidated(FITTING_PLAN, FITTING_READS, ONE_HELD).verdict;
    RevalidationKeepsIdentity(FITTING_PLAN, FITTING_READS, ONE_HELD);
    assert ExpireAll(ONE_HELD, Some(1), 0) == ONE_HELD;
    assert FindPlan(ONE_HELD, 1, 1).None?;
    ReservationsCountTwice(FITTING_PLAN, FITTING_READS, ONE_HELD, 0);
  }

  // ----- commands over time

  ghost predicate UniqueRows(rows: seq<CommandRow>) {
    forall i, j :: 0 <= i < j < |rows| ==> rows[i].key != rows[j].key && rows[i].id != rows[j].id
  }

  lemma WithRowKeepsUnique(rows: seq<CommandRow>, row: CommandRow)
    requires UniqueRows(rows)
    ensures UniqueRows(WithRow(rows, row)) && rows <= WithRow(rows, row)
  {
  }

  /** Idempotency keys and command ids stay unique, and queueing never rewrites a stored command. */
  lemma KeysStayUnique(b: Books, plan: TradePlan, r: Reads, g: Gate)
    requires UniqueRows(b.commands)
    ensures UniqueRows(Queueing(b, plan, r, g).books.commands)
    ensures b.commands <= Queueing(b, plan, r, g).books.commands
  {
    hide Revalidated, Reserved, K.Authorize, Transitioned, Payload, WithRow, UniqueRows, Persisted;
    var phase := Revalidated(plan, r, b.reservations);
    if phase.Proceed? && phase.plan.targets != [] {
      WithRowKeepsUnique(b.commands, Row(phase.plan, g));
    }
  }

  ghost predicate Stored(rows: seq<CommandRow>, id: int) {
    exists i :: 0 <= i < |rows| && rows[i].id == id
  }

  /** The plan of a queued entry names a stored command exactly when its key was new: a replay under a known
      key returns the first command and leaves the plan naming one that was never stored. */
  lemma ReplayNamesNoCommand(b: Books, plan: TradePlan, r: Reads, g: Gate)
    requires Queueing(b, plan, r, g).outcome.Entered? && FindId(b.commands, g.commandId).None?
    ensures
      var after := Queueing(b, plan, r, g);
      && after.outcome.plan.command == Some(g.commandId)
      && (Stored(after.books.commands, g.commandId) <==> FindKey(b.commands, g.key).None?)
      && (FindKey(b.commands, g.key).Some? ==>
            after.books.commands == b.commands && after.outcome.command == b.commands[FindKey(b.commands, g.key).value])
  {
    hide Revalidated, Reserved, K.Authorize, Transitioned, Payload, FindId, FindKey;
    var after := Queueing(b, plan, r, g).books.commands;
    if FindKey(b.commands, g.key).None? {
      assert after[|b.commands|].id == g.commandId;
    }
  }

  /** A stored command passes the authority guard with this plan. */
  predicate PassesGuard(row: CommandRow, q: TradePlan, permissions: K.Permissions, platform: K.Switch,
                        account: K.Switch, now: int) {
    && q.authorization.Some?
    && K.AuthorityError(K.Order(row.account, K.PlaceOrder, row.authorization, row.payload), q.authorization.value,
                        Guarded(q), permissions, platform, account, now).None?
  }

  /** A command that the guard accepts still has its reservation. Whatever happens to the store after the entry was
      queued, except to this row itself, the row is as it was left: an authorization lives sixty seconds, a
      reservation ten minutes. */
  lemma AcceptedCommandIsReserved(b: Books, plan: TradePlan, r: Reads, g: Gate, ops: seq<Operation>,
                                  permissions: K.Permissions, platform: K.Switch, account: K.Switch, now: int)
    requires Queueing(b, plan, r, g).outcome.Entered?
    requires FindPlan(b.reservations, plan.owner, plan.id).None?
    requires FindKey(b.commands, g.key).None? && FindId(b.commands, g.commandId).None?
    requires forall j :: 0 <= j < |ops| ==> Passes(ops[j], |b.reservations|, now + 1)
    requires
      var queued := Queueing(b, plan, r, g).outcome;
      PassesGuard(queued.command, queued.plan, permissions, platform, account, now)
    ensures
      var queued := Queueing(b, plan, r, g);
      var after, k := AppliedAll(queued.books.reservations, ops), |b.reservations|;
      && k < |after| && HeldFor(after[k], queued.outcome.plan, queued.outcome.command.id)
      && now < g.now + AUTHORIZATION_TTL < after[k].expiresAt
  {
    hide Revalidated, Claimed, FindPlan, FindKey, FindId, PassesGuard, AppliedAll, Passes, Row;
    QueuedEntryAgrees(b, plan, r, g);
    RevalidationKeepsIdentity(plan, r, b.reservations);
    var phase := Revalidated(plan, r, b.reservations);
    ClaimTimes(Saved(b, plan), phase.plan, phase.verdict, g);
    var queued := Queueing(b, plan, r, g);
    GuardMeansInTime(queued.outcome.command, queued.outcome.plan, permissions, platform, account, now);
    forall j | 0 <= j < |ops|
      ensures Passes(ops[j], |b.reservations|, g.now + RESERVATION_TTL)
    {
      PassesLonger(ops[j], |b.reservations|, now + 1, g.now + RESERVATION_TTL);
    }
    UnlapsedRowStays(queued.books.reservations, ops, |b.reservations|);
  }

  lemma PassesLonger(op: Operation, id: nat, until: int, longer: int)
    requires Passes(op, id, until) && until <= longer
    ensures Passes(op, id, longer)
  {
  }

  lemma GuardMeansInTime(row: CommandRow, q: TradePlan, permissions: K.Permissions, platform: K.Switch,
                         account: K.Switch, now: int)
    requires PassesGuard(row, q, permissions, platform, account, now)
    ensures q.authorization.Some? && now < q.authorization.value.expiresAt
  {
    hide Guarded, K.AuthorityError;
    K.AcceptedComparesEpochs(K.Order(row.account, K.PlaceOrder, row.authorization, row.payload), q.authorization.value,
                             Guarded(q), permissions, platform, account, now);
  }

  lemma ClaimTimes(b: Books, plan: TradePlan, v: Verdict, g: Gate)
    requires Claimed(b, plan, v, g).Success? && FindPlan(b.reservations, plan.owner, plan.id).None?
    ensures
      var claim := Claimed(b, plan, v, g).value;
      && |claim.books.reservations| == |b.reservations| + 1
      && claim.books.reservations[|b.reservations|].expiresAt == g.now + RESERVATION_TTL
      && claim.outcome.Entered? && claim.outcome.plan.authorization.Some?
      && claim.outcome.plan.authorization.value.expiresAt == g.now + AUTHORIZATION_TTL
  {
    hide ActiveSum, FindPlan, K.Authorize, Persisted, WithRow, Guarded, ExpireRow, Payload;
    AuthorizedEntry(plan, g);
  }

  lemma UnboundCommandIsRefused(row: CommandRow, q: TradePlan, permissions: K.Permissions, platform: K.Switch,
                                account: K.Switch, now: int)
    requires q.authorization.Some? ==> row.authorization != q.authorization.value.id
    ensures !PassesGuard(row, q, permissions, platform, account, now)
  {
    hide Payload;
  }

  /** A replay under a known key overwrites the plan's authorization: unless it draws the first command's own
      authorization again, that command can never pass the authority guard with this plan, whatever the
      permissions, the switches and the time. */
  lemma ReplayStrandsTheFirstCommand(b: Books, plan: TradePlan, r: Reads, g: Gate,
                                     permissions: K.Permissions, platform: K.Switch, account: K.Switch, now: int)
    requires FindId(b.commands, g.commandId).None? && FindKey(b.commands, g.key).Some?
    requires b.commands[FindKey(b.commands, g.key).value].authorization != g.authorizationId
    requires Queueing(b, plan, r, g).outcome.Entered?
    ensures plan.id in Queueing(b, plan, r, g).books.plans
    ensures Queueing(b, plan, r, g).outcome.command == b.commands[FindKey(b.commands, g.key).value]
    ensures !PassesGuard(Queueing(b, plan, r, g).outcome.command, Queueing(b, plan, r, g).books.plans[plan.id],
                         permissions, platform, account, now)
  {
    hide Revalidated, Claimed, PassesGuard, FindId, FindKey;
    ReplayNamesNoCommand(b, plan, r, g);
    RevalidationKeepsIdentity(plan, r, b.reservations);
    var phase := Revalidated(plan, r, b.reservations);
    ClaimStoresItsAuthorization(Saved(b, plan), phase.plan, phase.verdict, g);
    var after := Queueing(b, plan, r, g);
    UnboundCommandIsRefused(after.outcome.command, after.books.plans[plan.id], permissions, platform, account, now);
  }

  /** A queued entry's stored command carries the plan's authorization exactly when its key was new. */
  lemma CommandIsBoundExactly(b: Books, plan: TradePlan, r: Reads, g: Gate)
    requires Queueing(b, plan, r, g).outcome.Entered? && FindId(b.commands, g.commandId).None?
    requires forall i :: 0 <= i < |b.commands| ==> b.commands[i].authorization != g.authorizationId
    ensures
      var after := Queueing(b, plan, r, g);
      && after.outcome.plan.authorization.Some?
      && (after.outcome.command.authorization == after.outcome.plan.authorization.value.id <==>
          FindKey(b.commands, g.key).None?)
  {
    hide Revalidated, Reserved, Transitioned, Payload, FindId, FindKey;
    var phase := Revalidated(plan, r, b.reservations);
    ClaimStoresItsAuthorization(Saved(b, plan), phase.plan, phase.verdict, g);
  }

  lemma ClaimStoresItsAuthorization(b: Books, plan: TradePlan, v: Verdict, g: Gate)
    requires Claimed(b, plan, v, g).Success?
    ensures
      var claim := Claimed(b, plan, v, g).value;
      && claim.outcome.Entered? && plan.id in claim.books.plans && claim.books.plans[plan.id] == claim.outcome.plan
      && claim.outcome.plan.authorization.Some? && claim.outcome.plan.authorization.value.id == g.authorizationId
  {
    hide Reserved, Transitioned, Persisted, WithRow, Guarded;
  }

  const OPEN_GATE := Gate(K.Permissions(true, true, true, true, true, true), K.Switch(K.Platform, false, 0, None),
                          K.Switch(K.Account, false, 0, Some(1)), 0, 10, 6, "entry:1")

  const FIRST_GATE := OPEN_GATE.(commandId := 9, authorizationId := 5)

  const FIRST_COMMAND := CommandRow(9, 1, 1, 5, "entry:1",
    E.Entry("EURUSD", "BUY", 30.0, 2.0, 1.0, [3.0], 3.0, None, "venue", "spec"), E.Queued, 3)

  const FIRST_HELD: Table := [Reservation(1, 1, Some(1), Some(9), None, 30.0, CommandPending, 600_000_000, 2)]

  const FIRST_PLAN := FITTING_PLAN.(reservation := Some(0), state := K.ExecutionPending, command := Some(9),
    authorization := Some(K.Authorization(5, 1, K.PlaceOrder, 0, 0, 60_000_000)), version := 2)

  const FIRST_BOOKS := Books(map[1 := FIRST_PLAN], FIRST_HELD, [FIRST_COMMAND])

  /** The first of two queue tasks that both read the plan READY. */
  lemma FirstQueueing()
    ensures Queueing(Books(map[1 := FITTING_PLAN], [], []), FITTING_PLAN, FITTING_READS, FIRST_GATE)
         == Effect(FIRST_BOOKS, Entered(FIRST_PLAN, FIRST_COMMAND))
  {
    hide Revalidated, ActiveSum, Limit;
    NothingIsActive(1, 1);
    FittingPlanIsApproved([], 0.0);
    RevalidationKeepsIdentity(FITTING_PLAN, FITTING_READS, []);
    ReservationsCountTwice(FITTING_PLAN, FITTING_READS, [], 0);
    var v := Revalidated(FITTING_PLAN, FITTING_READS, []).verdict;
    TightLimits();
    ProceedMeasures(FITTING_PLAN, FITTING_READS, []);
    assert ExpireAll([], Some(1), 0) == [];
    assert map[1 := FITTING_PLAN][1 := FIRST_PLAN] == map[1 := FIRST_PLAN];
  }

  /** The other one, after it. */
  lemma SecondQueueing()
    ensures
      var second := Queueing(FIRST_BOOKS, FITTING_PLAN, FITTING_READS, OPEN_GATE);
      && second.outcome.Entered? && second.outcome.command == FIRST_COMMAND
      && second.books.commands == [FIRST_COMMAND] && second.books.plans == map[1 := second.outcome.plan]
      && second.outcome.plan.command == Some(10)
      && second.outcome.plan.authorization.Some? && second.outcome.plan.authorization.value.id == 6
      && second.books.reservations == [FIRST_HELD[0].(command := Some(10), version := 3)]
  {
    hide Revalidated, ActiveSum, Limit;
    OneActive(FIRST_HELD[0]);
    FittingPlanIsApproved(FIRST_HELD, 30.0);
    RevalidationKeepsIdentity(FITTING_PLAN, FITTING_READS, FIRST_HELD);
    assert FindPlan(FIRST_HELD, 1, 1) == Some(0);
    assert FindKey([FIRST_COMMAND], "entry:1") == Some(0) && FindId([FIRST_COMMAND], 10).None?;
    var q := Queueing(FIRST_BOOKS, FITTING_PLAN, FITTING_READS, OPEN_GATE).outcome.plan;
    assert map[1 := FIRST_PLAN][1 := q] == map[1 := q];
  }

  /** A concrete replay: without a reservation or a command two queue tasks bring the plan they both read READY. The
      second enters too, stores no command, and leaves the plan with command 10, which does not exist, and
      authorization 6, which command 9 does not carry. */
  lemma ReplayHappens()
    ensures
      var first := Queueing(Books(map[1 := FITTING_PLAN], [], []), FITTING_PLAN, FITTING_READS, FIRST_GATE);
      var second := Queueing(first.books, FITTING_PLAN, FITTING_READS, OPEN_GATE);
      && first.outcome == Entered(FIRST_PLAN, FIRST_COMMAND)
      && second.outcome.Entered? && second.outcome.command == FIRST_COMMAND
      && second.books.commands == first.books.commands == [FIRST_COMMAND]
      && second.books.plans == map[1 := second.outcome.plan] && second.outcome.plan.command == Some(10)
      && second.outcome.plan.authorization.Some? && second.outcome.plan.authorization.value.id == 6
  {
    hide Queueing;
    FirstQueueing();
    SecondQueueing();
  }

  /** A queued ticketed entry tells the broker its whole approved risk, which is within the hard per-trade
      limit, and its ticket loses exactly that less financing. */
  lemma QueuedLossIsLimited(b: Books, plan: TradePlan, r: Reads, g: Gate)
    requires Queueing(b, plan, r, g).outcome.Entered? && plan.ticket.Some?
    ensures r.context.Success? && r.native.Some? && Limit(r.context.value.constraints, MaxRiskPerTrade).Some?
    ensures
      var q, limit := Queueing(b, plan, r, g).outcome.plan, Limit(r.context.value.constraints, MaxRiskPerTrade).value;
      && limit.hard && q.ticket.Some? && q.targets != []
      && Payload(q).maxLoss == Some(q.candidateRisk)
      && 0.0 < q.candidateRisk <= limit.value
      && q.ticket.value.potentialLoss == q.candidateRisk - r.native.value.financing
  {
    hide Revalidated, Claimed, Limit, Judged, P.BuildTicket, Evaluated;
    var phase := Revalidated(plan, r, b.reservations);
    RevalidationKeepsIdentity(plan, r, b.reservations);
    ClaimKeepsRisk(Saved(b, plan), phase.plan, phase.verdict, g);
    ProceedLossIsLimited(plan, r, b.reservations);
  }

  lemma ClaimKeepsRisk(b: Books, plan: TradePlan, v: Verdict, g: Gate)
    ensures
      var claim := Claimed(b, plan, v, g);
      claim.Success? ==>
        var q := claim.value.outcome.plan;
        && claim.value.outcome.Entered?
        && q.candidateRisk == plan.candidateRisk && q.ticket == plan.ticket && q.targets == plan.targets
            && q.targets != []
  {
    hide Reserved, K.Authorize, Transitioned, Persisted, WithRow, Payload;
  }

  lemma ProceedLossIsLimited(plan: TradePlan, r: Reads, t: Table)
    requires Revalidated(plan, r, t).Proceed? && plan.ticket.Some?
    ensures r.context.Success? && r.native.Some? && PerTradeLimitStands(r.context.value)
    ensures
      var p := Revalidated(plan, r, t).plan;
      && p.ticket.Some? && 0.0 < p.candidateRisk <= Limit(r.context.value.constraints, MaxRiskPerTrade).value.value
      && p.ticket.value.potentialLoss == p.candidateRisk - r.native.value.financing
  {
    hide Evaluated, P.BuildTicket, P.SizeError, Limit, Exposure, UnitRisk, Drawdown, DailyLoss, Times;
    ProceedMeansAccepted(plan, r, t);
    var ctx, live := JudgedIn(plan, r, t), JudgedAs(plan, r).value;
    P.AcceptedRiskIsSafe(ctx, live);
    var perUnit := if plan.candidateRisk > 0.0 then plan.candidateRisk / plan.size else Abs(plan.entry - plan.stop);
    P.TicketRestatesApprovedRisk(ctx, Construct(plan, r.native.value, perUnit), r.terms.value, plan.kind, plan.side,
                                 plan.targets, Ticks(plan));
  }

  // ----- interleaved transactions on one account

  // An entry between its revalidation and its claim holds the account lock.
  datatype Pending = Pending(plan: TradePlan, verdict: Verdict, context: Context)

  datatype World = World(books: Books, holder: Option<Pending>)

  datatype Move = Begin(plan: TradePlan, seen: Reads) | Finish(gate: Gate) | Elsewhere(op: Operation)

  /** Only a grant to this account needs its lock; expiry, transitions, splits and other accounts' grants
      go on regardless. */
  predicate NeedsLock(op: Operation, account: int) {
    op.Reserving? && op.reservedFor == account
  }

  /** One move of the account's entries or of the rest of the system; a move that cannot happen waits. */
  function Next(w: World, m: Move, owner: int, account: int): World {
    match m
    case Begin(plan, seen) =>
      if w.holder.Some? || plan.owner != owner || plan.account != account then w
      else (
        match Revalidated(plan, seen, w.books.reservations)
        case Refuse(_) => w
        case Stop => w.(books := Saved(w.books, plan))
        case Block(blocked) => w.(books := w.books.(plans := w.books.plans[plan.id := blocked]))
        case Proceed(sized, v) => World(Saved(w.books, plan), Some(Pending(sized, v, seen.context.value))))
    case Finish(gate) =>
      if w.holder.None? then w
      else
        var claim := Claimed(w.books, w.holder.value.plan, w.holder.value.verdict, gate);
        World(if claim.Success? then claim.value.books else w.books, None)
    case Elsewhere(op) =>
      if NeedsLock(op, account) then w
      else w.(books := w.books.(reservations := Applied(w.books.reservations, op)))
  }

  function AfterMoves(w: World, moves: seq<Move>, owner: int, account: int): World {
    if moves == [] then w
    else Next(AfterMoves(w, moves[..|moves| - 1], owner, account), moves[|moves| - 1], owner, account)
  }

  /** The holder's available capacity is what its own reads leave of the limit, or less. */
  ghost predicate Sound(w: World, owner: int, account: int) {
    && NonNegative(w.books.reservations)
    && (w.holder.Some? ==>
          && w.holder.value.plan.owner == owner && w.holder.value.plan.account == account
          && Measured(w.holder.value.context)
          && w.holder.value.verdict.remainingPortfolio <= Room(w.holder.value.context))
  }

  lemma OperationKeepsNonNegative(t: Table, op: Operation)
    requires NonNegative(t)
    ensures NonNegative(Applied(t, op))
  {
    hide ActiveSum, FindPlan;
    match op
    case Expiring(_, _) =>
    case Reserving(_, _, _, _, _, _, _, _) =>
    case Transitioning(id, owner, change) =>
      if Transitioned(t, id, owner, change).Success? {
        TransitionNeverRaises(t, id, owner, change, owner, 0);
      }
    case Splitting(id, owner, filled, position, remaining) =>
      if Split(t, id, owner, filled, position, remaining).Success? {
        SplitRaisesExactly(t, id, owner, filled, position, remaining);
      }
  }

  /** What a claim does to the reservations: nothing is raised but by a new grant, and a new grant fits the
      capacity its verdict saw. */
  lemma ClaimFits(b: Books, plan: TradePlan, v: Verdict, g: Gate)
    requires NonNegative(b.reservations) && Claimed(b, plan, v, g).Success?
    ensures
      var after, before := Claimed(b, plan, v, g).value.books.reservations, b.reservations;
      && NonNegative(after)
      && (FindPlan(before, plan.owner, plan.id).None? ==>
          ActiveSum(after, plan.owner, plan.account) <= v.remainingPortfolio)
      && (FindPlan(before, plan.owner, plan.id).Some? ==>
            ActiveSum(after, plan.owner, plan.account) <= ActiveSum(before, plan.owner, plan.account))
  {
    hide ActiveSum, Transitioned, K.Authorize, Persisted, WithRow, Row, FindPlan;
    var t := b.reservations;
    var grant := Reserved(t, true, plan.owner, plan.account, plan.id, v.candidateRisk, v.remainingPortfolio, g.now,
                          RESERVATION_TTL).value;
    var change := Change(CommandPending, Some(g.commandId), None, None);
    if FindPlan(t, plan.owner, plan.id).None? {
      GrantFits(t, plan.owner, plan.account, plan.id, v.candidateRisk, v.remainingPortfolio, g.now, RESERVATION_TTL);
    }
    TransitionNeverRaises(grant.table, grant.id, plan.owner, change, plan.owner, plan.account);
  }

  lemma NextIsSound(w: World, m: Move, owner: int, account: int)
    requires Sound(w, owner, account)
    ensures Sound(Next(w, m, owner, account), owner, account)
  {
    hide ActiveSum, Revalidated, Claimed, Limit, ReservedRisk, Applied, NonNegative;
    match m
    case Begin(plan, seen) =>
      var phase := Revalidated(plan, seen, w.books.reservations);
      if phase.Proceed? {
        ProceedMeasures(plan, seen, w.books.reservations);
        RevalidationKeepsIdentity(plan, seen, w.books.reservations);
        ActiveSumIsNotNegative(w.books.reservations, plan.owner, plan.account);
      }
    case Finish(gate) =>
      if w.holder.Some? && Claimed(w.books, w.holder.value.plan, w.holder.value.verdict, gate).Success? {
        ClaimFits(w.books, w.holder.value.plan, w.holder.value.verdict, gate);
      }
    case Elsewhere(op) =>
      OperationKeepsNonNegative(w.books.reservations, op);
  }

  lemma {:induction false} RunIsSound(w: World, moves: seq<Move>, owner: int, account: int)
    requires Sound(w, owner, account)
    ensures Sound(AfterMoves(w, moves, owner, account), owner, account)
    decreases |moves|
  {
    hide Next, Sound;
    if moves != [] {
      RunIsSound(w, moves[..|moves| - 1], owner, account);
      NextIsSound(AfterMoves(w, moves[..|moves| - 1], owner, account), moves[|moves| - 1], owner, account);
    }
  }

  /** No over-commitment: after any interleaving, when an entry is granted a new reservation, open-position
      risk plus every active reservation of the account is within MAX_PORTFOLIO_RISK. */
  lemma GrantsNeverOverCommit(reservations: Table, plans: map<int, TradePlan>, commands: seq<CommandRow>,
                              moves: seq<Move>,
                              gate: Gate, owner: int, account: int)
    requires NonNegative(reservations)
    requires
      var w := AfterMoves(World(Books(plans, reservations, commands), None), moves, owner, account);
      && w.holder.Some? && FindPlan(w.books.reservations, owner, w.holder.value.plan.id).None?
      && Claimed(w.books, w.holder.value.plan, w.holder.value.verdict, gate).Success?
    ensures
      var w := AfterMoves(World(Books(plans, reservations, commands), None), moves, owner, account);
      && Measured(w.holder.value.context)
      && OpenRiskOf(w.holder.value.context)
           + ActiveSum(Next(w, Finish(gate), owner, account).books.reservations, owner, account)
         <= PortfolioLimit(w.holder.value.context)
  {
    hide ActiveSum, Claimed, Limit, ReservedRisk, FindPlan, AfterMoves;
    var w0 := World(Books(plans, reservations, commands), None);
    RunIsSound(w0, moves, owner, account);
    var w := AfterMoves(w0, moves, owner, account);
    ClaimFits(w.books, w.holder.value.plan, w.holder.value.verdict, gate);
  }

  // ----- whole runs

  /** No entry of the run reads more room than this. */
  ghost predicate ReadsAtMost(moves: seq<Move>, room: real) {
    forall i :: 0 <= i < |moves| ==> MoveReadsAtMost(moves[i], room)
  }

  ghost predicate MoveReadsAtMost(m: Move, room: real) {
    m.Begin? && m.seen.context.Success? && Measured(m.seen.context.value) ==> Room(m.seen.context.value) <= room
  }

  /** By how much the parts of a split of one of the account's rows exceed the old amount. */
  function Excess(t: Table, op: Operation, owner: int, account: int): real {
    if op.Splitting? && op.id < |t| && t[op.id].owner == owner && t[op.id].account == account
    then Max(0.0, op.filled + Max(0.0, op.remaining) - t[op.id].amount) else 0.0
  }

  function MoveExcess(w: World, m: Move, owner: int, account: int): real {
    if m.Elsewhere? then Excess(w.books.reservations, m.op, owner, account) else 0.0
  }

  /** The excess of every split along the run. */
  function TotalExcess(w: World, moves: seq<Move>, owner: int, account: int): real {
    if moves == [] then 0.0
    else
      var init := moves[..|moves| - 1];
      TotalExcess(w, init, owner, account) + MoveExcess(AfterMoves(w, init, owner, account), moves[|moves| - 1], owner,
                                                        account)
  }

  /** The account's reservations fit the room that entries read, but for the excess of splits so far. */
  ghost predicate WithinRoom(w: World, owner: int, account: int, room: real, excess: real) {
    && Sound(w, owner, account) && excess >= 0.0
    && ActiveSum(w.books.reservations, owner, account) <= room + excess
    && (w.holder.Some? ==> Room(w.holder.value.context) <= room)
  }

  lemma OperationRaisesAtMost(t: Table, op: Operation, owner: int, account: int)
    requires NonNegative(t) && !NeedsLock(op, account)
    ensures ActiveSum(Applied(t, op), owner, account) <= ActiveSum(t, owner, account) + Excess(t, op, owner, account)
  {
    hide ActiveSum, FindPlan, ExpireRow;
    match op
    case Expiring(expired, now) =>
      ExpireNeverRaises(t, expired, now, owner, account);
    case Reserving(known, other, elsewhere, plan, amount, available, at, ttl) =>
      var r := Reserved(t, known, other, elsewhere, plan, amount, available, at, ttl);
      if r.Success? && FindPlan(t, other, plan).None? {
        var live := ExpireAll(t, Some(elsewhere), at);
        ExpireNeverRaises(t, Some(elsewhere), at, owner, account);
        ActiveSumSnoc(live, r.value.table[|live|], owner, account);
      }
    case Transitioning(id, by', change) =>
      if Transitioned(t, id, by', change).Success? {
        TransitionNeverRaises(t, id, by', change, owner, account);
      }
    case Splitting(id, by', filled, position, remaining) =>
      if Split(t, id, by', filled, position, remaining).Success? {
        SplitRaisesExactly(t, id, by', filled, position, remaining);
      }
  }

  lemma NextStaysWithin(w: World, m: Move, owner: int, account: int, room: real, excess: real)
    requires WithinRoom(w, owner, account, room, excess) && MoveReadsAtMost(m, room)
    ensures WithinRoom(Next(w, m, owner, account), owner, account, room, excess + MoveExcess(w, m, owner, account))
  {
    hide ActiveSum, Revalidated, Claimed, Limit, ReservedRisk, Applied, NonNegative;
    NextIsSound(w, m, owner, account);
    match m
    case Begin(plan, seen) =>
      if Revalidated(plan, seen, w.books.reservations).Proceed? {
        ProceedMeasures(plan, seen, w.books.reservations);
      }
    case Finish(gate) =>
      if w.holder.Some? && Claimed(w.books, w.holder.value.plan, w.holder.value.verdict, gate).Success? {
        ClaimFits(w.books, w.holder.value.plan, w.holder.value.verdict, gate);
      }
    case Elsewhere(op) =>
      if !NeedsLock(op, account) {
        OperationRaisesAtMost(w.books.reservations, op, owner, account);
      }
  }

  /** Over any run, an account's active reservations never exceed the largest room any entry read, or what it
      held at the start, by more than the excess of its splits. */
  lemma {:induction false} ReservationsStayWithinRoom(
      w: World, moves: seq<Move>, owner: int, account: int, room: real)
    requires WithinRoom(w, owner, account, room, 0.0) && ReadsAtMost(moves, room)
    ensures WithinRoom(AfterMoves(w, moves, owner, account), owner, account, room,
                       TotalExcess(w, moves, owner, account))
    ensures ActiveSum(AfterMoves(w, moves, owner, account).books.reservations, owner, account)
      <= room + TotalExcess(w, moves, owner, account)
    decreases |moves|
  {
    hide Next, ActiveSum, Sound, MoveExcess;
    if moves != [] {
      var init := moves[..|moves| - 1];
      ReservationsStayWithinRoom(w, init, owner, account, room);
      NextStaysWithin(AfterMoves(w, init, owner, account), moves[|moves| - 1], owner, account, room,
                      TotalExcess(w, init, owner, account));
    }
  }

  /** The parts of every split along the run fit the old amount. */
  ghost predicate TameSplits(w: World, moves: seq<Move>, owner: int, account: int) {
    forall k :: 0 <= k < |moves| ==>
      MoveExcess(AfterMoves(w, moves[..k], owner, account), moves[k], owner, account) == 0.0
  }

  lemma {:induction false} TameSplitsExceedNothing(w: World, moves: seq<Move>, owner: int, account: int)
    requires TameSplits(w, moves, owner, account)
    ensures TotalExcess(w, moves, owner, account) == 0.0
    decreases |moves|
  {
    hide AfterMoves, MoveExcess;
    if moves != [] {
      var init := moves[..|moves| - 1];
      forall k | 0 <= k < |init|
        ensures MoveExcess(AfterMoves(w, init[..k], owner, account), init[k], owner, account) == 0.0
      {
        assert init[..k] == moves[..k];
      }
      TameSplitsExceedNothing(w, init, owner, account);
    }
  }

  /** With tame splits, and entries that never read more room than `limit - open`, open risk and active
      reservations stay within the limit in every reachable state. */
  lemma AccountStaysWithinLimit(w: World, moves: seq<Move>, owner: int, account: int, limit: real, open: real)
    requires WithinRoom(w, owner, account, limit - open, 0.0) && ReadsAtMost(moves, limit - open)
    requires TameSplits(w, moves, owner, account)
    ensures open + ActiveSum(AfterMoves(w, moves, owner, account).books.reservations, owner, account) <= limit
  {
    hide AfterMoves, ActiveSum, WithinRoom, ReadsAtMost, TameSplits, TotalExcess;
    ReservationsStayWithinRoom(w, moves, owner, account, limit - open);
    TameSplitsExceedNothing(w, moves, owner, account);
  }
}
