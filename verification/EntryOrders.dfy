/** What a queued entry asks of the broker, what it may lose, and exactly when it is authorized and passes the
    guard, in the plan's own figures. */
module EntryOrders {
  import opened Numbers
  import opened Risk
  import opened Reservations
  import opened Coordinator
  import opened CoordinatorRuns
  import M = RiskMeaning
  import P = RiskProofs
  import E = Execution
  import K = KillSwitches

  // ----- the order

  /** The order asks for the plan's trade: its side, instrument, prices and venue, its first target as the take
      profit, and a maximum loss exactly when there is a ticket. */
  predicate AsksFor(order: E.Postcondition, plan: TradePlan, size: real, maxLoss: Option<real>) {
    && order.Entry?
    && order.direction == (match plan.side case Buy => "BUY" case Sell => "SELL")
    && order.quantity == size && order.instrument == plan.instrument
    && order.entry == plan.entry && order.stop == plan.stop
    && plan.targets != [] && order.takeProfit == plan.targets[0]
    && order.maxLoss == maxLoss
    && order.venue == plan.venue && order.specification == plan.specification
  }

  /** The stored command of a new entry is the plan's order at the approved size, with the approved risk as its
      maximum loss when the plan has a ticket. */
  lemma QueuedOrderIsThePlans(b: Books, plan: TradePlan, r: Reads, g: Gate)
    requires Queueing(b, plan, r, g).outcome.Entered?
    requires FindKey(b.commands, g.key).None? && FindId(b.commands, g.commandId).None?
    ensures
      var row, phase := Queueing(b, plan, r, g).outcome.command, Revalidated(plan, r, b.reservations);
      && phase.Proceed?
      && var v := phase.verdict;
         && AsksFor(row.payload, plan, v.approvedSize, if plan.ticket.Some? then Some(v.candidateRisk) else None)
         && row.payload.targets == plan.targets
         && row.id == g.commandId && row.account == plan.account && row.plan == plan.id && row.key == g.key
         && row.authorization == g.authorizationId && row.state == E.Queued
         && row in Queueing(b, plan, r, g).books.commands
         && 0.0 < v.approvedSize <= plan.size
  {
    hide Revalidated, Reserved, Transitioned, K.Authorize, FindKey, FindId;
    var phase := Revalidated(plan, r, b.reservations);
    RevalidationKeepsOrder(plan, r, b.reservations);
    assert Queueing(b, plan, r, g).books.commands[|b.commands|] == Row(phase.plan, g);
  }

  /** Revalidation takes nothing from the verdict but the decision, the risk and the size. */
  lemma RevalidationKeepsOrder(plan: TradePlan, r: Reads, t: Table)
    requires Revalidated(plan, r, t).Proceed?
    ensures
      var sized, v := Revalidated(plan, r, t).plan, Revalidated(plan, r, t).verdict;
      && sized == plan.(decision := v.decision, candidateRisk := v.candidateRisk, size := v.approvedSize,
                        ticket := sized.ticket)
      && (sized.ticket.Some? <==> plan.ticket.Some?)
      && 0.0 < v.approvedSize <= plan.size
  {
    hide Evaluated, P.BuildTicket, P.SizeError, Limit, ActiveAmounts, Times;
    ProceedMeansAccepted(plan, r, t);
    P.AcceptedRiskIsSafe(JudgedIn(plan, r, t), JudgedAs(plan, r).value);
  }

  /** Multiplier and ticks that price the plan: the live terms of a ticketed plan, its native ones otherwise. */
  predicate Prices(plan: TradePlan, r: Reads, unit: real) {
    var distance := if plan.entry > plan.stop then plan.entry - plan.stop else plan.stop - plan.entry;
    if plan.ticket.Some? then
      && r.terms.Success?
      && if plan.kind == Futures then r.terms.value.tickValue.Some? && r.terms.value.tickSize > 0.0
           && unit == distance / r.terms.value.tickSize * r.terms.value.tickValue.value
         else unit == distance * r.terms.value.multiplier
    else
      && r.native.Some?
      && if plan.kind == Futures then r.native.value.tickValue.Some? && r.native.value.tickSize > 0.0
           && unit == distance / r.native.value.tickSize * r.native.value.tickValue.value
         else unit == distance * r.native.value.multiplier
  }

  /** The risk a plan proceeds with is its approved size at the distance from its entry to its stop, priced by its
      terms, plus the financing of its specification. */
  lemma ProceedRiskIsPriced(plan: TradePlan, r: Reads, t: Table)
    requires Revalidated(plan, r, t).Proceed?
    ensures r.native.Some? && JudgedAs(plan, r).Success? && UnitRisk(JudgedAs(plan, r).value).Success?
    ensures
      var v, unit := Revalidated(plan, r, t).verdict, UnitRisk(JudgedAs(plan, r).value).value;
      && Prices(plan, r, unit) && unit > 0.0
      && v.candidateRisk == Times(v.approvedSize, unit) + r.native.value.financing
  {
    hide Revalidated, Evaluated, Times;
    ProceedMeansAccepted(plan, r, t);
    M.AcceptedRiskIsPriced(JudgedIn(plan, r, t), JudgedAs(plan, r).value);
    CandidateIsThePlans(plan, r);
  }

  /** The candidate the engine judges is the plan's trade. */
  lemma CandidateIsThePlans(plan: TradePlan, r: Reads)
    requires (plan.ticket.Some? ==> r.terms.Success?) && JudgedAs(plan, r).Success?
    ensures
      var cand := JudgedAs(plan, r).value;
      && r.native.Some? && cand.requestedSize == plan.size && cand.entry == plan.entry && cand.stop == plan.stop
      && cand.instrument == Some(plan.kind) && cand.category == plan.category
      && cand.specification == Some(plan.specification) && cand.financing == r.native.value.financing
      && cand.increment == (if plan.ticket.Some? then r.terms.value.step else r.native.value.step)
      && cand.multiplier == (if plan.ticket.Some? then r.terms.value.multiplier else r.native.value.multiplier)
      && cand.tickSize == Some(if plan.ticket.Some? then r.terms.value.tickSize else r.native.value.tickSize)
      && cand.tickValue == if plan.ticket.Some? then r.terms.value.tickValue else r.native.value.tickValue
  {
  }

  /** A plan makes a candidate exactly with an effective specification, positive size, prices and step, a financing
      that is not negative, and a risk: its own figure or a distance to its stop. */
  lemma CandidateExactly(plan: TradePlan, r: Reads)
    requires plan.ticket.Some? ==> r.terms.Success?
    ensures JudgedAs(plan, r).Success? <==>
      && r.native.Some? && plan.size > 0.0 && plan.entry > 0.0 && plan.stop > 0.0 && r.native.value.step > 0.0
      && r.native.value.financing >= 0.0 && (plan.candidateRisk > 0.0 || plan.entry != plan.stop)
      && (plan.ticket.Some? ==> r.terms.value.step > 0.0)
  {
    if plan.candidateRisk > 0.0 {
      if plan.size > 0.0 {
        DivPositive(plan.candidateRisk, plan.size);
      } else if plan.size < 0.0 {
        assert plan.size != 0.0;
      }
    }
  }

  /** The live terms still fit the plan: readable, in its ticket's currency, and with its size in their bounds and on
      their step. */
  ghost predicate TermsFit(plan: TradePlan, r: Reads) {
    plan.ticket.Some? ==>
      && r.terms.Success? && plan.ticket.value.currency == r.terms.value.currency
      && P.SizeError(r.terms.value, plan.size).None?
  }

  /** What a ticketed plan needs beyond an accepted verdict. */
  ghost predicate TicketFits(plan: TradePlan, r: Reads, ctx: Context, v: Verdict) {
    plan.ticket.Some? ==>
      && r.currencyVerified && r.terms.Success?
      && Limit(ctx.constraints, MaxRiskPerTrade).Some?
      && Limit(ctx.constraints, MaxRiskPerTrade).value.hard && Limit(ctx.constraints, MaxRiskPerTrade).value.value > 0.0
      && P.BuildTicket(r.terms.value, plan.kind, plan.side, plan.entry, plan.stop, plan.targets, Ticks(plan),
                       Limit(ctx.constraints, MaxRiskPerTrade).value.value, v).Success?
  }

  /** A plan proceeds to its reservation exactly when it is not blocked, its snapshot is fresh, its terms fit, it makes
      a candidate, the context can be read, the engine accepts, and its ticket can be rebuilt. */
  lemma ProceedsExactly(plan: TradePlan, r: Reads, t: Table)
    ensures Revalidated(plan, r, t).Proceed? <==>
      && plan.state != K.BlockedPlan && plan.decision != HardBlock && r.snapshotFresh && TermsFit(plan, r)
      && JudgedAs(plan, r).Success? && r.context.Success?
      && P.Accepts(Evaluated(JudgedIn(plan, r, t), JudgedAs(plan, r).value))
      && TicketFits(plan, r, JudgedIn(plan, r, t), Evaluated(JudgedIn(plan, r, t), JudgedAs(plan, r).value).verdict)
  {
    hide Evaluated, P.BuildTicket, P.SizeError, Limit, ActiveAmounts, TypedCandidate;
  }

  /** The stored command of this id or, where the id is new, of this key. */
  ghost predicate AnswersFor(rows: seq<CommandRow>, row: CommandRow, i: nat)
    requires i < |rows|
  {
    || rows[i].id == row.id
    || (rows[i].key == row.key && forall k :: 0 <= k < |rows| ==> rows[k].id != row.id)
  }

  /** A command is refused exactly when its id names a command of another key, or its id is new and its key names one
      of another payload; otherwise the known command is the answer, by id before key, and a new one is stored. */
  lemma PersistExactly(rows: seq<CommandRow>, row: CommandRow)
    requires UniqueRows(rows)
    ensures
      var r := Persisted(rows, row);
      && (r.Failure? <==>
            || (exists i :: 0 <= i < |rows| && rows[i].id == row.id && rows[i].key != row.key)
            || ((forall i :: 0 <= i < |rows| ==> rows[i].id != row.id)
                && exists i :: 0 <= i < |rows| && rows[i].key == row.key && rows[i].payload != row.payload))
      && (r.Success? && (forall i :: 0 <= i < |rows| ==> rows[i].id != row.id && rows[i].key != row.key) ==>
            r.value == row && WithRow(rows, row) == rows + [row])
      && (r.Success? ==>
            forall i :: 0 <= i < |rows| && AnswersFor(rows, row, i) ==>
              r.value == rows[i] && WithRow(rows, row) == rows)
  {
    hide FindId, FindKey;
  }

  // ----- authorization and the guard

  /** An entry is authorized exactly for a READY or AUTHORIZED plan that has not expired and is not hard-blocked,
      with the permission and both switches off. */
  lemma AuthorizedExactly(plan: TradePlan, g: Gate)
    ensures
      var auth := K.Authorize(g.authorizationId, Guarded(plan), K.PlaceOrder, g.permissions, g.platform, g.account,
                              g.now, AUTHORIZATION_TTL);
      auth.Success? <==>
        && (plan.state == K.Ready || plan.state == K.AuthorizedPlan) && g.now < plan.expiresAt
        && plan.decision != HardBlock && g.permissions.newEntry && !g.platform.active && !g.account.active
  {
    hide Payload;
  }

  /** The guard accepts a stored entry exactly when it is bound to the plan's authorization and account, neither
      has expired, the plan is authorized or pending and not hard-blocked, a ticketed plan's order is asked for field
      by field, the later targets aside, the permission is given, and both switches are off and at the epochs
      of the authorization. */
  lemma GuardAcceptsExactly(row: CommandRow, q: TradePlan, permissions: K.Permissions, platform: K.Switch,
                            account: K.Switch, now: int)
    ensures PassesGuard(row, q, permissions, platform, account, now) <==>
      && q.authorization.Some?
      && var auth := q.authorization.value;
         && row.account == auth.account == q.account && row.authorization == auth.id
         && now < auth.expiresAt && now < q.expiresAt
         && (q.state == K.AuthorizedPlan || q.state == K.ExecutionPending)
         && auth.action == K.PlaceOrder && q.decision != HardBlock
         && (q.ticket.Some? ==> AsksFor(row.payload, q, q.size, Some(q.candidateRisk)))
         && permissions.newEntry && !platform.active && !account.active
         && auth.platformEpoch == platform.epoch && auth.accountEpoch == account.epoch
  {
    hide AsksFor, K.SameOrder;
    if q.ticket.Some? {
      SameOrderMeans(row.payload, q);
    }
  }

  lemma SameOrderMeans(order: E.Postcondition, q: TradePlan)
    requires q.ticket.Some?
    ensures K.SameOrder(order, Guarded(q).payload) <==> AsksFor(order, q, q.size, Some(q.candidateRisk))
  {
  }

  // ----- the ticket

  lemma StepsExactly(size: real, step: real)
    requires size >= 0.0
    ensures P.OffStep(size, step) <==> step <= 0.0 || !IsMultiple(size, step)
  {
    if step > 0.0 {
      FloorToBounds(size, step);
      if IsMultiple(size, step) {
        var k: int :| size == Steps(k, step);
        MultipleIsItsFloor(k, step);
      }
    }
  }

  lemma MultipleIsItsFloor(k: int, step: real)
    requires step > 0.0
    ensures FloorTo(Steps(k, step), step) == Steps(k, step)
  {
    assert k as real * step / step == k as real;
  }

  /** The price lies on the profitable side of the entry. */
  predicate Profitable(side: P.Side, entry: real, price: real) {
    match side
    case Buy => price > entry
    case Sell => price < entry
  }

  predicate Priceable(t: P.Terms, instrument: Instrument) {
    && t.multiplier > 0.0
    && (instrument == Futures ==> t.tickSize > 0.0 && t.tickValue.Some? && t.tickValue.value > 0.0)
  }

  lemma TypedLossExactly(t: P.Terms, instrument: Instrument, entry: real, price: real)
    ensures TypedLoss(instrument, entry, price, t.multiplier, Some(t.tickSize), t.tickValue).Success?
      <==> Priceable(t, instrument) && entry != price
  {
  }

  lemma {:induction false} ScenariosExactly(t: P.Terms, instrument: Instrument, entry: real, size: real,
                                            targets: seq<real>, fractions: seq<Option<real>>)
    requires |targets| == |fractions| && forall i :: 0 <= i < |targets| ==> targets[i] != entry
    ensures
      var r := P.TicketTargets(t, instrument, entry, size, targets, fractions);
      && (r.Success? <==> targets == [] || Priceable(t, instrument))
      && (r.Success? ==> |r.value| == |targets| && forall i :: 0 <= i < |targets| ==>
            IsScenario(t, instrument, entry, size, targets, fractions, r.value, i))
    decreases |targets|
  {
    hide TypedLoss, Times, Priceable;
    if targets != [] {
      var n := |targets| - 1;
      ScenariosExactly(t, instrument, entry, size, targets[..n], fractions[..n]);
      TypedLossExactly(t, instrument, entry, targets[n]);
      var r := P.TicketTargets(t, instrument, entry, size, targets, fractions);
      if r.Success? {
        var before := P.TicketTargets(t, instrument, entry, size, targets[..n], fractions[..n]).value;
        forall i | 0 <= i < n
          ensures IsScenario(t, instrument, entry, size, targets, fractions, r.value, i)
        {
          assert IsScenario(t, instrument, entry, size, targets[..n], fractions[..n], before, i);
        }
      }
    }
  }

  /** The profit of leaving whole at a target; the first target is the broker's take profit. */
  ghost predicate IsScenario(t: P.Terms, instrument: Instrument, entry: real, size: real, targets: seq<real>,
                             fractions: seq<Option<real>>, scenarios: seq<P.TicketTarget>, i: nat) {
    && i < |targets| == |fractions| == |scenarios|
    && scenarios[i].price == targets[i] && scenarios[i].fraction == fractions[i]
    && scenarios[i].hardTakeProfit == (i == 0)
    && var gain := TypedLoss(instrument, entry, targets[i], t.multiplier, Some(t.tickSize), t.tickValue);
       gain.Success? && scenarios[i].profit == Times(size, gain.value)
  }

  /** The size is accepted, within the broker's bounds and on its step. */
  ghost predicate SizeFits(t: P.Terms, v: Verdict) {
    && v.decision != HardBlock && v.approvedSize > 0.0
    && t.minimum <= v.approvedSize <= t.maximum && t.step > 0.0 && IsMultiple(v.approvedSize, t.step)
  }

  ghost predicate AllProfitable(side: P.Side, entry: real, targets: seq<real>) {
    forall i :: 0 <= i < |targets| ==> Profitable(side, entry, targets[i])
  }

  ghost predicate Fractional(fractions: seq<Option<real>>) {
    forall i :: 0 <= i < |fractions| && fractions[i].Some? ==> 0.0 < fractions[i].value <= 1.0
  }

  lemma SizeGates(t: P.Terms, v: Verdict)
    ensures SizeFits(t, v) <==>
      v.decision != HardBlock && v.approvedSize > 0.0 && P.SizeError(t, v.approvedSize).None?
  {
    hide P.OffStep, IsMultiple;
    if v.approvedSize > 0.0 {
      StepsExactly(v.approvedSize, t.step);
    }
  }

  lemma LevelGates(side: P.Side, entry: real, targets: seq<real>, fractions: seq<Option<real>>)
    ensures AllProfitable(side, entry, targets) <==>
      !(exists i :: 0 <= i < |targets| && P.WrongSide(side, entry, targets[i]))
    ensures Fractional(fractions) <==> !(exists i :: 0 <= i < |fractions| && P.OutOfRange(fractions[i]))
  {
  }

  /** A ticket is built exactly for an accepted size within the broker's bounds and on its step, a stop on the
      losing and targets on the winning side, fractions in (0, 1] and terms that price the instrument. */
  lemma TicketExactly(t: P.Terms, instrument: Instrument, side: P.Side, entry: real, stop: real, targets: seq<real>,
                      fractions: seq<Option<real>>, riskLimit: real, v: Verdict)
    ensures P.BuildTicket(t, instrument, side, entry, stop, targets, fractions, riskLimit, v).Success? <==>
      && SizeFits(t, v) && stop != entry && !Profitable(side, entry, stop)
      && targets != [] && |targets| == |fractions| && AllProfitable(side, entry, targets)
      && Fractional(fractions) && Priceable(t, instrument)
  {
    hide TypedLoss, P.TicketTargets, Times, P.SizeError, SizeFits, Priceable, IsScenario, Fractional, P.OutOfRange;
    hide P.WrongSide;
    SizeGates(t, v);
    LevelGates(side, entry, targets, fractions);
    TypedLossExactly(t, instrument, entry, stop);
    if |targets| == |fractions| && AllProfitable(side, entry, targets) {
      ScenariosExactly(t, instrument, entry, v.approvedSize, targets, fractions);
    }
  }

  /** It names the account's currency and the limit, and states the profit of every target. */
  lemma TicketStatesProfits(t: P.Terms, instrument: Instrument, side: P.Side, entry: real, stop: real,
                            targets: seq<real>, fractions: seq<Option<real>>, riskLimit: real, v: Verdict)
    requires P.BuildTicket(t, instrument, side, entry, stop, targets, fractions, riskLimit, v).Success?
    ensures
      var ticket := P.BuildTicket(t, instrument, side, entry, stop, targets, fractions, riskLimit, v).value;
      && ticket.currency == t.currency && ticket.riskLimit == riskLimit && |ticket.targets| == |targets|
      && forall i :: 0 <= i < |targets| ==>
           IsScenario(t, instrument, entry, v.approvedSize, targets, fractions, ticket.targets, i)
  {
    TicketExactly(t, instrument, side, entry, stop, targets, fractions, riskLimit, v);
    hide TypedLoss, P.TicketTargets, Times, P.SizeError, SizeFits, Priceable, IsScenario, Fractional, P.OutOfRange;
    hide P.WrongSide;
    ScenariosExactly(t, instrument, entry, v.approvedSize, targets, fractions);
  }
}
