/** What an accepted risk means for the account itself: its balances, its open positions and its groups. */
module RiskMeaning {
  import opened Numbers
  import opened Risk
  import opened RiskProofs

  // ----- the account

  function LimitOf(ctx: Context, kind: Kind): real
    requires Limit(ctx.constraints, kind).Some?
  {
    Limit(ctx.constraints, kind).value.value
  }

  /** An accepted risk fits the day and the drawdown in the account's own figures: after the day's result, open
      losses included and open profits not, and after the fall of the equity below its start. Neither a profit of
      the day nor an equity above the start makes room beyond the limit. */
  lemma AcceptedRiskFitsTheAccount(ctx: Context, cand: Candidate)
    requires Accepts(Evaluated(ctx, cand))
    ensures HasAuthority(ctx)
    ensures
      var risk := Evaluated(ctx, cand).verdict.candidateRisk;
      var daily, total := LimitOf(ctx, MaxDailyLoss), LimitOf(ctx, MaxTotalDrawdown);
      && risk <= daily + ctx.realizedDailyPnl + (if ctx.floatingPnl < 0.0 then ctx.floatingPnl else 0.0)
      && risk <= daily
      && risk <= total - (ctx.startingBalance - ctx.equity)
      && risk <= total
  {
    hide Evaluated, Limit, Exposure;
    AcceptedRiskIsSafe(ctx, cand);
  }

  /** The account of `worse` has lost more today, floats lower, stands lower or started higher. */
  predicate WorseAccount(worse: Context, ctx: Context) {
    && worse == ctx.(realizedDailyPnl := worse.realizedDailyPnl, floatingPnl := worse.floatingPnl,
                     equity := worse.equity, startingBalance := worse.startingBalance)
    && worse.realizedDailyPnl <= ctx.realizedDailyPnl && worse.floatingPnl <= ctx.floatingPnl
    && worse.equity <= ctx.equity && worse.startingBalance >= ctx.startingBalance
  }

  /** A loss of the day, a lower floating result or a lower equity never increases the granted size, and so a
      profit never decreases it. */
  lemma WorseAccountNeverLoosens(ctx: Context, worse: Context, cand: Candidate)
    requires HasAuthority(ctx) && WorseAccount(worse, ctx)
    ensures Granted(worse, cand) <= Granted(ctx, cand)
  {
    hide Limit, ReservedRisk, CorrelationCapacity, Evaluated;
    if ExistingRisk(worse).Some? {
      Pointwise(Capacities(worse), Capacities(ctx));
    }
    TighterGrantsNoMore(worse, ctx, cand);
  }

  // ----- the candidate

  /** What one unit loses between entry and stop: an untyped candidate's stated risk, the distance in ticks for a
      future, the distance times the multiplier otherwise. */
  predicate UnitLoss(cand: Candidate, perUnit: real) {
    var distance := if cand.entry > cand.stop then cand.entry - cand.stop else cand.stop - cand.entry;
    match cand.instrument
    case None => perUnit == cand.riskPerUnit
    case Some(Futures) =>
      && cand.tickSize.Some? && cand.tickValue.Some? && cand.tickSize.value > 0.0
      && perUnit == distance / cand.tickSize.value * cand.tickValue.value
    case Some(_) => perUnit == distance * cand.multiplier
  }

  /** An accepted risk is the approved size at that loss, plus the financing. */
  lemma AcceptedRiskIsPriced(ctx: Context, cand: Candidate)
    requires Accepts(Evaluated(ctx, cand))
    ensures UnitRisk(cand).Success? && UnitLoss(cand, UnitRisk(cand).value) && UnitRisk(cand).value > 0.0
    ensures
      var v := Evaluated(ctx, cand).verdict;
      v.candidateRisk == Times(v.approvedSize, UnitRisk(cand).value) + cand.financing
  {
    hide Evaluated, Times, Limit, Exposure;
    AcceptedRiskIsSafe(ctx, cand);
    PricedUnit(cand);
  }

  lemma PricedUnit(cand: Candidate)
    requires UnitRisk(cand).Success?
    ensures UnitLoss(cand, UnitRisk(cand).value)
  {
  }

  /** What a typed candidate must bring. */
  predicate Typed(ctx: Context, cand: Candidate) {
    && cand.hasListing && cand.hasUnit
    && cand.specification.Some? && cand.specification.value in ctx.specifications
    && ctx.specifications[cand.specification.value].valid
    && (cand.instrument == Some(Futures) ==> cand.hasContract && cand.tickSize.Some? && cand.tickValue.Some?)
    && var cut := ctx.specifications[cand.specification.value].sourceCut;
       (ctx.currentCut.None? || cut.None? || cut == ctx.currentCut)
  }

  /** A typed candidate has no authority without all of that; an untyped one needs none of it. */
  lemma AuthorityIsExact(ctx: Context, cand: Candidate)
    ensures AuthorityError(ctx, cand).None? <==> cand.instrument.None? || Typed(ctx, cand)
  {
  }

  /** Acceptance needs the three account limits, authority, a bounded loss of every position and a free slot. */
  lemma AcceptedHasAuthority(ctx: Context, cand: Candidate)
    requires Accepts(Evaluated(ctx, cand))
    ensures HasAuthority(ctx) && (cand.instrument.None? || Typed(ctx, cand))
    ensures forall i :: 0 <= i < |ctx.positions| ==> ctx.positions[i].remainingLoss.Some?
    ensures |ctx.positions| < ctx.maxTrades && cand.multiplier > 0.0
  {
    hide Capacities, UnitRisk, FittingSize, ExposureDefined, Violations, Limit;
    AuthorityIsExact(ctx, cand);
    BoundedPositions(ctx.positions, ctx.includeProfit);
  }

  lemma {:induction false} BoundedPositions(positions: seq<OpenRisk>, includeProfit: bool)
    ensures ReservedRisk(positions, includeProfit).Some? <==>
      forall i :: 0 <= i < |positions| ==> positions[i].remainingLoss.Some?
  {
    if positions != [] {
      BoundedPositions(positions[..|positions| - 1], includeProfit);
    }
  }

  // ----- open risk

  /** What one position adds to the open risk: its loss to the stop, never negative, less its profit where
      unrealized profit counts. */
  function NetLoss(pos: OpenRisk, includeProfit: bool): real
    requires pos.remainingLoss.Some?
  {
    (if pos.remainingLoss.value > 0.0 then pos.remainingLoss.value else 0.0)
      - (if includeProfit && pos.unrealizedPnl > 0.0 then pos.unrealizedPnl else 0.0)
  }

  ghost predicate Bounded(positions: seq<OpenRisk>) {
    forall i :: 0 <= i < |positions| ==> positions[i].remainingLoss.Some?
  }

  /** The net loss of the positions from `from` on. */
  function NetFrom(positions: seq<OpenRisk>, includeProfit: bool, from: nat): real
    requires from <= |positions| && Bounded(positions)
    decreases |positions|
  {
    if from == |positions| then 0.0
    else
      var before := NetFrom(positions[..|positions| - 1], includeProfit, from);
      before + NetLoss(positions[|positions| - 1], includeProfit)
  }

  ghost predicate LargestNet(positions: seq<OpenRisk>, includeProfit: bool, total: real)
    requires Bounded(positions)
  {
    && (forall k :: 0 <= k <= |positions| ==> NetFrom(positions, includeProfit, k) <= total)
    && exists k :: 0 <= k <= |positions| && NetFrom(positions, includeProfit, k) == total
  }

  /** The clamped running total is the largest net loss of any tail of the positions: a profit offsets the losses
      listed before it and none listed after. */
  lemma {:induction false} ReservedRiskIsLargestTail(positions: seq<OpenRisk>, includeProfit: bool)
    requires Bounded(positions)
    ensures ReservedRisk(positions, includeProfit).Some?
    ensures LargestNet(positions, includeProfit, ReservedRisk(positions, includeProfit).value)
  {
    if positions == [] {
      assert NetFrom(positions, includeProfit, 0) == 0.0;
    } else {
      var n := |positions| - 1;
      var init, last := positions[..n], positions[n];
      ReservedRiskIsLargestTail(init, includeProfit);
      var before, after := ReservedRisk(init, includeProfit).value, ReservedRisk(positions, includeProfit).value;
      var k :| 0 <= k <= n && NetFrom(init, includeProfit, k) == before;
      forall j | 0 <= j <= n
        ensures NetFrom(positions, includeProfit, j) == NetFrom(init, includeProfit, j) + NetLoss(last, includeProfit)
      {
      }
      assert NetFrom(positions, includeProfit, n + 1) == 0.0;
      assert NetFrom(positions, includeProfit, k) == before + NetLoss(last, includeProfit);
      NotNegative(init, includeProfit);
    }
  }

  lemma {:induction false} NotNegative(positions: seq<OpenRisk>, includeProfit: bool)
    ensures ReservedRisk(positions, includeProfit).Some? ==> ReservedRisk(positions, includeProfit).value >= 0.0
  {
    if positions != [] {
      NotNegative(positions[..|positions| - 1], includeProfit);
    }
  }

  // ----- exposure

  /** What one position carries in a group: its loss to the stop in its category and its underlying, the loss times
      the size of its weight in its currencies; without a known, non-zero loss it carries infinitely much. */
  lemma OnePositionCarries(pos: OpenRisk, g: Group)
    ensures
      var carried := Exposure([pos], g);
      var weight := match g
        case Category(name) => if name == pos.category then Some(1.0) else None
        case Underlying(id) => if pos.underlying == Some(id) then Some(1.0) else None
        case Currency(code) => if code !in pos.currencies then None
          else if pos.currencies[code] < 0.0 then Some(-pos.currencies[code]) else Some(pos.currencies[code]);
      if weight.None? then carried == Fin(0.0)
      else if pos.remainingLoss.None? || pos.remainingLoss.value == 0.0 then carried == Inf
      else carried == Fin(weight.value * pos.remainingLoss.value)
  {
    assert [pos][..0] == [];
  }

  /** Exposures add up. */
  lemma {:induction false} ExposuresAddUp(a: seq<OpenRisk>, b: seq<OpenRisk>, g: Group)
    ensures Exposure(a + b, g) == Plus(Exposure(a, g), Exposure(b, g))
    ensures Exposure(a + b, g).Inf? <==> Exposure(a, g).Inf? || Exposure(b, g).Inf?
    decreases |b|
  {
    hide Weighted, WeightIn, PositionRisk;
    if b == [] {
      assert a + b == a;
    } else {
      var init := b[..|b| - 1];
      ExposuresAddUp(a, init, g);
      assert (a + b)[..|a + b| - 1] == a + init && (a + b)[|a + b| - 1] == b[|b| - 1];
    }
  }

  /** The reported violations are the capped groups that the whole request would lift above their cap. */
  lemma {:induction false} ViolationsExactly(ctx: Context, cand: Candidate, requestedRisk: real, caps: seq<Cap>,
                                             g: Group)
    ensures g in Violations(ctx, cand, requestedRisk, caps) <==>
      exists i :: 0 <= i < |caps| && caps[i].group == g && Exceeds(ctx, cand, requestedRisk, caps[i])
  {
    hide Exceeds;
    if caps != [] {
      var n := |caps| - 1;
      ViolationsExactly(ctx, cand, requestedRisk, caps[..n], g);
      ExceedsMeans(ctx, cand, requestedRisk, caps[n]);
    }
  }

  /** Open positions and the candidate together carry more than the cap. */
  predicate Exceeds(ctx: Context, cand: Candidate, requestedRisk: real, cap: Cap) {
    var carried := Exposure(ctx.positions, cap.group);
    var weight := match cap.group
      case Category(name) => if name == cand.category then 1.0 else 0.0
      case Underlying(id) => if cand.underlying == Some(id) then 1.0 else 0.0
      case Currency(code) => if code !in cand.currencies then 0.0
        else if cand.currencies[code] < 0.0 then -cand.currencies[code] else cand.currencies[code];
    carried.Inf? || carried.value + weight * requestedRisk > cap.value
  }

  lemma ExceedsMeans(ctx: Context, cand: Candidate, requestedRisk: real, cap: Cap)
    ensures Exceeds(ctx, cand, requestedRisk, cap) <==>
      Above(Plus(Exposure(ctx.positions, cap.group), Weighted(CandidateWeight(cand, cap.group), Fin(requestedRisk))),
            cap.value)
  {
    hide Exposure;
  }

  /** An accepted verdict reports exactly the capped groups that the whole request, financing included, would lift
      above their cap. */
  lemma VerdictReportsViolations(ctx: Context, cand: Candidate, g: Group)
    requires Accepts(Evaluated(ctx, cand))
    ensures UnitRisk(cand).Success?
    ensures g in Evaluated(ctx, cand).verdict.violations <==>
      exists i :: 0 <= i < |ctx.caps| && ctx.caps[i].group == g
        && Exceeds(ctx, cand, Times(cand.requestedSize, UnitRisk(cand).value) + cand.financing, ctx.caps[i])
  {
    hide Exceeds, Times, Violations, FittingSize, ReservedRisk, Limit, UnitRisk, AuthorityError, RiskOf, Exposure;
    ViolationsExactly(ctx, cand, RequestedRisk(cand, UnitRisk(cand).value), ctx.caps, g);
  }
}
