/** Sizes are safe, maximal and monotone; the executable ticket restates the approved risk. */
module RiskProofs {
  import opened Numbers
  import opened Risk

  // ----- safe and maximal sizing

  lemma {:induction false} MinOfIsLeast(xs: seq<real>)
    requires xs != []
    ensures MinOf(xs) in xs && forall i :: 0 <= i < |xs| ==> MinOf(xs) <= xs[i]
  {
    if |xs| > 1 {
      MinOfIsLeast(xs[..|xs| - 1]);
    }
  }

  /** A stepped size costs at most the budget, and one more step would exceed it. */
  lemma SteppedSizeFits(budget: real, perUnit: real, increment: real)
    requires budget > 0.0 && perUnit > 0.0 && increment > 0.0
    ensures
      var size := SizeForRisk(budget, perUnit, increment);
      && 0.0 <= size && IsMultiple(size, increment)
      && Times(size, perUnit) <= budget < Times(size + increment, perUnit)
  {
    var units := budget / perUnit;
    DivPositive(budget, perUnit);
    DivMul(budget, perUnit);
    FloorToBounds(units, increment);
    var size := FloorTo(units, increment);
    StepIsNotNegative(units, increment);
    assert size * perUnit <= units * perUnit by { MulLe(size, units, perUnit); }
    assert units * perUnit < (size + increment) * perUnit by { MulLt(units, size + increment, perUnit); }
  }

  lemma StepIsNotNegative(units: real, increment: real)
    requires units > 0.0 && increment > 0.0
    ensures FloorTo(units, increment) >= 0.0
  {
    DivPositive(units, increment);
    MulLe(0.0, (units / increment).Floor as real, increment);
  }

  ghost predicate FitsAll(caps: seq<real>, risk: real) {
    forall i :: 0 <= i < |caps| ==> risk <= caps[i]
  }

  /** The budget left by every capacity after the fixed cost. */
  lemma NetBudget(caps: seq<real>, cost: real, x: real)
    requires caps != [] && cost >= 0.0
    ensures Net(caps, cost) != []
    ensures
      var budget := Max(0.0, MinOf(Net(caps, cost)));
      && (budget > 0.0 ==> (FitsAll(caps, x + cost) <==> x <= budget))
      && (budget == 0.0 && x > 0.0 ==> !FitsAll(caps, x + cost))
  {
    var net := Net(caps, cost);
    var budget := Max(0.0, MinOf(net));
    MinOfIsLeast(net);
    var k :| 0 <= k < |net| && net[k] == MinOf(net);
    if FitsAll(caps, x + cost) {
      assert x + cost <= caps[k];
    }
    if 0.0 < budget && x <= budget {
      forall i | 0 <= i < |caps| ensures x + cost <= caps[i] {
        assert net[i] >= budget;
      }
    }
  }

  /** The whole sizing rule: what the size costs, and when it is positive. */
  lemma FittingSizeFits(ctx: Context, cand: Candidate, perUnit: real)
    requires HasAuthority(ctx) && ExistingRisk(ctx).Some? && perUnit > 0.0
    ensures
      var size, caps := FittingSize(ctx, cand, perUnit), Capacities(ctx);
      && 0.0 <= size <= cand.requestedSize
      && (size > 0.0 ==> FitsAll(caps, Times(size, perUnit) + cand.financing))
      && (0.0 < size < cand.requestedSize ==>
            IsMultiple(size, cand.increment) && !FitsAll(caps, Times(size + cand.increment, perUnit) + cand.financing))
      && (size > 0.0 <==> FitsAll(caps, Times(cand.increment, perUnit) + cand.financing))
  {
    hide Capacities, Net, MinOf, FitsAll, SizeForRisk, IsMultiple, Times;
    var caps := Capacities(ctx);
    NetBudget(caps, cand.financing, Times(cand.increment, perUnit));
    var budget := Max(0.0, MinOf(Net(caps, cand.financing)));
    assert FittingSize(ctx, cand, perUnit) == Min(cand.requestedSize, SizeForRisk(budget, perUnit, cand.increment));
    TimesPositive(cand.increment, perUnit);
    if budget > 0.0 {
      SteppedSizeFits(budget, perUnit, cand.increment);
      var stepped := SizeForRisk(budget, perUnit, cand.increment);
      var size := Min(cand.requestedSize, stepped);
      TimesMonotone(size, stepped, perUnit);
      NetBudget(caps, cand.financing, Times(size, perUnit));
      NetBudget(caps, cand.financing, Times(size + cand.increment, perUnit));
      if stepped > 0.0 {
        AtLeastOneStep(stepped, cand.increment);
        TimesMonotone(cand.increment, stepped, perUnit);
      }
    } else {
      NoBudgetNoSize(budget, perUnit, cand.increment);
    }
  }

  lemma OneTimes(x: real)
    ensures Times(1.0, x) == x
  {
  }

  lemma TimesPositive(a: real, b: real)
    requires a > 0.0 && b > 0.0
    ensures Times(a, b) > 0.0
  {
  }

  lemma TimesMonotone(a: real, b: real, c: real)
    requires a <= b && c >= 0.0
    ensures Times(a, c) <= Times(b, c)
  {
  }

  lemma NoBudgetNoSize(budget: real, perUnit: real, increment: real)
    requires budget <= 0.0 && increment > 0.0
    ensures SizeForRisk(budget, perUnit, increment) == 0.0
  {
  }

  lemma AtLeastOneStep(x: real, increment: real)
    requires x > 0.0 && increment > 0.0 && IsMultiple(x, increment)
    ensures x >= increment
  {
    var k: int :| x == Steps(k, increment);
    if k <= 0 {
      MulLe(k as real, 0.0, increment);
    } else {
      MulLe(1.0, k as real, increment);
    }
  }

  /** The group carries at most its cap after the trade. */
  ghost predicate WithinCap(ctx: Context, cand: Candidate, cap: Cap, risk: real) {
    var carried := Exposure(ctx.positions, cap.group);
    var w := CandidateWeight(cand, cap.group);
    carried.Fin? && carried.value + (if w.Some? then Times(w.value, risk) else 0.0) <= cap.value
  }

  ghost predicate UnitWeights(cand: Candidate) {
    forall code :: code in cand.currencies ==> -1.0 <= cand.currencies[code] <= 1.0
  }

  ghost predicate Accepts(o: Outcome) {
    o.Decided? && o.verdict.decision != HardBlock
  }

  /** Safe sizing: an accepted candidate's risk, financing included, fits the drawdown, daily,
      portfolio, per-trade and every correlation capacity. */
  lemma AcceptedRiskIsSafe(ctx: Context, cand: Candidate)
    requires Accepts(Evaluated(ctx, cand))
    ensures
      var v := Evaluated(ctx, cand).verdict;
      var perUnit := UnitRisk(cand);
      && perUnit.Success? && perUnit.value > 0.0 && HasAuthority(ctx) && ExistingRisk(ctx).Some?
      && 0.0 < v.approvedSize <= cand.requestedSize
      && v.candidateRisk == Times(v.approvedSize, perUnit.value) + cand.financing
      && v.candidateRisk > 0.0
      && v.candidateRisk <= Limit(ctx.constraints, MaxTotalDrawdown).value.value - Drawdown(ctx)
      && v.candidateRisk <= Limit(ctx.constraints, MaxDailyLoss).value.value - DailyLoss(ctx)
      && v.candidateRisk <= Limit(ctx.constraints, MaxPortfolioRisk).value.value - ExistingRisk(ctx).value
      && v.remainingPortfolio == Limit(ctx.constraints, MaxPortfolioRisk).value.value - ExistingRisk(ctx).value
      && (Limit(ctx.constraints, MaxRiskPerTrade).Some? ==>
          v.candidateRisk <= Limit(ctx.constraints, MaxRiskPerTrade).value.value)
      && (forall i :: 0 <= i < |ctx.caps| ==>
            var carried := Exposure(ctx.positions, ctx.caps[i].group);
            carried.Fin? && carried.value + v.candidateRisk <= ctx.caps[i].value)
      && (UnitWeights(cand) ==> forall i :: 0 <= i < |ctx.caps| ==> WithinCap(ctx, cand, ctx.caps[i], v.candidateRisk))
  {
    hide Exposure, Limit, ReservedRisk, AuthorityError, TypedLoss, FittingSize, Drawdown, DailyLoss, ExposureDefined,
         Violations, Times;
    var v := Evaluated(ctx, cand).verdict;
    var perUnit := UnitRisk(cand).value;
    UnitRiskIsPositive(cand);
    FittingSizeFits(ctx, cand, perUnit);
    var caps, risk := Capacities(ctx), v.candidateRisk;
    assert FitsAll(caps, risk);
    TimesPositive(v.approvedSize, perUnit);
    var fixed := |caps| - |ctx.caps|;
    assert risk <= caps[0] && risk <= caps[1] && risk <= caps[2];
    if Limit(ctx.constraints, MaxRiskPerTrade).Some? {
      assert caps[3] == Limit(ctx.constraints, MaxRiskPerTrade).value.value;
    }
    forall i | 0 <= i < |ctx.caps|
      ensures Exposure(ctx.positions, ctx.caps[i].group).Fin?
      ensures Exposure(ctx.positions, ctx.caps[i].group).value + risk <= ctx.caps[i].value
      ensures UnitWeights(cand) ==> WithinCap(ctx, cand, ctx.caps[i], risk)
    {
      assert caps[fixed + i] == CorrelationCapacity(ctx.positions, ctx.caps[i]);
      assert risk <= caps[fixed + i];
      var w := CandidateWeight(cand, ctx.caps[i].group);
      if UnitWeights(cand) && w.Some? {
        TimesMonotone(w.value, 1.0, risk);
        OneTimes(risk);
      }
    }
  }

  lemma UnitRiskIsPositive(cand: Candidate)
    ensures UnitRisk(cand).Success? ==> UnitRisk(cand).value > 0.0
  {
    if cand.instrument.Some? {
      TypedLossIsPositive(cand.instrument.value, cand.entry, cand.stop, cand.multiplier, cand.tickSize, cand.tickValue);
    }
  }

  /** Maximal sizing: PASS grants the request, a reduced size is a whole number of steps and one more
      step would exceed some capacity. */
  lemma AcceptedSizeIsMaximal(ctx: Context, cand: Candidate)
    requires Accepts(Evaluated(ctx, cand))
    ensures
      var v := Evaluated(ctx, cand).verdict;
      && HasAuthority(ctx) && ExistingRisk(ctx).Some? && UnitRisk(cand).Success?
      && (v.decision == Pass ==> v.approvedSize == cand.requestedSize)
      && (v.decision == ReduceSize ==>
            && v.approvedSize < cand.requestedSize
            && IsMultiple(v.approvedSize, cand.increment)
            && !FitsAll(Capacities(ctx), Times(v.approvedSize + cand.increment, UnitRisk(cand).value) + cand.financing))
  {
    hide Capacities, AuthorityError, UnitRisk, FittingSize, ExposureDefined, Violations, FitsAll, IsMultiple, RiskOf,
         Times;
    UnitRiskIsPositive(cand);
    FittingSizeFits(ctx, cand, UnitRisk(cand).value);
  }

  /** With authority, bounded positions and a free slot, a candidate is blocked exactly when not even
      one size step with its financing fits every capacity. */
  lemma BlockedExactlyWhenNoStepFits(ctx: Context, cand: Candidate)
    requires ExposureDefined(ctx.positions) && AuthorityError(ctx, cand).None? && UnitRisk(cand).Success?
    requires HasAuthority(ctx) && ExistingRisk(ctx).Some? && |ctx.positions| < ctx.maxTrades && cand.multiplier > 0.0
    ensures Accepts(Evaluated(ctx, cand)) <==>
      FitsAll(Capacities(ctx), Times(cand.increment, UnitRisk(cand).value) + cand.financing)
  {
    hide Capacities, AuthorityError, UnitRisk, FittingSize, ExposureDefined, Violations, FitsAll, RiskOf, Times;
    UnitRiskIsPositive(cand);
    FittingSizeFits(ctx, cand, UnitRisk(cand).value);
  }

  // ----- monotonicity

  /** What evaluation grants; a raised error grants nothing. */
  function Granted(ctx: Context, cand: Candidate): real {
    var o := Evaluated(ctx, cand);
    if o.Decided? then o.verdict.approvedSize else 0.0
  }

  lemma GrantedIsNotNegative(ctx: Context, cand: Candidate)
    ensures 0.0 <= Granted(ctx, cand)
  {
    hide Capacities, AuthorityError, UnitRisk, ExposureDefined, Violations, RiskOf, FittingSize;
    UnitRiskIsPositive(cand);
    if HasAuthority(ctx) && ExistingRisk(ctx).Some? && UnitRisk(cand).Success? {
      FittingSizeFits(ctx, cand, UnitRisk(cand).value);
    }
  }

  /** Every capacity of `b` has a capacity of `a` that is no larger. */
  ghost predicate Tightens(a: seq<real>, b: seq<real>) {
    forall j :: 0 <= j < |b| ==> HasLower(a, b[j])
  }

  ghost predicate HasLower(a: seq<real>, bound: real) {
    exists i :: 0 <= i < |a| && a[i] <= bound
  }

  lemma TighterMin(a: seq<real>, b: seq<real>, cost: real)
    requires a != [] && b != [] && Tightens(a, b)
    ensures MinOf(Net(a, cost)) <= MinOf(Net(b, cost))
  {
    var x, y := Net(a, cost), Net(b, cost);
    MinOfIsLeast(x);
    MinOfIsLeast(y);
    var j :| 0 <= j < |y| && y[j] == MinOf(y);
    assert HasLower(a, b[j]);
    var i :| 0 <= i < |a| && a[i] <= b[j];
    assert x[i] <= y[j];
  }

  lemma SizeGrowsWithBudget(a: real, b: real, perUnit: real, increment: real)
    requires a <= b && perUnit > 0.0 && increment > 0.0
    ensures SizeForRisk(a, perUnit, increment) <= SizeForRisk(b, perUnit, increment)
  {
    if a > 0.0 {
      DivPositive(a, perUnit);
      DivPositive(b, perUnit);
      DivLe(a, b, perUnit);
      FloorToMonotone(a / perUnit, b / perUnit, increment);
    } else if b > 0.0 {
      SteppedSizeFits(b, perUnit, increment);
    }
  }

  /** The same candidate in a context `b`, except that policy, positions, caps or reservations are tighter in `a`. */
  ghost predicate TighterContext(a: Context, b: Context) {
    && a.specifications == b.specifications && a.currentCut == b.currentCut && a.maxTrades == b.maxTrades
    && (ExposureDefined(a.positions) ==> ExposureDefined(b.positions))
    && |a.positions| >= |b.positions|
    && HasAuthority(b)
    && (HasAuthority(a) && ExistingRisk(a).Some? ==>
          ExistingRisk(b).Some? && Tightens(Capacities(a), Capacities(b)))
  }

  lemma TighterGrantsNoMore(a: Context, b: Context, cand: Candidate)
    requires TighterContext(a, b)
    ensures Granted(a, cand) <= Granted(b, cand)
  {
    hide Capacities, UnitRisk, ExposureDefined, Violations, RiskOf, HasAuthority, ExistingRisk, Tightens, SizeForRisk,
         Net, MinOf;
    GrantedIsNotNegative(b, cand);
    UnitRiskIsPositive(cand);
    SameAuthorityError(a, b, cand);
    hide AuthorityError;
    if HasAuthority(a) && ExistingRisk(a).Some? && UnitRisk(cand).Success? && ExposureDefined(a.positions)
      && AuthorityError(a, cand).None? {
      var perUnit := UnitRisk(cand).value;
      var x, y := Net(Capacities(a), cand.financing), Net(Capacities(b), cand.financing);
      TighterMin(Capacities(a), Capacities(b), cand.financing);
      assert x != [] && y != [] by {
        NetLength(Capacities(a), cand.financing);
        NetLength(Capacities(b), cand.financing);
      }
      SizeGrowsWithBudget(Max(0.0, MinOf(x)), Max(0.0, MinOf(y)), perUnit, cand.increment);
    }
  }

  lemma NetLength(caps: seq<real>, cost: real)
    ensures |Net(caps, cost)| == |caps|
  {
  }

  lemma SameAuthorityError(a: Context, b: Context, cand: Candidate)
    requires a.specifications == b.specifications && a.currentCut == b.currentCut
    ensures AuthorityError(a, cand) == AuthorityError(b, cand)
  {
  }

  lemma CapacitiesTighten(a: Context, b: Context)
    requires HasAuthority(a) && ExistingRisk(a).Some? && HasAuthority(b) && ExistingRisk(b).Some?
    requires a.constraints == b.constraints && Drawdown(a) == Drawdown(b) && DailyLoss(a) == DailyLoss(b)
    requires ExistingRisk(a).value >= ExistingRisk(b).value && |a.caps| == |b.caps|
    requires forall i :: 0 <= i < |a.caps| ==>
      CorrelationCapacity(a.positions, a.caps[i]) <= CorrelationCapacity(b.positions, b.caps[i])
    ensures Tightens(Capacities(a), Capacities(b))
  {
    hide Limit, CorrelationCapacity, ExistingRisk, Drawdown, DailyLoss;
    var x, y := Capacities(a), Capacities(b);
    assert |x| == |y| && forall i :: 0 <= i < |x| ==> x[i] <= y[i];
    Pointwise(x, y);
  }

  /** Adding an active reservation never increases the granted size. */
  lemma ReservationNeverLoosens(ctx: Context, cand: Candidate, amount: real)
    requires HasAuthority(ctx) && amount >= 0.0
    ensures Granted(ctx.(reservations := ctx.reservations + [amount]), cand) <= Granted(ctx, cand)
  {
    hide ReservedRisk, Limit, CorrelationCapacity, Capacities;
    var after := ctx.(reservations := ctx.reservations + [amount]);
    SumSnoc(ctx.reservations, amount);
    if ExistingRisk(after).Some? {
      CapacitiesTighten(after, ctx);
    }
    TighterGrantsNoMore(after, ctx, cand);
  }

  lemma Pointwise(a: seq<real>, b: seq<real>)
    requires |a| == |b| && forall i :: 0 <= i < |a| ==> a[i] <= b[i]
    ensures Tightens(a, b)
  {
    forall j | 0 <= j < |b| ensures HasLower(a, b[j]) {
      assert a[j] <= b[j];
    }
  }

  /** Adding an open position never increases the granted size, when unrealized profit is not counted
      and the position's loss is unbounded or not negative. */
  lemma PositionNeverLoosens(ctx: Context, cand: Candidate, pos: OpenRisk)
    requires HasAuthority(ctx) && !ctx.includeProfit
    requires pos.remainingLoss.Some? ==> pos.remainingLoss.value >= 0.0
    ensures Granted(ctx.(positions := ctx.positions + [pos]), cand) <= Granted(ctx, cand)
  {
    hide Limit, PositionRisk, Weighted, WeightIn, Capacities;
    var after := ctx.(positions := ctx.positions + [pos]);
    assert after.positions[..|ctx.positions|] == ctx.positions;
    assert ExposureDefined(after.positions) ==> ExposureDefined(ctx.positions) by {
      assert forall i :: 0 <= i < |ctx.positions| ==> ctx.positions[i] == after.positions[i];
    }
    if ExistingRisk(after).Some? {
      forall i | 0 <= i < |ctx.caps|
        ensures CorrelationCapacity(after.positions, ctx.caps[i]) <= CorrelationCapacity(ctx.positions, ctx.caps[i])
      {
        ExposureGrows(ctx.positions, pos, ctx.caps[i].group);
      }
      CapacitiesTighten(after, ctx);
    }
    TighterGrantsNoMore(after, ctx, cand);
  }

  lemma ExposureGrows(positions: seq<OpenRisk>, pos: OpenRisk, g: Group)
    requires pos.remainingLoss.Some? ==> pos.remainingLoss.value >= 0.0
    ensures
      var before, after := Exposure(positions, g), Exposure(positions + [pos], g);
      after.Inf? || (before.Fin? && before.value <= after.value)
  {
    assert (positions + [pos])[..|positions|] == positions;
    var w := WeightIn(pos.category, pos.underlying, pos.currencies, g);
    if w.Some? && PositionRisk(pos).Fin? {
      MulLe(0.0, w.value, PositionRisk(pos).value);
    }
  }

  /** Lowering a correlation cap never increases the granted size. */
  lemma LowerCapNeverLoosens(ctx: Context, cand: Candidate, k: nat, value: real)
    requires HasAuthority(ctx) && k < |ctx.caps| && value <= ctx.caps[k].value
    ensures Granted(ctx.(caps := ctx.caps[k := Cap(ctx.caps[k].group, value)]), cand) <= Granted(ctx, cand)
  {
    hide Limit, Exposure, ReservedRisk, Capacities;
    var after := ctx.(caps := ctx.caps[k := Cap(ctx.caps[k].group, value)]);
    if ExistingRisk(after).Some? {
      CapacitiesTighten(after, ctx);
    }
    TighterGrantsNoMore(after, ctx, cand);
  }

  /** Adding a hard constraint keeps or tightens the limit of its kind exactly when that limit was
      already hard or was no tighter than the new value: the first hard constraint of a kind
      replaces all soft ones. */
  lemma HardConstraintTightensExactly(cs: seq<Constraint>, c: Constraint)
    requires c.hard && Limit(cs, c.kind).Some?
    ensures Limit(cs + [c], c.kind).Some?
    ensures Limit(cs + [c], c.kind).value.value <= Limit(cs, c.kind).value.value
      <==> Limit(cs, c.kind).value.hard || c.value <= Limit(cs, c.kind).value.value
  {
    hide Limit;
    var ds := cs + [c];
    LimitIsStrictest(cs, c.kind);
    LimitIsStrictest(ds, c.kind);
    assert c in ds && ds[|cs|] == c;
    var old', next := Limit(cs, c.kind).value, Limit(ds, c.kind).value;
    assert old' in ds;
    assert next in cs || next == c;
    HardMemberMeansHasHard(cs, next);
  }

  lemma HardMemberMeansHasHard(cs: seq<Constraint>, c: Constraint)
    ensures c in cs && c.hard ==> HasHard(cs, c.kind)
  {
  }

  lemma OtherKindsUnchanged(cs: seq<Constraint>, c: Constraint, kind: Kind)
    requires kind != c.kind
    ensures Limit(cs + [c], kind) == Limit(cs, kind)
  {
    assert (cs + [c])[..|cs|] == cs;
  }

  /** A hard constraint that cannot loosen its kind's limit. */
  ghost predicate Binding(cs: seq<Constraint>, c: Constraint) {
    c.hard && (Limit(cs, c.kind).Some? ==> Limit(cs, c.kind).value.hard || c.value <= Limit(cs, c.kind).value.value)
  }

  /** Adding a hard constraint never increases the granted size, provided it does not replace a soft limit
      by a looser one. */
  lemma HardConstraintNeverLoosens(ctx: Context, cand: Candidate, c: Constraint)
    requires HasAuthority(ctx) && Binding(ctx.constraints, c)
    ensures Granted(ctx.(constraints := ctx.constraints + [c]), cand) <= Granted(ctx, cand)
  {
    hide Limit, ReservedRisk, Exposure;
    var after := ctx.(constraints := ctx.constraints + [c]);
    forall kind ensures Limit(ctx.constraints, kind).Some? ==>
      Limit(after.constraints, kind).Some?
        && Limit(after.constraints, kind).value.value <= Limit(ctx.constraints, kind).value.value
    {
      if kind == c.kind {
        if Limit(ctx.constraints, kind).Some? {
          HardConstraintTightensExactly(ctx.constraints, c);
        }
      } else {
        OtherKindsUnchanged(ctx.constraints, c, kind);
      }
    }
    if ExistingRisk(after).Some? {
      var a, b := Capacities(after), Capacities(ctx);
      var shift := |a| - |b|;
      var fixed := |b| - |ctx.caps|;
      forall j | 0 <= j < |b| ensures HasLower(a, b[j]) {
        if j < fixed {
          assert a[j] <= b[j];
        } else {
          assert a[j + shift] == b[j];
        }
      }
    }
    TighterGrantsNoMore(after, ctx, cand);
  }

  const OPEN_POLICY := [Constraint(MaxTotalDrawdown, 1000.0, true), Constraint(MaxDailyLoss, 1000.0, true),
                        Constraint(MaxPortfolioRisk, 1000.0, true), Constraint(MaxRiskPerTrade, 10.0, false)]

  const ROUND_CANDIDATE: Candidate :=
    CandidateTrade("", None, map[], 100.0, 2.0, 1.0, 1.0, 1.0, 0.0, None, false, None, false, false, 1.0, None, None)

  /** Replacing a soft per-trade limit of 10 by a hard one of 50 raises the granted size. */
  lemma FirstHardLimitCanLoosen(ctx: Context)
    requires ctx.constraints == OPEN_POLICY && ctx.positions == [] && ctx.caps == [] && ctx.reservations == []
    requires ctx.maxTrades > 0 && Drawdown(ctx) == 0.0 && DailyLoss(ctx) == 0.0
    ensures
      var hard := Constraint(MaxRiskPerTrade, 50.0, true);
      && !Binding(ctx.constraints, hard)
      && Granted(ctx, ROUND_CANDIDATE) <= 10.0 < Granted(ctx.(constraints := ctx.constraints + [hard]), ROUND_CANDIDATE)
  {
    hide Evaluated, Limit;
    var hard := Constraint(MaxRiskPerTrade, 50.0, true);
    var after := ctx.(constraints := ctx.constraints + [hard]);
    LimitIsStrictest(OPEN_POLICY, MaxRiskPerTrade);
    assert OPEN_POLICY[3] in OPEN_POLICY;
    assert Limit(OPEN_POLICY, MaxRiskPerTrade) == Some(OPEN_POLICY[3]);
    GrantedUpTo(ctx, 10.0);
    forall kind | kind in {MaxTotalDrawdown, MaxDailyLoss, MaxPortfolioRisk, MaxRiskPerTrade}
      ensures Limit(after.constraints, kind).Some? && Limit(after.constraints, kind).value.value >= 50.0
    {
      LimitIsStrictest(after.constraints, kind);
      assert after.constraints[0] in after.constraints && after.constraints[1] in after.constraints
        && after.constraints[2] in after.constraints && after.constraints[4] in after.constraints;
      assert HasHard(after.constraints, MaxRiskPerTrade) by { assert after.constraints[4] == hard; }
    }
    GrantedBeyond(after, 10.0);
  }

  lemma GrantedUpTo(ctx: Context, limit: real)
    requires Limit(ctx.constraints, MaxRiskPerTrade).Some?
      && Limit(ctx.constraints, MaxRiskPerTrade).value.value == limit > 0.0
    ensures Granted(ctx, ROUND_CANDIDATE) <= limit
  {
    hide Limit, HasAuthority;
    if Accepts(Evaluated(ctx, ROUND_CANDIDATE)) {
      AcceptedRiskIsSafe(ctx, ROUND_CANDIDATE);
    }
  }

  lemma GrantedBeyond(ctx: Context, amount: real)
    requires ctx.positions == [] && ctx.caps == [] && ctx.reservations == [] && ctx.maxTrades > 0
    requires Drawdown(ctx) == 0.0 && DailyLoss(ctx) == 0.0 && 0.0 <= amount <= 49.0
    requires forall kind :: kind in {MaxTotalDrawdown, MaxDailyLoss, MaxPortfolioRisk, MaxRiskPerTrade} ==>
      Limit(ctx.constraints, kind).Some? && Limit(ctx.constraints, kind).value.value >= 50.0
    ensures Granted(ctx, ROUND_CANDIDATE) > amount
  {
    hide Limit, Drawdown, DailyLoss, Violations, FittingSize;
    assert HasAuthority(ctx);
    FittingSizeFits(ctx, ROUND_CANDIDATE, 1.0);
    assert forall i :: 0 <= i < |Capacities(ctx)| ==> Capacities(ctx)[i] >= 50.0;
  }

  // ----- the ticket

  datatype Terms = Terms(currency: string, multiplier: real, tickSize: real, tickValue: Option<real>,
                         minimum: real, maximum: real, step: real)

  datatype Side = Buy | Sell

  datatype TicketTarget = TicketTarget(price: real, profit: real, fraction: Option<real>, hardTakeProfit: bool)

  datatype Ticket = Ticket(currency: string, riskLimit: real, potentialLoss: real, targets: seq<TicketTarget>)

  /** `size % step`, for the non-negative sizes that pass the minimum. */
  predicate OffStep(size: real, step: real) {
    step <= 0.0 || RoundDown(size, step) != size
  }

  function SizeError(t: Terms, size: real): Option<string> {
    if size < t.minimum || size > t.maximum then Some("approved volume is outside broker minimum/maximum")
    else if OffStep(size, t.step) then Some("approved volume does not match broker lot step")
    else None
  }

  predicate WrongSide(side: Side, entry: real, price: real) {
    if side == Buy then price <= entry else price >= entry
  }

  predicate OutOfRange(fraction: Option<real>) {
    fraction.Some? && (fraction.value <= 0.0 || fraction.value > 1.0)
  }

  function TicketTargets(t: Terms, instrument: Instrument, entry: real, size: real, targets: seq<real>,
                         fractions: seq<Option<real>>): Result<seq<TicketTarget>, string>
    requires |targets| == |fractions|
  {
    if targets == [] then Success([])
    else
      var n := |targets| - 1;
      var before := TicketTargets(t, instrument, entry, size, targets[..n], fractions[..n]);
      var gain := TypedLoss(instrument, entry, targets[n], t.multiplier, Some(t.tickSize), t.tickValue);
      if before.Failure? then before
      else if gain.Failure? then Failure(gain.error)
      else Success(before.value + [TicketTarget(targets[n], Times(size, gain.value), fractions[n], n == 0)])
  }

  /** `build_trade_ticket` for an evaluated verdict. */
  function BuildTicket(t: Terms, instrument: Instrument, side: Side, entry: real, stop: real, targets: seq<real>,
                       fractions: seq<Option<real>>, riskLimit: real, v: Verdict): Result<Ticket, string> {
    if v.decision == HardBlock || v.approvedSize <= 0.0 then Failure("blocked trade cannot have an executable ticket")
    else if SizeError(t, v.approvedSize).Some? then Failure(SizeError(t, v.approvedSize).value)
    else if (side == Buy && stop >= entry) || (side == Sell && stop <= entry)
    then Failure("stop loss must be on the loss side of the entry")
    else if targets == [] || |targets| != |fractions|
    then Failure("strategy targets and allocation references are incomplete")
    else if exists i :: 0 <= i < |targets| && WrongSide(side, entry, targets[i])
    then Failure("take-profit price must be on the profitable side of entry")
    else if exists i :: 0 <= i < |fractions| && OutOfRange(fractions[i])
    then Failure("research target fractions must be within (0, 1]")
    else
      var loss := TypedLoss(instrument, entry, stop, t.multiplier, Some(t.tickSize), t.tickValue);
      var scenarios := TicketTargets(t, instrument, entry, v.approvedSize, targets, fractions);
      if loss.Failure? then Failure(loss.error)
      else if scenarios.Failure? then Failure(scenarios.error)
      else Success(Ticket(t.currency, riskLimit, Times(v.approvedSize, loss.value), scenarios.value))
  }

  /** The coordinator takes the typed terms of an entry from the live broker terms. */
  function WithTerms(cand: Candidate, t: Terms): CandidateTrade {
    cand.(increment := t.step, multiplier := t.multiplier, tickSize := Some(t.tickSize), tickValue := t.tickValue)
  }

  /** The ticket's loss is the approved risk less financing, and within the hard per-trade limit. */
  lemma TicketRestatesApprovedRisk(ctx: Context, cand: Candidate, t: Terms, instrument: Instrument, side: Side,
                                   targets: seq<real>, fractions: seq<Option<real>>)
    requires t.step > 0.0 && cand.instrument == Some(instrument)
    requires Limit(ctx.constraints, MaxRiskPerTrade).Some?
    requires Accepts(Evaluated(ctx, WithTerms(cand, t)))
    requires
      var limit := Limit(ctx.constraints, MaxRiskPerTrade).value.value;
      BuildTicket(t, instrument, side, cand.entry, cand.stop, targets, fractions, limit,
                  Evaluated(ctx, WithTerms(cand, t)).verdict).Success?
    ensures
      var v := Evaluated(ctx, WithTerms(cand, t)).verdict;
      var limit := Limit(ctx.constraints, MaxRiskPerTrade).value.value;
      var ticket := BuildTicket(t, instrument, side, cand.entry, cand.stop, targets, fractions, limit, v).value;
      && ticket.potentialLoss == v.candidateRisk - cand.financing
      && 0.0 < ticket.potentialLoss <= ticket.riskLimit == limit
  {
    hide Evaluated, TypedLoss, TicketTargets, Limit, SizeError, Times;
    var live := WithTerms(cand, t);
    AcceptedRiskIsSafe(ctx, live);
    var v := Evaluated(ctx, live).verdict;
    TimesPositive(v.approvedSize, UnitRisk(live).value);
  }
}
