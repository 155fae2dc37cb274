/** Deterministic risk authority: policy limits, open risk, exposure per group, and the size
    that fits the strictest remaining capacity. */
module Risk {
  import opened Numbers

  // ----- policy

  datatype Kind = MaxRiskPerTrade | MaxDailyLoss | MaxTotalDrawdown | MaxPortfolioRisk
                | MaxCorrelatedRisk | MaxConcurrentTrades

  datatype Constraint = Constraint(kind: Kind, value: real, hard: bool)

  function OfKind(cs: seq<Constraint>, kind: Kind): seq<Constraint> {
    if cs == [] then []
    else
      var rest := OfKind(cs[..|cs| - 1], kind);
      if cs[|cs| - 1].kind == kind then rest + [cs[|cs| - 1]] else rest
  }

  function HardOnly(cs: seq<Constraint>): seq<Constraint> {
    if cs == [] then []
    else
      var rest := HardOnly(cs[..|cs| - 1]);
      if cs[|cs| - 1].hard then rest + [cs[|cs| - 1]] else rest
  }

  /** Hard choices outrank soft ones. */
  function Pool(choices: seq<Constraint>): (pool: seq<Constraint>)
    ensures choices != [] ==> pool != []
  {
    if HardOnly(choices) != [] then HardOnly(choices) else choices
  }

  function Strictest(pool: seq<Constraint>): Constraint
    requires pool != []
  {
    if |pool| == 1 then pool[0]
    else
      var best := Strictest(pool[..|pool| - 1]);
      if pool[|pool| - 1].value < best.value then pool[|pool| - 1] else best
  }

  /** The applicable limit of one kind. */
  function Limit(cs: seq<Constraint>, kind: Kind): Option<Constraint> {
    var choices := OfKind(cs, kind);
    if choices == [] then None else Some(Strictest(Pool(choices)))
  }

  lemma {:induction false} OfKindIsExact(cs: seq<Constraint>, kind: Kind)
    ensures forall c :: c in OfKind(cs, kind) <==> c in cs && c.kind == kind
  {
    if cs != [] {
      OfKindIsExact(cs[..|cs| - 1], kind);
      assert cs == cs[..|cs| - 1] + [cs[|cs| - 1]];
    }
  }

  lemma {:induction false} HardOnlyIsExact(cs: seq<Constraint>)
    ensures forall c :: c in HardOnly(cs) <==> c in cs && c.hard
  {
    if cs != [] {
      HardOnlyIsExact(cs[..|cs| - 1]);
      assert cs == cs[..|cs| - 1] + [cs[|cs| - 1]];
    }
  }

  lemma {:induction false} StrictestIsLeast(pool: seq<Constraint>)
    requires pool != []
    ensures Strictest(pool) in pool
    ensures forall c :: c in pool ==> Strictest(pool).value <= c.value
  {
    if |pool| > 1 {
      StrictestIsLeast(pool[..|pool| - 1]);
      assert pool == pool[..|pool| - 1] + [pool[|pool| - 1]];
    }
  }

  predicate HasHard(cs: seq<Constraint>, kind: Kind) {
    exists i :: 0 <= i < |cs| && cs[i].kind == kind && cs[i].hard
  }

  /** A limit is one of the given constraints; it is hard when any hard one exists, and it is the
      least among those of its enforcement. */
  lemma LimitIsStrictest(cs: seq<Constraint>, kind: Kind)
    ensures Limit(cs, kind).Some? <==> exists c :: c in cs && c.kind == kind
    ensures Limit(cs, kind).Some? ==>
      var l := Limit(cs, kind).value;
      && l in cs && l.kind == kind
      && (l.hard <==> HasHard(cs, kind))
      && forall c :: c in cs && c.kind == kind && (c.hard || !HasHard(cs, kind)) ==> l.value <= c.value
  {
    var choices := OfKind(cs, kind);
    OfKindIsExact(cs, kind);
    HardOnlyIsExact(choices);
    assert HardOnly(choices) != [] ==> HardOnly(choices)[0] in HardOnly(choices);
    if choices != [] {
      assert choices[0] in choices;
      StrictestIsLeast(Pool(choices));
      if HasHard(cs, kind) {
        var i :| 0 <= i < |cs| && cs[i].kind == kind && cs[i].hard;
        assert cs[i] in HardOnly(choices);
      }
    }
  }

  /** `strictest_applicable`: group by kind, then the strictest of each group. */
  method StrictestApplicable(cs: seq<Constraint>) returns (limits: map<Kind, Constraint>)
    ensures forall kind :: kind in limits <==> Limit(cs, kind).Some?
    ensures forall kind :: kind in limits ==> Limit(cs, kind) == Some(limits[kind])
  {
    var grouped: map<Kind, seq<Constraint>> := map[];
    for i := 0 to |cs|
      invariant forall kind :: kind in grouped <==> OfKind(cs[..i], kind) != []
      invariant forall kind :: kind in grouped ==> grouped[kind] == OfKind(cs[..i], kind)
    {
      assert cs[..i + 1][..i] == cs[..i];
      var kind := cs[i].kind;
      grouped := grouped[kind := (if kind in grouped then grouped[kind] else []) + [cs[i]]];
    }
    assert cs[..|cs|] == cs;
    limits := map[];
    var kinds := grouped.Keys;
    while kinds != {}
      invariant kinds <= grouped.Keys
      invariant limits.Keys == grouped.Keys - kinds
      invariant forall kind :: kind in limits ==> Limit(cs, kind) == Some(limits[kind])
    {
      var kind :| kind in kinds;
      kinds := kinds - {kind};
      var hard := HardOnly(grouped[kind]);
      var pool := if hard != [] then hard else grouped[kind];
      limits := limits[kind := Strictest(pool)];
    }
  }

  // ----- open risk

  datatype OpenRisk = OpenRisk(
    category: string, underlying: Option<int>, currencies: map<string, real>,
    remainingLoss: Option<real>, unrealizedPnl: real)

  /** `None` when some position has no bounded loss. */
  function ReservedRisk(positions: seq<OpenRisk>, includeProfit: bool): Option<real> {
    if positions == [] then Some(0.0)
    else
      var before, pos := ReservedRisk(positions[..|positions| - 1], includeProfit), positions[|positions| - 1];
      if before.None? || pos.remainingLoss.None? then None
      else
        var total := before.value + Max(0.0, pos.remainingLoss.value);
        Some(if includeProfit then Max(0.0, total - Max(pos.unrealizedPnl, 0.0)) else total)
  }

  lemma {:induction false} UnboundedStays(positions: seq<OpenRisk>, includeProfit: bool, k: nat)
    requires k <= |positions| && ReservedRisk(positions[..k], includeProfit).None?
    ensures ReservedRisk(positions, includeProfit).None?
    decreases |positions|
  {
    if k == |positions| {
      assert positions[..k] == positions;
    } else {
      assert positions[..|positions| - 1][..k] == positions[..k];
      UnboundedStays(positions[..|positions| - 1], includeProfit, k);
    }
  }

  /** `reserved_risk`: one position without a bounded loss makes the total undefined. */
  method ComputeReservedRisk(positions: seq<OpenRisk>, includeProfit: bool) returns (r: Option<real>)
    ensures r == ReservedRisk(positions, includeProfit)
    ensures r.None? <==> exists i :: 0 <= i < |positions| && positions[i].remainingLoss.None?
  {
    var total := 0.0;
    for i := 0 to |positions|
      invariant ReservedRisk(positions[..i], includeProfit) == Some(total)
      invariant forall k :: 0 <= k < i ==> positions[k].remainingLoss.Some?
    {
      assert positions[..i + 1][..i] == positions[..i];
      if positions[i].remainingLoss.None? {
        UnboundedStays(positions, includeProfit, i + 1);
        return None;
      }
      total := total + Max(0.0, positions[i].remainingLoss.value);
      if includeProfit {
        total := Max(0.0, total - Max(positions[i].unrealizedPnl, 0.0));
      }
    }
    assert positions[..|positions|] == positions;
    r := Some(total);
  }

  // ----- exposure

  datatype Ext = Fin(value: real) | Inf

  function Plus(a: Ext, b: Ext): Ext {
    if a.Fin? && b.Fin? then Fin(a.value + b.value) else Inf
  }

  predicate Above(a: Ext, bound: real) {
    a.Inf? || a.value > bound
  }

  datatype Group = Category(name: string) | Underlying(id: int) | Currency(code: string)

  /** A zero or missing remaining loss counts as infinite here. */
  function PositionRisk(pos: OpenRisk): Ext {
    if pos.remainingLoss.None? || pos.remainingLoss.value == 0.0 then Inf else Fin(pos.remainingLoss.value)
  }

  function WeightIn(category: string, underlying: Option<int>, currencies: map<string, real>, g: Group): Option<real> {
    match g
    case Category(name) => if name == category then Some(1.0) else None
    case Underlying(id) => if underlying == Some(id) then Some(1.0) else None
    case Currency(code) => if code in currencies then Some(Abs(currencies[code])) else None
  }

  function Weighted(weight: Option<real>, risk: Ext): Ext {
    if weight.None? then Fin(0.0) else if risk.Inf? then Inf else Fin(weight.value * risk.value)
  }

  /** Zero times infinity is an invalid decimal operation. */
  predicate Multiplies(pos: OpenRisk) {
    PositionRisk(pos).Inf? ==> forall code :: code in pos.currencies ==> pos.currencies[code] != 0.0
  }

  predicate ExposureDefined(positions: seq<OpenRisk>) {
    forall i :: 0 <= i < |positions| ==> Multiplies(positions[i])
  }

  /** What one group carries; a group nobody mentions carries zero. */
  function Exposure(positions: seq<OpenRisk>, g: Group): Ext {
    if positions == [] then Fin(0.0)
    else
      var pos := positions[|positions| - 1];
      Plus(Exposure(positions[..|positions| - 1], g),
           Weighted(WeightIn(pos.category, pos.underlying, pos.currencies, g), PositionRisk(pos)))
  }

  function Lookup(exposures: map<Group, Ext>, g: Group): Ext {
    if g in exposures then exposures[g] else Fin(0.0)
  }

  method AddTo(exposures: map<Group, Ext>, g: Group, amount: Ext) returns (next: map<Group, Ext>)
    ensures forall h :: Lookup(next, h) == if h == g then Plus(Lookup(exposures, g), amount) else Lookup(exposures, h)
  {
    next := exposures[g := Plus(Lookup(exposures, g), amount)];
  }

  /** The inner loop over one position's currencies. */
  method AddCurrencies(exposures: map<Group, Ext>, currencies: map<string, real>, risk: Ext)
    returns (result: map<Group, Ext>)
    ensures forall g :: (Lookup(result, g) ==
      if g.Currency? && g.code in currencies
      then Plus(Lookup(exposures, g), Weighted(Some(Abs(currencies[g.code])), risk)) else Lookup(exposures, g))
  {
    hide Weighted, Plus;
    result := exposures;
    var codes := currencies.Keys;
    while codes != {}
      invariant codes <= currencies.Keys
      invariant forall g :: (Lookup(result, g) ==
        if g.Currency? && g.code in currencies && g.code !in codes
        then Plus(Lookup(exposures, g), Weighted(Some(Abs(currencies[g.code])), risk)) else Lookup(exposures, g))
    {
      hide Lookup;
      var code :| code in codes;
      codes := codes - {code};
      result := AddTo(result, Currency(code), Weighted(Some(Abs(currencies[code])), risk));
    }
  }

  /** `aggregate_exposure`: increments the groups of every position. */
  method AggregateExposure(positions: seq<OpenRisk>) returns (r: Option<map<Group, Ext>>)
    ensures r.Some? <==> ExposureDefined(positions)
    ensures r.Some? ==> forall g :: Lookup(r.value, g) == Exposure(positions, g)
  {
    var result: map<Group, Ext> := map[];
    for i := 0 to |positions|
      invariant ExposureDefined(positions[..i])
      invariant forall g :: Lookup(result, g) == Exposure(positions[..i], g)
    {
      hide Weighted, Plus, Lookup;
      assert positions[..i + 1][..i] == positions[..i] && positions[..i + 1][i] == positions[i];
      var pos := positions[i];
      var risk := PositionRisk(pos);
      ghost var start := result;
      if exists code :: code in pos.currencies && risk.Inf? && pos.currencies[code] == 0.0 {
        return None;
      }
      result := AddTo(result, Category(pos.category), Weighted(Some(1.0), risk));
      if pos.underlying.Some? {
        result := AddTo(result, Underlying(pos.underlying.value), Weighted(Some(1.0), risk));
      }
      result := AddCurrencies(result, pos.currencies, risk);
      forall g ensures Lookup(result, g) == Exposure(positions[..i + 1], g) {
        AddedOnce(start, positions[..i + 1], result, g);
      }
    }
    assert positions[..|positions|] == positions;
    r := Some(result);
  }

  lemma AddedOnce(start: map<Group, Ext>, positions: seq<OpenRisk>, result: map<Group, Ext>, g: Group)
    requires positions != [] && Lookup(start, g) == Exposure(positions[..|positions| - 1], g)
    requires
      var pos := positions[|positions| - 1];
      var w := WeightIn(pos.category, pos.underlying, pos.currencies, g);
      Lookup(result, g) == if w.Some? then Plus(Lookup(start, g), Weighted(w, PositionRisk(pos))) else Lookup(start, g)
    ensures Lookup(result, g) == Exposure(positions, g)
  {
  }

  // ----- candidate and context

  datatype Instrument = Spot | Cfd | Futures

  datatype CandidateTrade = CandidateTrade(
    category: string, underlying: Option<int>, currencies: map<string, real>,
    requestedSize: real, entry: real, stop: real, riskPerUnit: real, increment: real, financing: real,
    instrument: Option<Instrument>, hasListing: bool, specification: Option<string>, hasUnit: bool,
    hasContract: bool, multiplier: real, tickSize: Option<real>, tickValue: Option<real>)

  type Candidate = c: CandidateTrade |
    && c.requestedSize > 0.0 && c.entry > 0.0 && c.stop > 0.0 && c.riskPerUnit > 0.0
    && c.increment > 0.0 && c.financing >= 0.0
    witness CandidateTrade("", None, map[], 1.0, 1.0, 1.0, 1.0, 1.0, 0.0, None, false, None, false, false, 1.0, None,
                           None)

  datatype Specification = Specification(valid: bool, sourceCut: Option<string>)

  datatype Cap = Cap(group: Group, value: real)

  // `caps` lists the correlation caps, one per group.
  datatype Context = Context(
    startingBalance: real, equity: real, floatingPnl: real, realizedDailyPnl: real,
    constraints: seq<Constraint>, positions: seq<OpenRisk>, caps: seq<Cap>, maxTrades: nat,
    includeProfit: bool, specifications: map<string, Specification>, currentCut: Option<string>,
    reservations: seq<real>)

  function Drawdown(ctx: Context): real {
    Max(0.0, ctx.startingBalance - ctx.equity)
  }

  function DailyLoss(ctx: Context): real {
    Max(0.0, -(ctx.realizedDailyPnl + Min(ctx.floatingPnl, 0.0)))
  }

  /** Worst-case loss of one native unit. */
  function TypedLoss(instrument: Instrument, entry: real, stop: real, multiplier: real,
                     tickSize: Option<real>, tickValue: Option<real>): Result<real, string> {
    if multiplier <= 0.0 then Failure("conversion and contract multiplier must be positive")
    else if entry == stop then Failure("entry and stop must differ")
    else if instrument == Futures then
      if tickSize.None? || tickValue.None? || tickSize.value <= 0.0 || tickValue.value <= 0.0
      then Failure("futures require positive tick size and tick value")
      else Success(Abs(entry - stop) / tickSize.value * tickValue.value)
    else Success(Abs(entry - stop) * multiplier)
  }

  lemma TypedLossIsPositive(instrument: Instrument, entry: real, stop: real, multiplier: real,
                            tickSize: Option<real>, tickValue: Option<real>)
    ensures
      var loss := TypedLoss(instrument, entry, stop, multiplier, tickSize, tickValue);
      loss.Success? ==> loss.value > 0.0
  {
    if TypedLoss(instrument, entry, stop, multiplier, tickSize, tickValue).Success? {
      var distance := Abs(entry - stop);
      if instrument == Futures {
        DivPositive(distance, tickSize.value);
        MulLt(0.0, distance / tickSize.value, tickValue.value);
      } else {
        MulLt(0.0, distance, multiplier);
      }
    }
  }

  /** Why a typed candidate has no authority, if it has none. */
  function AuthorityError(ctx: Context, cand: Candidate): Option<string> {
    if cand.instrument.None? then None
    else if !cand.hasListing then Some("missing_venue_instrument_id")
    else if cand.specification.None? then Some("missing_specification_version_id")
    else if !cand.hasUnit then Some("missing_quantity_unit")
    else if cand.instrument == Some(Futures) && !cand.hasContract then Some("missing_dated_futures_contract_id")
    else if cand.instrument == Some(Futures) && (cand.tickSize.None? || cand.tickValue.None?)
    then Some("missing_futures_tick_terms")
    else if cand.specification.value !in ctx.specifications then Some("missing_effective_specification")
    else
      var spec := ctx.specifications[cand.specification.value];
      if !spec.valid then Some("stale_instrument_specification")
      else if ctx.currentCut.Some? && spec.sourceCut.Some? && spec.sourceCut != ctx.currentCut
      then Some("specification_source_cut_mismatch")
      else None
  }

  /** The engine replaces the risk per unit of a typed candidate by its typed loss. */
  function UnitRisk(cand: Candidate): Result<real, string> {
    if cand.instrument.None? then Success(cand.riskPerUnit)
    else TypedLoss(cand.instrument.value, cand.entry, cand.stop, cand.multiplier, cand.tickSize, cand.tickValue)
  }

  predicate HasAuthority(ctx: Context) {
    && Limit(ctx.constraints, MaxTotalDrawdown).Some?
    && Limit(ctx.constraints, MaxDailyLoss).Some?
    && Limit(ctx.constraints, MaxPortfolioRisk).Some?
  }

  /** Open positions plus every active reservation. */
  function ExistingRisk(ctx: Context): Option<real> {
    var open := ReservedRisk(ctx.positions, ctx.includeProfit);
    if open.None? then None else Some(open.value + Sum(ctx.reservations))
  }

  function CorrelationCapacity(positions: seq<OpenRisk>, cap: Cap): real {
    var carried := Exposure(positions, cap.group);
    if carried.Inf? then 0.0 else Max(0.0, cap.value - carried.value)
  }

  function CorrelationCapacities(positions: seq<OpenRisk>, caps: seq<Cap>): seq<real> {
    seq(|caps|, i requires 0 <= i < |caps| => CorrelationCapacity(positions, caps[i]))
  }

  function Remaining(ctx: Context, kind: Kind, used: real): real
    requires Limit(ctx.constraints, kind).Some?
  {
    Max(0.0, Limit(ctx.constraints, kind).value.value - used)
  }

  /** Every capacity the candidate has to fit. */
  function Capacities(ctx: Context): (caps: seq<real>)
    requires HasAuthority(ctx) && ExistingRisk(ctx).Some?
    ensures |caps| >= 3
  {
    var trade := Limit(ctx.constraints, MaxRiskPerTrade);
    [Remaining(ctx, MaxTotalDrawdown, Drawdown(ctx)), Remaining(ctx, MaxDailyLoss, DailyLoss(ctx)),
     Remaining(ctx, MaxPortfolioRisk, ExistingRisk(ctx).value)]
    + (if trade.Some? then [trade.value.value] else [])
    + CorrelationCapacities(ctx.positions, ctx.caps)
  }

  function MinOf(xs: seq<real>): real
    requires xs != []
  {
    if |xs| == 1 then xs[0] else Min(MinOf(xs[..|xs| - 1]), xs[|xs| - 1])
  }

  function Net(caps: seq<real>, cost: real): seq<real> {
    seq(|caps|, i requires 0 <= i < |caps| => Max(0.0, caps[i] - cost))
  }

  function RoundDown(value: real, increment: real): real
    requires increment > 0.0
  {
    if value >= 0.0 then FloorTo(value, increment) else -FloorTo(-value, increment)
  }

  function SizeForRisk(budget: real, perUnit: real, increment: real): real
    requires increment > 0.0
  {
    if budget <= 0.0 || perUnit <= 0.0 then 0.0 else RoundDown(budget / perUnit, increment)
  }

  function CompliantSize(requested: real, perUnit: real, capacities: seq<real>, increment: real): real
    requires increment > 0.0
  {
    if capacities == [] then requested
    else Min(requested, SizeForRisk(Max(0.0, MinOf(capacities)), perUnit, increment))
  }

  datatype Decision = Pass | ReduceSize | HardBlock

  // `candidateRisk` and `remainingPortfolio` are snapshot figures; on a slot block the former
  // keeps the risk of the size that was zeroed.
  datatype Verdict = Verdict(decision: Decision, approvedSize: real, candidateRisk: real,
                             remainingPortfolio: real, violations: seq<Group>)

  datatype Outcome = Raised(reason: string) | Decided(verdict: Verdict)

  const BLOCKED := Verdict(HardBlock, 0.0, 0.0, 0.0, [])

  function CandidateWeight(cand: Candidate, g: Group): Option<real> {
    WeightIn(cand.category, cand.underlying, cand.currencies, g)
  }

  function Violations(ctx: Context, cand: Candidate, requestedRisk: real, caps: seq<Cap>): seq<Group> {
    if caps == [] then []
    else
      var cap, before := caps[|caps| - 1], Violations(ctx, cand, requestedRisk, caps[..|caps| - 1]);
      var carried := Plus(Exposure(ctx.positions, cap.group),
                          Weighted(CandidateWeight(cand, cap.group), Fin(requestedRisk)));
      if Above(carried, cap.value) then before + [cap.group] else before
  }

  function RequestedRisk(cand: Candidate, perUnit: real): real {
    Times(cand.requestedSize, perUnit) + cand.financing
  }

  /** What a size may lose, financing included. */
  function RiskOf(cand: Candidate, size: real, perUnit: real): real {
    Times(size, perUnit) + if size > 0.0 then cand.financing else 0.0
  }

  /** The size that fits the net capacities, before the slot check. */
  function FittingSize(ctx: Context, cand: Candidate, perUnit: real): real
    requires HasAuthority(ctx) && ExistingRisk(ctx).Some?
  {
    CompliantSize(cand.requestedSize, perUnit, Net(Capacities(ctx), cand.financing), cand.increment)
  }

  function Evaluated(ctx: Context, cand: Candidate): Outcome {
    if !ExposureDefined(ctx.positions) then Raised("invalid decimal operation")
    else if AuthorityError(ctx, cand).Some? then Decided(BLOCKED)
    else if UnitRisk(cand).Failure? then Raised(UnitRisk(cand).error)
    else if !HasAuthority(ctx) || ExistingRisk(ctx).None? then Decided(BLOCKED)
    else
      var perUnit := UnitRisk(cand).value;
      var size := FittingSize(ctx, cand, perUnit);
      var risk := RiskOf(cand, size, perUnit);
      var blocked := size <= 0.0 || ctx.maxTrades <= |ctx.positions|;
      if !blocked && cand.multiplier <= 0.0 then Raised("price, quantity, and multiplier must be positive")
      else Decided(Verdict(
        if blocked then HardBlock else if size < cand.requestedSize then ReduceSize else Pass,
        if blocked then 0.0 else size, risk,
        Remaining(ctx, MaxPortfolioRisk, ExistingRisk(ctx).value),
        Violations(ctx, cand, RequestedRisk(cand, perUnit), ctx.caps)))
  }

  /** The loop over the correlation caps. */
  method ScanCaps(ctx: Context, cand: Candidate, exposures: map<Group, Ext>, requestedRisk: real)
    returns (remaining: seq<real>, violations: seq<Group>)
    requires forall g :: Lookup(exposures, g) == Exposure(ctx.positions, g)
    ensures remaining == CorrelationCapacities(ctx.positions, ctx.caps)
    ensures violations == Violations(ctx, cand, requestedRisk, ctx.caps)
  {
    hide Exposure, Lookup;
    remaining, violations := [], [];
    for i := 0 to |ctx.caps|
      invariant remaining == CorrelationCapacities(ctx.positions, ctx.caps[..i])
      invariant violations == Violations(ctx, cand, requestedRisk, ctx.caps[..i])
    {
      var cap := ctx.caps[i];
      assert ctx.caps[..i + 1][..i] == ctx.caps[..i];
      var carried := Lookup(exposures, cap.group);
      remaining := remaining + [if carried.Inf? then 0.0 else Max(0.0, cap.value - carried.value)];
      if Above(Plus(carried, Weighted(CandidateWeight(cand, cap.group), Fin(requestedRisk))), cap.value) {
        violations := violations + [cap.group];
      }
    }
    assert ctx.caps[..|ctx.caps|] == ctx.caps;
  }

  /** `RiskEngine.evaluate`, in the order of its steps. */
  method Evaluate(ctx: Context, cand: Candidate) returns (r: Outcome)
    ensures r == Evaluated(ctx, cand)
  {
    hide Exposure, Net, MinOf, ReservedRisk, TypedLoss, CompliantSize, Limit, AuthorityError,
         RequestedRisk, RiskOf, Times, Violations, CorrelationCapacities, Lookup, ExposureDefined, Drawdown, DailyLoss;
    var exposures := AggregateExposure(ctx.positions);
    if exposures.None? {
      return Raised("invalid decimal operation");
    }
    if AuthorityError(ctx, cand).Some? {
      return Decided(BLOCKED);
    }
    var unit := UnitRisk(cand);
    if unit.Failure? {
      return Raised(unit.error);
    }
    var limits := StrictestApplicable(ctx.constraints);
    if MaxTotalDrawdown !in limits || MaxDailyLoss !in limits || MaxPortfolioRisk !in limits {
      return Decided(BLOCKED);
    }
    var open := ComputeReservedRisk(ctx.positions, ctx.includeProfit);
    if open.None? {
      return Decided(BLOCKED);
    }
    var existing := open.value + Sum(ctx.reservations);
    var remainingPortfolio := Max(0.0, limits[MaxPortfolioRisk].value - existing);
    var requestedRisk := RequestedRisk(cand, unit.value);
    var capacities := [Max(0.0, limits[MaxTotalDrawdown].value - Drawdown(ctx)),
                       Max(0.0, limits[MaxDailyLoss].value - DailyLoss(ctx)), remainingPortfolio];
    if MaxRiskPerTrade in limits {
      capacities := capacities + [limits[MaxRiskPerTrade].value];
    }
    var correlation, violations := ScanCaps(ctx, cand, exposures.value, requestedRisk);
    capacities := capacities + correlation;
    assert capacities == Capacities(ctx);
    var size := CompliantSize(cand.requestedSize, unit.value, Net(capacities, cand.financing), cand.increment);
    var approvedRisk := RiskOf(cand, size, unit.value);
    var decision := Pass;
    if size <= 0.0 || ctx.maxTrades <= |ctx.positions| {
      decision := HardBlock;
      size := 0.0;
    } else if size < cand.requestedSize {
      decision := ReduceSize;
    }
    if size > 0.0 && cand.multiplier <= 0.0 {
      return Raised("price, quantity, and multiplier must be positive");
    }
    r := Decided(Verdict(decision, size, approvedRisk, remainingPortfolio, violations));
  }
}
