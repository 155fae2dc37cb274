/** What one bar does to a position, told in prices: which fill comes first, where the stop goes, what an entry
    and a closed trade record, and that every decision about a bar precedes it. */
module ProtectionMeaning {
  import opened Numbers
  import opened Signals
  import opened Protection
  import opened ProtectionProofs
  import opened ProtectionRuns

  // ----- the order of fills

  predicate IsLong(p: Plan) {
    p.rules.direction == Long
  }

  /** The price is at or beyond the stop, on the losing side. */
  predicate AtStop(p: Plan, price: real, stop: real) {
    if IsLong(p) then price <= stop else price >= stop
  }

  predicate Gaps(p: Plan, pos: Position, bar: Bar) {
    AtStop(p, bar.candle.open, pos.stop)
  }

  /** Signals count from the bar after the entry on. */
  predicate Signalled(pos: Position, bar: Bar) {
    bar.exitSignal && bar.candle.at != pos.enteredAt
  }

  predicate Touches(p: Plan, pos: Position, bar: Bar) {
    AtStop(p, if IsLong(p) then bar.candle.low else bar.candle.high, pos.stop)
  }

  /** The bar neither opens beyond the stop nor meets a signal nor touches the stop. */
  predicate Survives(p: Plan, pos: Position, bar: Bar) {
    !Gaps(p, pos, bar) && !Signalled(pos, bar) && !Touches(p, pos, bar)
  }

  predicate Hits(p: Plan, bar: Bar, target: real) {
    if IsLong(p) then bar.candle.high >= target else bar.candle.low <= target
  }

  /** An exit at a price, less the slippage it pays. */
  function ExitOf(p: Plan, c: Config, bar: Bar, price: real, size: real, reason: Reason): Exit {
    Exit(if IsLong(p) then price - c.slippage else price + c.slippage, size, reason, bar.candle.at)
  }

  lemma OneFill(d: Direction, c: Config, pos: Position, fill: Fill, at: int)
    ensures BookAll(d, c, pos, [fill], at) == Book1(d, c, pos, fill, at)
  {
    hide Book1;
    assert [fill][..0] == [];
  }

  /** The adverse level comes first, whatever targets the bar reaches: an open at or beyond the stop ends the
      position there; otherwise an exit signal ends it at the open; otherwise a bar that touches the stop ends
      it at the stop. */
  lemma AdverseComesFirst(p: Plan, c: Config, pos: Position, bar: Bar)
    ensures
      var next := Manage(p, c, pos, bar);
      && (Gaps(p, pos, bar) ==>
            next.exits == pos.exits + [ExitOf(p, c, bar, bar.candle.open, pos.remaining, StopGap)])
      && (!Gaps(p, pos, bar) && Signalled(pos, bar) ==>
            next.exits == pos.exits + [ExitOf(p, c, bar, bar.candle.open, pos.remaining, ExitSignal)])
      && (!Gaps(p, pos, bar) && !Signalled(pos, bar) && Touches(p, pos, bar) ==>
            next.exits == pos.exits + [ExitOf(p, c, bar, pos.stop, pos.remaining, StopLoss)])
      && (Gaps(p, pos, bar) || Signalled(pos, bar) || Touches(p, pos, bar) ==>
            next.remaining == 0.0 && next.hit == pos.hit && next.stop == pos.stop)
      && ((exists k :: |pos.exits| <= k < |next.exits| && next.exits[k].reason.TakeProfit?) ==> Survives(p, pos, bar))
  {
    hide TakeTargets, BookAll, MovedStop;
    var d := Direct(p);
    var seen := Excursions(d, pos, bar.candle);
    var taken := BarFills(d, seen, bar);
    if Gaps(p, pos, bar) || Signalled(pos, bar) || Touches(p, pos, bar) {
      assert |taken.fills| == 1 && taken.fills == [taken.fills[0]];
      OneFill(d, c, seen.(hit := taken.hit), taken.fills[0], bar.candle.at);
    }
  }

  // ----- targets

  lemma {:induction false} TakesWhileReached(d: Direction, targets: seq<real>, c: Candle, hit: nat, available: real)
    requires hit <= |targets|
    ensures
      var taken := TakeTargets(d, targets, c, hit, available);
      && hit <= taken.hit <= |targets| && |taken.fills| == taken.hit - hit
      && (forall k :: hit <= k < taken.hit ==> Reaches(d, c, targets[k]))
      && (taken.hit < |targets| ==> !Reaches(d, c, targets[taken.hit]))
    decreases |targets| - hit
  {
    hide Reaches, TargetSize;
    if hit < |targets| && Reaches(d, c, targets[hit]) {
      TakesWhileReached(d, targets, c, hit + 1, available - TargetSize(targets, hit, available));
    }
  }

  /** The exit a target takes: one share at its price. */
  function TargetExit(p: Plan, c: Config, bar: Bar, targets: seq<real>, k: nat): Exit
    requires k < |targets|
  {
    ExitOf(p, c, bar, targets[k], Share(|targets|), TakeProfit(k + 1))
  }

  /** On a bar that survives, the consecutive reached targets are taken in order, each for an equal share, and the
      first one not reached ends it; only a final bar closes what is left, at its close. */
  lemma TargetsAreTakenInOrder(p: Plan, c: Config, pos: Position, bar: Bar)
    requires HoldsShare(pos) && Survives(p, pos, bar)
    ensures
      var next, n := Manage(p, c, pos, bar), |pos.targets|;
      && pos.hit <= next.hit <= n
      && (forall k :: pos.hit <= k < next.hit ==> Hits(p, bar, pos.targets[k]))
      && (next.hit < n ==> !Hits(p, bar, pos.targets[next.hit]))
      && |next.exits| == |pos.exits| + next.hit - pos.hit + (if bar.final && next.hit < n then 1 else 0)
      && next.exits[..|pos.exits|] == pos.exits
      && (forall k :: pos.hit <= k < next.hit ==>
            next.exits[|pos.exits| + k - pos.hit] == TargetExit(p, c, bar, pos.targets, k))
      && (bar.final && next.hit < n ==>
            next.exits[|next.exits| - 1]
              == ExitOf(p, c, bar, bar.candle.close, Part(n - next.hit, n), EndOfHistory))
  {
    hide BookAll, MovedStop, BarFills, Share, Part, TakeTargets;
    var d := Direct(p);
    var seen := Excursions(d, pos, bar.candle);
    var fills := BarFills(d, seen, bar);
    SurvivingFills(p, pos, bar);
    BookAllAppends(d, c, seen.(hit := fills.hit), fills.fills, bar.candle.at);
    var next := Manage(p, c, pos, bar);
    forall k | pos.hit <= k < next.hit
      ensures next.exits[|pos.exits| + k - pos.hit] == TargetExit(p, c, bar, pos.targets, k)
    {
      assert fills.fills[k - pos.hit] == Fill(pos.targets[k], Share(|pos.targets|), TakeProfit(k + 1));
      assert next.exits[|pos.exits| + (k - pos.hit)].reason == TakeProfit(k + 1);
    }
    if bar.final && next.hit < |pos.targets| {
      var last := |fills.fills| - 1;
      assert next.exits[|pos.exits| + last].reason == EndOfHistory;
    }
  }

  /** The fills of a bar that survives. */
  lemma SurvivingFills(p: Plan, pos: Position, bar: Bar)
    requires HoldsShare(pos) && Survives(p, pos, bar)
    ensures
      var n, all := |pos.targets|, BarFills(Direct(p), Excursions(Direct(p), pos, bar.candle), bar);
      && pos.hit <= all.hit <= n
      && (forall k :: pos.hit <= k < all.hit ==> Hits(p, bar, pos.targets[k]))
      && (all.hit < n ==> !Hits(p, bar, pos.targets[all.hit]))
      && |all.fills| == all.hit - pos.hit + (if bar.final && all.hit < n then 1 else 0)
      && (forall j :: 0 <= j < all.hit - pos.hit ==>
            all.fills[j] == Fill(pos.targets[pos.hit + j], Share(n), TakeProfit(pos.hit + j + 1)))
      && (bar.final && all.hit < n ==>
            all.fills[|all.fills| - 1] == Fill(bar.candle.close, Part(n - all.hit, n), EndOfHistory))
  {
    hide TakeTargets, Part, Share;
    var d, n := Direct(p), |pos.targets|;
    TakesWhileReached(d, pos.targets, bar.candle, pos.hit, pos.remaining);
    TargetsTakeEqualShares(d, pos.targets, bar.candle, pos.hit, pos.remaining);
    var taken := TakeTargets(d, pos.targets, bar.candle, pos.hit, pos.remaining);
    if taken.hit < n {
      PartStep(n - taken.hit, n);
    } else {
      PartStep(n, n);
    }
    forall j | 0 <= j < taken.hit - pos.hit
      ensures taken.fills[j] == Fill(pos.targets[pos.hit + j], Share(n), TakeProfit(pos.hit + j + 1))
    {
      assert TakenAt(d, pos.targets, bar.candle, taken.fills[j], pos.hit + j);
    }
  }

  lemma {:induction false} BookAllAppends(d: Direction, c: Config, pos: Position, fills: seq<Fill>, at: int)
    ensures
      var next := BookAll(d, c, pos, fills, at);
      && next.hit == pos.hit && next.stop == pos.stop
      && |next.exits| == |pos.exits| + |fills| && next.exits[..|pos.exits|] == pos.exits
      && forall k :: 0 <= k < |fills| ==>
           next.exits[|pos.exits| + k]
             == Exit(Shift(d, fills[k].price, -c.slippage), fills[k].size, fills[k].reason, at)
    decreases |fills|
  {
    if fills != [] {
      var init := fills[..|fills| - 1];
      BookAllAppends(d, c, pos, init, at);
      var before := BookAll(d, c, pos, init, at);
      assert BookAll(d, c, pos, fills, at) == Book1(d, c, before, fills[|fills| - 1], at);
    }
  }

  // ----- the stop and the excursions

  /** The first of two stops is at least as tight. */
  predicate AsTight(p: Plan, stop: real, other: real) {
    if IsLong(p) then stop >= other else stop <= other
  }

  /** The level a trailing stop follows: the close less the initial risk, against the trade. */
  function TrailingLevel(p: Plan, pos: Position, bar: Bar): real {
    if IsLong(p) then bar.candle.close - pos.risk else bar.candle.close + pos.risk
  }

  /** A position that stays open moves its stop to the tightest of the old stop, the entry once a target is hit
      under break-even, and the trailing level under a trailing stop. */
  lemma StopIsTheTightest(p: Plan, c: Config, pos: Position, bar: Bar)
    requires Manage(p, c, pos, bar).remaining > 0.0
    ensures
      var next := Manage(p, c, pos, bar);
      var evens := p.breakEven && next.hit > 0;
      && AsTight(p, next.stop, pos.stop)
      && (evens ==> AsTight(p, next.stop, pos.entry))
      && (p.trailing ==> AsTight(p, next.stop, TrailingLevel(p, pos, bar)))
      && (next.stop == pos.stop || (evens && next.stop == pos.entry)
          || (p.trailing && next.stop == TrailingLevel(p, pos, bar)))
  {
    hide BarFills, BookAll;
    var seen := Excursions(Direct(p), pos, bar.candle);
    var taken := BarFills(Direct(p), seen, bar);
    BookAllKeeps(Direct(p), c, seen.(hit := taken.hit), taken.fills, bar.candle.at);
  }

  ghost predicate KeepsAllBut(before: Position, after: Position) {
    after == before.(pnl := after.pnl, remaining := after.remaining, exits := after.exits)
  }

  lemma {:induction false} BookAllKeeps(d: Direction, c: Config, pos: Position, fills: seq<Fill>, at: int)
    ensures KeepsAllBut(pos, BookAll(d, c, pos, fills, at))
    decreases |fills|
  {
    if fills != [] {
      BookAllKeeps(d, c, pos, fills[..|fills| - 1], at);
    }
  }

  /** A bar changes no term of the position, and its excursions are the furthest prices against and for it. */
  lemma BarRecordsItsExtremes(p: Plan, c: Config, pos: Position, bar: Bar)
    ensures
      var next := Manage(p, c, pos, bar);
      && next.entry == pos.entry && next.originalStop == pos.originalStop && next.risk == pos.risk
      && next.targets == pos.targets && next.enteredAt == pos.enteredAt && next.regime == pos.regime
      && var loss := if IsLong(p) then pos.entry - bar.candle.low else bar.candle.high - pos.entry;
         var gain := if IsLong(p) then bar.candle.high - pos.entry else pos.entry - bar.candle.low;
         && next.adverse == (if loss > pos.adverse then loss else pos.adverse)
         && next.favorable == (if gain > pos.favorable then gain else pos.favorable)
  {
    hide BarFills, BookAll, MovedStop;
    var seen := Excursions(Direct(p), pos, bar.candle);
    var taken := BarFills(Direct(p), seen, bar);
    BookAllKeeps(Direct(p), c, seen.(hit := taken.hit), taken.fills, bar.candle.at);
  }

  // ----- entries and closed trades

  /** An entry pays slippage on the bar's open and holds the whole position under its rounded levels: it happens
      exactly on an admitted bar whose levels are accepted. */
  lemma EntryPaysSlippage(p: Plan, c: Config, bar: Bar)
    ensures
      var entry := if IsLong(p) then bar.candle.open + c.slippage else bar.candle.open - c.slippage;
      var levels, begun := ProtectionLevels(p.rules, entry, bar.volatility, c.tick), Opened(p, c, bar);
      && (begun.Some? <==> bar.admitted && levels.Some?)
      && (begun.Some? ==>
            && begun.value.entry == entry && begun.value.risk > 0.0
            && begun.value.stop == begun.value.originalStop == levels.value.stop
            && begun.value.stop == (if IsLong(p) then entry - begun.value.risk else entry + begun.value.risk)
            && begun.value.targets == levels.value.targets && begun.value.hit == 0
            && begun.value.remaining == 1.0 && begun.value.exits == []
            && begun.value.enteredAt == bar.candle.at && begun.value.regime == bar.regime)
  {
    hide ProtectionLevels;
    if Opened(p, c, bar).Some? {
      OpenedIsOk(p, c, bar);
    }
  }

  /** A bar leaves a flat book alone unless it opens a position; a position, new or held, is managed on that bar
      and stays open, or becomes the next trade, which records the bar of its last exit, the fixed costs and the
      furthest excursions. */
  lemma StepRecords(p: Plan, c: Config, book: Book, bar: Bar)
    requires BookOk(p, c, book)
    ensures
      var held := if book.open.Some? then book.open else Opened(p, c, bar);
      var after := Step(p, c, book, bar);
      && (held.None? ==> after == book)
      && (held.Some? ==>
            var pos := Manage(p, c, held.value, bar);
            if pos.remaining > 0.0 then after == Book(book.trades, book.costs, Some(pos))
            else
              && after.open.None? && |after.trades| == |book.trades| + 1 && after.trades[..|book.trades|] == book.trades
              && after.costs == book.costs + c.spread + c.commission + c.slippage + c.slippage
              && var t := after.trades[|book.trades|];
                 && t.entry == pos.entry && t.originalStop == pos.originalStop && t.targets == pos.targets
                 && t.exits == pos.exits && t.risk == pos.risk && t.enteredAt == pos.enteredAt
                 && pos.exits != [] && t.exitedAt == bar.candle.at
                 && t.pnl == pos.pnl - c.spread - c.commission && t.regime == pos.regime
                 && t.mae == (if pos.adverse > 0.0 then pos.adverse else 0.0)
                 && t.mfe == (if pos.favorable > 0.0 then pos.favorable else 0.0))
  {
    hide Manage, Opened, PositionOk, HoldsShare, TradeOk;
    var held := if book.open.Some? then book.open else Opened(p, c, bar);
    if held.Some? {
      if book.open.None? {
        OpenedIsOk(p, c, bar);
      }
      LastExitIsNow(p, c, held.value, bar);
    }
  }

  lemma LastExitIsNow(p: Plan, c: Config, pos: Position, bar: Bar)
    requires PositionOk(p, pos) && HoldsShare(pos)
    ensures
      var next := Manage(p, c, pos, bar);
      next.remaining <= 0.0 ==> next.exits != [] && next.exits[|next.exits| - 1].at == bar.candle.at
  {
    hide BarFills, BookAll, MovedStop, Part;
    ManageKeepsOk(p, c, pos, bar);
    var seen := Excursions(Direct(p), pos, bar.candle);
    var taken := BarFills(Direct(p), seen, bar);
    BarFillsAreShares(Direct(p), seen, bar);
    BookAllConserves(Direct(p), c, seen.(hit := taken.hit), taken.fills, bar.candle.at);
    BookAllAppends(Direct(p), c, seen.(hit := taken.hit), taken.fills, bar.candle.at);
    if Manage(p, c, pos, bar).remaining <= 0.0 {
      SomethingLeaves(pos);
    }
  }

  lemma SomethingLeaves(pos: Position)
    requires HoldsShare(pos)
    ensures pos.remaining > 0.0
  {
    hide Part, Share;
    PartStep(|pos.targets| - pos.hit, |pos.targets|);
  }

  // ----- decisions precede their bar

  /** Whatever the candle of a bar turns out to be, its entry, its exit signal, its volatility and its regime are
      those of the candles before it and of its instant. */
  lemma DecisionsPrecedeTheBar(s: Strategy, setting: Setting, xs: seq<Candle>, ys: seq<Candle>, i: nat)
    requires 1 <= i < |xs| && i < |ys| && xs[..i] == ys[..i] && xs[i].at == ys[i].at
    ensures
      var a, b := BarAt(s, setting, xs, i), BarAt(s, setting, ys, i);
      && a.admitted == b.admitted && a.exitSignal == b.exitSignal && a.volatility == b.volatility
      && a.regime == b.regime && a.candle == xs[i] && b.candle == ys[i]
  {
    hide StrategyFeatures, EntryMatches, Matches, RegimeFromFeatures;
    FeaturesAreCausal(s, xs, ys, i - 1);
  }

  /** The last completed candle's features decide, with the news state of the bar's instant: an entry needs an
      allowed instant and a matching setup, a signal is a full match of the exit or the invalidation rules, and
      only the last bar of a closing history is final. */
  lemma BarDecidesOnThePast(s: Strategy, setting: Setting, candles: seq<Candle>, i: nat)
    requires 1 <= i < |candles|
    ensures
      var bar, at := BarAt(s, setting, candles, i), candles[i].at;
      var f := StrategyFeatures(s, candles, i - 1)["news_regime" := NewsCode(setting.news, at)];
      && (bar.admitted <==>
            && EntryMatches(s, f)
            && (if setting.allowed.Some? then at in setting.allowed.value else !setting.blockedAt(at)))
      && "volatility" in StrategyFeatures(s, candles, i - 1)
      && bar.volatility == StrategyFeatures(s, candles, i - 1)["volatility"]
      && (bar.exitSignal <==>
            || (s.exit != [] && forall k :: 0 <= k < |s.exit| ==> Holds(s.exit[k], f))
            || (s.invalidation != [] && forall k :: 0 <= k < |s.invalidation| ==> Holds(s.invalidation[k], f)))
      && bar.regime == RegimeFromFeatures(f)
      && (bar.final <==> setting.closeAtEnd && i + 1 == |candles|)
  {
    hide StrategyFeatures, EntryMatches, Holds, RegimeFromFeatures;
  }
}
