/** Loss and profit bounds of every closed trade, under any mix of partial targets,
    break-even and trailing moves. */
module ProtectionBounds {
  import opened Numbers
  import opened Signals
  import opened Protection
  import opened ProtectionProofs

  ghost predicate Consistent(c: Candle) {
    c.low <= c.open <= c.high && c.low <= c.close <= c.high
  }

  ghost predicate AllConsistent(candles: seq<Candle>) {
    forall i :: 0 <= i < |candles| ==> Consistent(candles[i])
  }

  /** Raw result per unit of leaving at `price`. */
  function Move(d: Direction, entry: real, price: real): real {
    Signed(d, price - entry)
  }

  /** A raw exit lies inside the excursions seen; unless it gapped, it loses at most the risk. */
  ghost predicate RawBounded(d: Direction, pos: Position, price: real, reason: Reason) {
    && -pos.adverse <= Move(d, pos.entry, price) <= pos.favorable
    && (reason != StopGap ==> -pos.risk <= Move(d, pos.entry, price))
  }

  ghost predicate ExitsBounded(d: Direction, c: Config, pos: Position) {
    && pos.adverse >= 0.0 && pos.favorable >= 0.0
    && forall k :: 0 <= k < |pos.exits| ==>
         RawBounded(d, pos, Shift(d, pos.exits[k].price, c.slippage), pos.exits[k].reason)
  }

  lemma BarFillsBounded(p: Plan, pos: Position, bar: Bar)
    requires PositionOk(p, pos) && HoldsShare(pos) && Consistent(bar.candle)
    requires pos.adverse >= 0.0 && pos.favorable >= 0.0
    ensures
      var d := Direct(p);
      var seen := Excursions(d, pos, bar.candle);
      var fills := BarFills(d, seen, bar).fills;
      && seen.adverse >= pos.adverse && seen.favorable >= pos.favorable
      && forall k :: 0 <= k < |fills| ==> RawBounded(d, seen, fills[k].price, fills[k].reason)
  {
    hide TakeTargets, Part, Share, Conserved, AllPositive;
    var d := Direct(p);
    var seen := Excursions(d, pos, bar.candle);
    TargetsTakeEqualShares(d, pos.targets, bar.candle, pos.hit, pos.remaining);
    var taken := TakeTargets(d, pos.targets, bar.candle, pos.hit, pos.remaining);
    forall k | 0 <= k < |taken.fills| ensures RawBounded(d, seen, taken.fills[k].price, taken.fills[k].reason) {
      assert TakenAt(d, pos.targets, bar.candle, taken.fills[k], pos.hit + k);
    }
  }

  lemma ManageKeepsBounds(p: Plan, c: Config, pos: Position, bar: Bar)
    requires PositionOk(p, pos) && HoldsShare(pos) && Consistent(bar.candle)
    requires ExitsBounded(Direct(p), c, pos)
    ensures ExitsBounded(Direct(p), c, Manage(p, c, pos, bar))
  {
    hide BarFills, BookAll, MovedStop, HoldsShare;
    var d := Direct(p);
    var seen := Excursions(d, pos, bar.candle);
    var taken := BarFills(d, seen, bar);
    BarFillsBounded(p, pos, bar);
    var start := seen.(hit := taken.hit);
    BookAllConserves(d, c, start, taken.fills, bar.candle.at);
    var next := BookAll(d, c, start, taken.fills, bar.candle.at);
    forall k | 0 <= k < |next.exits|
      ensures RawBounded(d, next, Shift(d, next.exits[k].price, c.slippage), next.exits[k].reason)
    {
      if k < |pos.exits| {
        assert next.exits[k] == next.exits[..|pos.exits|][k] == pos.exits[k];
      } else {
        var j := k - |pos.exits|;
        assert next.exits[|pos.exits| + j].price == Shift(d, taken.fills[j].price, -c.slippage);
        assert next.exits[|pos.exits| + j].reason == taken.fills[j].reason;
      }
    }
  }

  ghost predicate MovesWithin(d: Direction, entry: real, exits: seq<Exit>, low: real, high: real) {
    forall k :: 0 <= k < |exits| ==> low <= Move(d, entry, exits[k].price) <= high
  }

  /** A weighted mean of moves stays between their bounds. */
  lemma {:induction false} GrossBetween(d: Direction, entry: real, exits: seq<Exit>, low: real, high: real)
    requires MovesWithin(d, entry, exits, low, high) && AllPositive(exits)
    ensures Scale(low, FractionSum(exits)) <= Gross(d, entry, exits) <= Scale(high, FractionSum(exits))
  {
    if exits != [] {
      hide Scale;
      var init, last := exits[..|exits| - 1], exits[|exits| - 1];
      assert AllPositive(init) && MovesWithin(d, entry, init, low, high) by {
        assert forall k :: 0 <= k < |init| ==> init[k] == exits[k];
      }
      GrossBetween(d, entry, init, low, high);
      WeightedStep(low, Move(d, entry, last.price), high, last.fraction, FractionSum(init), Gross(d, entry, init));
    }
  }

  lemma WeightedStep(low: real, x: real, high: real, weight: real, weights: real, gross: real)
    requires low <= x <= high && weight >= 0.0
    requires Scale(low, weights) <= gross <= Scale(high, weights)
    ensures Scale(low, weights + weight) <= gross + Scale(x, weight) <= Scale(high, weights + weight)
  {
    MulLe(low, x, weight);
    MulLe(x, high, weight);
  }

  ghost predicate NoGap(exits: seq<Exit>) {
    forall k :: 0 <= k < |exits| ==> exits[k].reason != StopGap
  }

  /** The loss bound of a trade that was not stopped by a gap, and the excursion bounds of any trade. */
  ghost predicate TradeBounded(c: Config, t: Trade) {
    var exitCost := c.slippage + c.spread + c.commission;
    && -t.mae - exitCost <= t.pnl <= t.mfe - exitCost
    && (NoGap(t.exits) ==> -(t.risk + exitCost) <= t.pnl)
  }

  lemma ClosedIsBounded(p: Plan, c: Config, pos: Position)
    requires TradeOk(p, c, Closed(c, pos)) && ExitsBounded(Direct(p), c, pos)
    ensures TradeBounded(c, Closed(c, pos))
  {
    hide Gross, FractionSum;
    var d, t := Direct(p), Closed(c, pos);
    var slip := c.slippage;
    forall k | 0 <= k < |t.exits|
      ensures Move(d, t.entry, t.exits[k].price) == Move(d, t.entry, Shift(d, t.exits[k].price, slip)) - slip
      ensures RawBounded(d, pos, Shift(d, t.exits[k].price, slip), t.exits[k].reason)
    {
    }
    assert MovesWithin(d, t.entry, t.exits, -pos.adverse - slip, pos.favorable - slip);
    GrossBetween(d, t.entry, t.exits, -pos.adverse - slip, pos.favorable - slip);
    if NoGap(t.exits) {
      assert MovesWithin(d, t.entry, t.exits, -pos.risk - slip, pos.favorable - slip);
      GrossBetween(d, t.entry, t.exits, -pos.risk - slip, pos.favorable - slip);
    }
  }

  ghost predicate BookBounded(p: Plan, c: Config, book: Book) {
    && (forall i :: 0 <= i < |book.trades| ==> TradeBounded(c, book.trades[i]))
    && (book.open.Some? ==> ExitsBounded(Direct(p), c, book.open.value))
  }

  lemma StepKeepsBounds(p: Plan, c: Config, book: Book, bar: Bar)
    requires BookOk(p, c, book) && BookBounded(p, c, book) && Consistent(bar.candle)
    ensures BookBounded(p, c, Step(p, c, book, bar))
  {
    hide Manage, TradeBounded, RoundTripCost, PositionOk, HoldsShare, TradeOk, ProtectionLevels, Scale;
    var holding := if book.open.Some? then book.open else Opened(p, c, bar);
    if book.open.None? && holding.Some? {
      OpenedIsOk(p, c, bar);
    }
    if holding.Some? {
      var next := Manage(p, c, holding.value, bar);
      ManageKeepsOk(p, c, holding.value, bar);
      ManageKeepsBounds(p, c, holding.value, bar);
      ClosedIsOk(p, c, next);
      if next.remaining == 0.0 {
        ClosedIsBounded(p, c, next);
      }
    }
  }

  /** Every run over consistent candles: a trade not stopped by a gap loses at most its risk,
      slippage, spread and commission, and every trade stays inside its excursions. */
  lemma {:induction false} LossIsBounded(s: Strategy, c: Config, setting: Setting, candles: seq<Candle>, n: nat)
    requires n <= |candles| && AllConsistent(candles)
    ensures BookBounded(PlanOf(s), c, Simulated(s, c, setting, candles, n))
  {
    hide Step, TradeBounded, BookOk;
    if n > 2 {
      LossIsBounded(s, c, setting, candles, n - 1);
      RunKeepsOk(s, c, setting, candles, n - 1);
      var bar := BarAt(s, setting, candles, n - 1);
      assert bar.candle == candles[n - 1];
      StepKeepsBounds(PlanOf(s), c, Simulated(s, c, setting, candles, n - 1), bar);
    }
  }
}
