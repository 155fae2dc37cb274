/** What holds of every simulated run: conservation of the position, equal target shares, a stop
    that never loosens, and the accounting identity. */
module ProtectionProofs {
  import opened Numbers
  import opened Signals
  import opened Protection

  // ----- conservation and accounting

  function FractionSum(exits: seq<Exit>): real {
    if exits == [] then 0.0 else FractionSum(exits[..|exits| - 1]) + exits[|exits| - 1].fraction
  }

  /** Profit of the exits against the entry, before fixed costs. */
  function Gross(d: Direction, entry: real, exits: seq<Exit>): real {
    if exits == [] then 0.0
    else
      var last := exits[|exits| - 1];
      Gross(d, entry, exits[..|exits| - 1]) + Scale(Signed(d, last.price - entry), last.fraction)
  }

  function SizeSum(fills: seq<Fill>): real {
    if fills == [] then 0.0 else SizeSum(fills[..|fills| - 1]) + fills[|fills| - 1].size
  }

  function Part(k: nat, n: nat): real
    requires n > 0
  {
    k as real * Share(n)
  }

  ghost predicate AllPositive(exits: seq<Exit>) {
    forall k :: 0 <= k < |exits| ==> exits[k].fraction > 0.0
  }

  /** What every booking keeps, whatever the fill. */
  ghost predicate Conserved(d: Direction, pos: Position) {
    && FractionSum(pos.exits) + pos.remaining == 1.0
    && pos.pnl == Gross(d, pos.entry, pos.exits)
  }

  ghost predicate PositionOk(p: Plan, pos: Position) {
    var d := Direct(p);
    && Conserved(d, pos)
    && AllPositive(pos.exits)
    && pos.risk == Signed(d, pos.entry - pos.originalStop) > 0.0
    && Signed(d, pos.stop - pos.originalStop) >= 0.0
    && (forall i :: 0 <= i < |pos.targets| ==> Signed(d, pos.targets[i] - pos.entry) > 0.0)
    && |pos.targets| == |p.rules.rMultiples|
  }

  /** An open position holds exactly the share of the targets not yet hit. */
  ghost predicate HoldsShare(pos: Position) {
    pos.hit < |pos.targets| && pos.remaining == Part(|pos.targets| - pos.hit, |pos.targets|)
  }

  lemma PartStep(k: nat, n: nat)
    requires 0 < k <= n
    ensures Part(k, n) == Part(k - 1, n) + Share(n)
    ensures Part(k, n) >= Share(n) > 0.0
    ensures Part(n, n) == 1.0
    ensures Part(0, n) == 0.0 && Part(1, n) == Share(n)
  {
    var f := Share(n);
    assert k as real == (k - 1) as real + 1.0;
    DivMul(1.0, n as real);
    assert f > 0.0;
    MulLe(0.0, (k - 1) as real, f);
  }

  lemma OpenedIsOk(p: Plan, c: Config, bar: Bar)
    requires Opened(p, c, bar).Some?
    ensures PositionOk(p, Opened(p, c, bar).value) && HoldsShare(Opened(p, c, bar).value)
  {
    hide ProtectionLevels, Scale, Part;
    var pos := Opened(p, c, bar).value;
    ProtectionLevelsAreProtective(p.rules, pos.entry, bar.volatility, c.tick);
    PartStep(|pos.targets|, |pos.targets|);
  }

  lemma BookingConserves(d: Direction, c: Config, pos: Position, fill: Fill, at: int)
    requires Conserved(d, pos)
    ensures Conserved(d, Book1(d, c, pos, fill, at))
  {
    var next := Book1(d, c, pos, fill, at);
    assert next.exits[..|pos.exits|] == pos.exits;
  }

  ghost predicate SameTerms(a: Position, b: Position) {
    && a.entry == b.entry && a.originalStop == b.originalStop && a.risk == b.risk && a.targets == b.targets
    && a.enteredAt == b.enteredAt && a.regime == b.regime && a.stop == b.stop && a.hit == b.hit
    && a.adverse == b.adverse && a.favorable == b.favorable
  }

  /** Booking a bar's fills: what it keeps and what it appends. */
  lemma {:induction false} BookAllConserves(d: Direction, c: Config, pos: Position, fills: seq<Fill>, at: int)
    requires Conserved(d, pos)
    ensures
      var next := BookAll(d, c, pos, fills, at);
      && Conserved(d, next)
      && SameTerms(pos, next)
      && next.remaining == pos.remaining - SizeSum(fills)
      && |next.exits| == |pos.exits| + |fills|
      && next.exits[..|pos.exits|] == pos.exits
      && forall k :: 0 <= k < |fills| ==>
           next.exits[|pos.exits| + k] ==
             Exit(Shift(d, fills[k].price, -c.slippage), fills[k].size, fills[k].reason, at)
    decreases |fills|
  {
    if fills != [] {
      var init, fill := fills[..|fills| - 1], fills[|fills| - 1];
      BookAllConserves(d, c, pos, init, at);
      var before := BookAll(d, c, pos, init, at);
      BookingConserves(d, c, before, fill, at);
      var next := BookAll(d, c, pos, fills, at);
      assert next == Book1(d, c, before, fill, at);
      assert next.exits[..|pos.exits|] == before.exits[..|pos.exits|];
      forall k | 0 <= k < |fills|
        ensures next.exits[|pos.exits| + k] ==
          Exit(Shift(d, fills[k].price, -c.slippage), fills[k].size, fills[k].reason, at)
      {
        if k < |init| {
          assert fills[k] == init[k];
          assert next.exits[|pos.exits| + k] == before.exits[|pos.exits| + k];
        }
      }
    }
  }

  lemma {:induction false} SizeSumCons(fill: Fill, fills: seq<Fill>)
    ensures SizeSum([fill] + fills) == fill.size + SizeSum(fills)
    decreases |fills|
  {
    if fills == [] {
      assert [fill] + fills == [fill];
    } else {
      SizeSumCons(fill, fills[..|fills| - 1]);
      assert ([fill] + fills)[..|fills|] == [fill] + fills[..|fills| - 1];
    }
  }

  lemma EqualShares(targets: seq<real>, hit: nat, available: real)
    requires hit < |targets| && available == Part(|targets| - hit, |targets|)
    ensures TargetSize(targets, hit, available) == Share(|targets|)
    ensures available - Share(|targets|) == Part(|targets| - hit - 1, |targets|)
  {
    hide Part, Share;
    PartStep(|targets| - hit, |targets|);
  }

  ghost predicate TakenAt(d: Direction, targets: seq<real>, c: Candle, fill: Fill, index: nat) {
    && index < |targets|
    && fill == Fill(targets[index], Share(|targets|), TakeProfit(index + 1))
    && Reaches(d, c, targets[index])
  }

  ghost predicate TakenInShares(d: Direction, targets: seq<real>, c: Candle, hit: nat, fills: seq<Fill>) {
    forall k :: 0 <= k < |fills| ==> TakenAt(d, targets, c, fills[k], hit + k)
  }

  lemma TakenInSharesCons(d: Direction, targets: seq<real>, c: Candle, hit: nat, fill: Fill, rest: seq<Fill>)
    requires TakenAt(d, targets, c, fill, hit) && TakenInShares(d, targets, c, hit + 1, rest)
    ensures TakenInShares(d, targets, c, hit, [fill] + rest)
  {
    hide TakenAt;
    var fills := [fill] + rest;
    forall k | 0 <= k < |fills| ensures TakenAt(d, targets, c, fills[k], hit + k) {
      if k > 0 {
        assert fills[k] == rest[k - 1];
      }
    }
  }

  /** Targets are taken in equal positive shares until none is left. */
  lemma {:induction false} TargetsTakeEqualShares(d: Direction, targets: seq<real>, c: Candle, hit: nat,
      available: real)
    requires hit <= |targets| && |targets| > 0 && available == Part(|targets| - hit, |targets|)
    ensures
      var taken := TakeTargets(d, targets, c, hit, available);
      && hit <= taken.hit <= |targets|
      && taken.available == Part(|targets| - taken.hit, |targets|)
      && SizeSum(taken.fills) == available - taken.available
      && TakenInShares(d, targets, c, hit, taken.fills)
    decreases |targets| - hit
  {
    hide Part, Reaches, Share, SizeSum, TargetSize, TakenInShares;
    if hit < |targets| && Reaches(d, c, targets[hit]) {
      EqualShares(targets, hit, available);
      var fill := Fill(targets[hit], Share(|targets|), TakeProfit(hit + 1));
      var rest := TakeTargets(d, targets, c, hit + 1, available - fill.size);
      TargetsTakeEqualShares(d, targets, c, hit + 1, available - fill.size);
      TakenOnce(d, targets, c, hit, available);
      SizeSumCons(fill, rest.fills);
      TakenInSharesCons(d, targets, c, hit, fill, rest.fills);
    } else {
      SizeSumOfNone();
      NoneTakenInShares(d, targets, c, hit);
    }
  }

  lemma NoneTakenInShares(d: Direction, targets: seq<real>, c: Candle, hit: nat)
    ensures TakenInShares(d, targets, c, hit, [])
  {
  }

  lemma SizeSumOfNone()
    ensures SizeSum([]) == 0.0
  {
  }

  ghost predicate Sized(fills: seq<Fill>) {
    forall k :: 0 <= k < |fills| ==> fills[k].size > 0.0
  }

  /** The fills of a bar either close the position or leave the share of the unhit targets. */
  lemma BarFillsAreShares(d: Direction, pos: Position, bar: Bar)
    requires HoldsShare(pos)
    ensures
      var taken := BarFills(d, pos, bar);
      var left := pos.remaining - SizeSum(taken.fills);
      && Sized(taken.fills)
      && (left == 0.0 || (left > 0.0 && taken.hit < |pos.targets|
          && left == Part(|pos.targets| - taken.hit, |pos.targets|)))
      && (left == 0.0 ==> taken.fills != [])
      && (bar.final ==> left == 0.0)
  {
    hide TakeTargets, Reaches, Part, Share, Worst;
    var n := |pos.targets|;
    PartStep(n - pos.hit, n);
    TargetsTakeEqualShares(d, pos.targets, bar.candle, pos.hit, pos.remaining);
    var taken := TakeTargets(d, pos.targets, bar.candle, pos.hit, pos.remaining);
    if taken.hit < n {
      PartStep(n - taken.hit, n);
    }
    var closing := Fill(bar.candle.close, taken.available, EndOfHistory);
    assert (taken.fills + [closing])[..|taken.fills|] == taken.fills;
    assert SizeSum(taken.fills + [closing]) == SizeSum(taken.fills) + taken.available;
    var fills := BarFills(d, pos, bar).fills;
    if |fills| == 1 {
      assert fills[..0] == [];
    }
  }

  /** A managed bar keeps the position sound; the stop only tightens. */
  lemma ManageKeepsOk(p: Plan, c: Config, pos: Position, bar: Bar)
    requires PositionOk(p, pos) && HoldsShare(pos)
    ensures
      var next := Manage(p, c, pos, bar);
      && PositionOk(p, next)
      && next.remaining >= 0.0
      && (next.remaining > 0.0 ==> HoldsShare(next))
      && (next.remaining == 0.0 ==> next.exits != [])
      && (bar.final ==> next.remaining == 0.0)
      && Signed(Direct(p), next.stop - pos.stop) >= 0.0
      && pos.exits <= next.exits
  {
    hide BarFills, BookAll, Part, Worst, Best;
    var d := Direct(p);
    var seen := Excursions(d, pos, bar.candle);
    var taken := BarFills(d, seen, bar);
    BarFillsAreShares(d, seen, bar);
    var start := seen.(hit := taken.hit);
    BookAllConserves(d, c, start, taken.fills, bar.candle.at);
    var booked := BookAll(d, c, start, taken.fills, bar.candle.at);
    assert pos.exits == booked.exits[..|pos.exits|];
    forall k | 0 <= k < |booked.exits| ensures booked.exits[k].fraction > 0.0 {
      if k < |pos.exits| {
        assert booked.exits[k] == pos.exits[k];
      } else {
        var j := k - |pos.exits|;
        assert booked.exits[|pos.exits| + j].fraction == taken.fills[j].size;
      }
    }
  }

  /** Exit fractions of a closed trade are positive and sum to one; its profit is the exits'
      profit against the entry minus the fixed costs. */
  ghost predicate TradeOk(p: Plan, c: Config, t: Trade) {
    && t.exits != []
    && t.exitedAt == t.exits[|t.exits| - 1].at
    && AllPositive(t.exits)
    && FractionSum(t.exits) == 1.0
    && t.pnl == Gross(Direct(p), t.entry, t.exits) - (c.spread + c.commission)
    && t.risk == Signed(Direct(p), t.entry - t.originalStop) > 0.0
  }

  ghost predicate BookOk(p: Plan, c: Config, book: Book) {
    && (forall i :: 0 <= i < |book.trades| ==> TradeOk(p, c, book.trades[i]))
    && (book.open.Some? ==> PositionOk(p, book.open.value) && HoldsShare(book.open.value))
    && book.costs == |book.trades| as real * RoundTripCost(c)
  }

  lemma StepKeepsOk(p: Plan, c: Config, book: Book, bar: Bar)
    requires BookOk(p, c, book)
    ensures BookOk(p, c, Step(p, c, book, bar))
    ensures bar.final ==> Step(p, c, book, bar).open.None?
  {
    hide Manage, Opened, RoundTripCost, HoldsShare, Conserved;
    var holding := if book.open.Some? then book.open else Opened(p, c, bar);
    if book.open.None? && holding.Some? {
      OpenedIsOk(p, c, bar);
    }
    if holding.Some? {
      ManageKeepsOk(p, c, holding.value, bar);
      ClosedIsOk(p, c, Manage(p, c, holding.value, bar));
      CountCosts(|book.trades|, RoundTripCost(c));
    }
  }

  lemma ClosedIsOk(p: Plan, c: Config, pos: Position)
    requires PositionOk(p, pos) && (pos.remaining == 0.0 ==> pos.exits != [])
    ensures pos.remaining == 0.0 ==> TradeOk(p, c, Closed(c, pos))
  {
  }

  lemma CountCosts(n: nat, cost: real)
    ensures (n + 1) as real * cost == n as real * cost + cost
  {
    assert (n + 1) as real == n as real + 1.0;
  }

  lemma {:induction false} RunKeepsOk(s: Strategy, c: Config, setting: Setting, candles: seq<Candle>, n: nat)
    requires n <= |candles|
    ensures BookOk(PlanOf(s), c, Simulated(s, c, setting, candles, n))
  {
    hide Step, BarAt, TradeOk, RoundTripCost;
    if n <= 2 {
      assert 0.0 * RoundTripCost(c) == 0.0;
    } else {
      RunKeepsOk(s, c, setting, candles, n - 1);
      StepKeepsOk(PlanOf(s), c, Simulated(s, c, setting, candles, n - 1), BarAt(s, setting, candles, n - 1));
    }
  }

  /** The run conserves every position; closing at the end leaves nothing open. */
  lemma SimulationConserves(s: Strategy, c: Config, setting: Setting, candles: seq<Candle>)
    ensures
      var book := Simulation(s, c, setting, candles);
      && BookOk(PlanOf(s), c, book)
      && (setting.closeAtEnd ==> book.open.None?)
  {
    hide Step, BookOk;
    var n := |candles|;
    RunKeepsOk(s, c, setting, candles, n);
    if n > 2 {
      RunKeepsOk(s, c, setting, candles, n - 1);
      StepKeepsOk(PlanOf(s), c, Simulated(s, c, setting, candles, n - 1), BarAt(s, setting, candles, n - 1));
    }
  }

  /** Profit of one trade's raw fills, with neither slippage nor fixed costs. */
  function Frictionless(d: Direction, slippage: real, t: Trade): real {
    FrictionlessExits(d, slippage, Shift(d, t.entry, -slippage), t.exits)
  }

  function FrictionlessExits(d: Direction, slippage: real, rawEntry: real, exits: seq<Exit>): real {
    if exits == [] then 0.0
    else
      var last := exits[|exits| - 1];
      FrictionlessExits(d, slippage, rawEntry, exits[..|exits| - 1])
        + Signed(d, Shift(d, last.price, slippage) - rawEntry) * last.fraction
  }

  lemma {:induction false} SlippageIsPaidTwice(d: Direction, slippage: real, entry: real, exits: seq<Exit>)
    ensures FrictionlessExits(d, slippage, Shift(d, entry, -slippage), exits)
         == Gross(d, entry, exits) + 2.0 * slippage * FractionSum(exits)
  {
    if exits != [] {
      var init, last := exits[..|exits| - 1], exits[|exits| - 1];
      SlippageIsPaidTwice(d, slippage, entry, init);
      var x := Signed(d, last.price - entry);
      assert Signed(d, Shift(d, last.price, slippage) - Shift(d, entry, -slippage)) == x + 2.0 * slippage;
      assert (x + 2.0 * slippage) * last.fraction == x * last.fraction + 2.0 * slippage * last.fraction;
      assert 2.0 * slippage * (FractionSum(init) + last.fraction)
          == 2.0 * slippage * FractionSum(init) + 2.0 * slippage * last.fraction;
    }
  }

  function TotalPnl(trades: seq<Trade>): real {
    if trades == [] then 0.0 else TotalPnl(trades[..|trades| - 1]) + trades[|trades| - 1].pnl
  }

  function TotalFrictionless(d: Direction, slippage: real, trades: seq<Trade>): real {
    if trades == [] then 0.0
    else TotalFrictionless(d, slippage, trades[..|trades| - 1]) + Frictionless(d, slippage, trades[|trades| - 1])
  }

  lemma TradePaysItsCosts(p: Plan, c: Config, t: Trade)
    requires TradeOk(p, c, t)
    ensures t.pnl == Frictionless(Direct(p), c.slippage, t) - RoundTripCost(c)
  {
    SlippageIsPaidTwice(Direct(p), c.slippage, t.entry, t.exits);
  }

  lemma {:induction false} TradesPayTheirCosts(p: Plan, c: Config, trades: seq<Trade>)
    requires forall i :: 0 <= i < |trades| ==> TradeOk(p, c, trades[i])
    ensures TotalPnl(trades)
         == TotalFrictionless(Direct(p), c.slippage, trades) - |trades| as real * RoundTripCost(c)
  {
    hide TradeOk, Frictionless, RoundTripCost;
    if trades == [] {
      assert 0.0 * RoundTripCost(c) == 0.0;
    } else {
      TradesPayTheirCosts(p, c, trades[..|trades| - 1]);
      TradePaysItsCosts(p, c, trades[|trades| - 1]);
      CountCosts(|trades| - 1, RoundTripCost(c));
    }
  }

  /** Total profit equals the frictionless profit of the same raw fills minus the returned costs. */
  lemma AccountingIdentity(s: Strategy, c: Config, setting: Setting, candles: seq<Candle>)
    ensures
      var book := Simulation(s, c, setting, candles);
      TotalPnl(book.trades) == TotalFrictionless(s.rules.direction, c.slippage, book.trades) - book.costs
  {
    hide Simulated, TradeOk;
    RunKeepsOk(s, c, setting, candles, |candles|);
    TradesPayTheirCosts(PlanOf(s), c, Simulation(s, c, setting, candles).trades);
  }
}
