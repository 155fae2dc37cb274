/** Next-bar simulation of one protected position at a time, with directional stops
    and equal-fraction profit targets. The run is a fold of `Step` over bars; the
    nested loops of the simulator are proved to compute that fold. */
module Protection {
  import opened Numbers
  import opened Signals

  // Costs are in price units; loss limits and equity in account currency.
  datatype Configuration = Configuration(
    initialEquity: real, spread: real, commission: real, slippage: real,
    tick: Tick, maxDailyLoss: real, maxTotalLoss: real)

  type Config = c: Configuration |
    && c.initialEquity > 0.0 && c.spread >= 0.0 && c.commission >= 0.0 && c.slippage >= 0.0
    && c.maxDailyLoss > 0.0 && c.maxTotalLoss > 0.0
    witness Configuration(1.0, 0.0, 0.0, 0.0, None, 1.0, 1.0)

  // Numeric code of the news state at an instant: -2 unknown, -1 before, 0 normal, 1 after.
  // Forward replay reads recorded contexts; otherwise the calendar decides.
  datatype News = FromCalendar(stateAt: int -> real) | Recorded(contexts: map<int, real>)

  // `blockedAt` says whether sessions and event rules block an entry at an instant;
  // forward replay has made that decision already and lists the allowed entry instants.
  datatype Setting = Setting(
    allowed: Option<set<int>>, blockedAt: int -> bool, news: News, closeAtEnd: bool)

  function NewsCode(news: News, at: int): real {
    match news
    case FromCalendar(stateAt) => stateAt(at)
    case Recorded(contexts) => if at in contexts then contexts[at] else -2.0
  }

  // What the simulator may look at when it processes one bar: the bar itself and
  // signals computed from the candles before it.
  datatype Bar = Bar(candle: Candle, admitted: bool, volatility: real, exitSignal: bool, regime: Regime, final: bool)

  function PointFeatures(s: Strategy, setting: Setting, candles: seq<Candle>, i: nat): (f: Features)
    requires 1 <= i < |candles|
    ensures "volatility" in f
  {
    StrategyFeatures(s, candles, i - 1)["news_regime" := NewsCode(setting.news, candles[i].at)]
  }

  predicate MayEnterAt(setting: Setting, at: int) {
    if setting.allowed.Some? then at in setting.allowed.value else !setting.blockedAt(at)
  }

  function BarAt(s: Strategy, setting: Setting, candles: seq<Candle>, i: nat): Bar
    requires 1 <= i < |candles|
  {
    var f := PointFeatures(s, setting, candles, i);
    Bar(candles[i],
        MayEnterAt(setting, candles[i].at) && EntryMatches(s, f),
        f["volatility"],
        Matches(s.exit, f) || Matches(s.invalidation, f),
        RegimeFromFeatures(f),
        setting.closeAtEnd && i == |candles| - 1)
  }

  // ----- positions and trades

  datatype Reason = StopGap | ExitSignal | StopLoss | TakeProfit(number: nat) | EndOfHistory

  datatype Fill = Fill(price: real, size: real, reason: Reason)

  datatype Exit = Exit(price: real, fraction: real, reason: Reason, at: int)

  datatype Position = Position(
    entry: real, originalStop: real, risk: real, targets: seq<real>, enteredAt: int, regime: Regime,
    stop: real, remaining: real, pnl: real, hit: nat, exits: seq<Exit>, adverse: real, favorable: real)

  datatype Trade = Trade(
    enteredAt: int, exitedAt: int, entry: real, originalStop: real, targets: seq<real>, exits: seq<Exit>,
    pnl: real, risk: real, mae: real, mfe: real, regime: Regime)

  // The strategy's part of a step.
  datatype Plan = Plan(rules: TradeRules, breakEven: bool, trailing: bool)

  datatype Book = Book(trades: seq<Trade>, costs: real, open: Option<Position>)

  function PlanOf(s: Strategy): Plan {
    Plan(s.rules, s.breakEven, s.trailing)
  }

  function Direct(p: Plan): Direction {
    p.rules.direction
  }

  /** The position an admitted bar opens, unless its protection levels are refused. */
  function Opened(p: Plan, c: Config, bar: Bar): Option<Position> {
    var entry := Shift(Direct(p), bar.candle.open, c.slippage);
    var levels := ProtectionLevels(p.rules, entry, bar.volatility, c.tick);
    if !bar.admitted || levels.None? then None else
    var Levels(stop, targets) := levels.value;
    Some(Position(entry, stop, Abs(entry - stop), targets, bar.candle.at, bar.regime,
                  stop, 1.0, 0.0, 0, [], 0.0, 0.0))
  }

  function Worst(d: Direction, c: Candle): real {
    if d == Long then c.low else c.high
  }

  function Best(d: Direction, c: Candle): real {
    if d == Long then c.high else c.low
  }

  function Excursions(d: Direction, pos: Position, c: Candle): Position {
    pos.(adverse := Max(pos.adverse, Signed(d, pos.entry - Worst(d, c))),
         favorable := Max(pos.favorable, Signed(d, Best(d, c) - pos.entry)))
  }

  predicate Reaches(d: Direction, c: Candle, target: real) {
    Signed(d, Best(d, c) - target) >= 0.0
  }

  datatype Taken = Taken(fills: seq<Fill>, hit: nat, available: real)

  /** Takes targets in order while the bar reaches them; the last one takes what is left. */
  function TakeTargets(d: Direction, targets: seq<real>, c: Candle, hit: nat, available: real): Taken
    decreases |targets| - hit
  {
    if hit >= |targets| || !Reaches(d, c, targets[hit]) then Taken([], hit, available) else
    var size := TargetSize(targets, hit, available);
    var rest := TakeTargets(d, targets, c, hit + 1, available - size);
    rest.(fills := [Fill(targets[hit], size, TakeProfit(hit + 1))] + rest.fills)
  }

  /** The equal fraction each target closes. */
  function Share(n: nat): real
    requires n > 0
  {
    1.0 / n as real
  }

  function TargetSize(targets: seq<real>, hit: nat, available: real): real
    requires hit < |targets|
  {
    if hit == |targets| - 1 then available else Min(Share(|targets|), available)
  }

  /** The fills of one bar. At an ambiguous bar the adverse level is assumed to come first. */
  function BarFills(d: Direction, pos: Position, bar: Bar): Taken {
    var c := bar.candle;
    if Signed(d, c.open - pos.stop) <= 0.0 then
      Taken([Fill(c.open, pos.remaining, StopGap)], pos.hit, 0.0)
    else if c.at != pos.enteredAt && bar.exitSignal then
      Taken([Fill(c.open, pos.remaining, ExitSignal)], pos.hit, 0.0)
    else if Signed(d, Worst(d, c) - pos.stop) <= 0.0 then
      Taken([Fill(pos.stop, pos.remaining, StopLoss)], pos.hit, 0.0)
    else
      var taken := TakeTargets(d, pos.targets, c, pos.hit, pos.remaining);
      if bar.final && taken.available > 0.0
      then taken.(fills := taken.fills + [Fill(c.close, taken.available, EndOfHistory)])
      else taken
  }

  /** Books one fill: the exit price pays slippage, the size leaves the position. */
  function Book1(d: Direction, c: Config, pos: Position, fill: Fill, at: int): Position {
    var price := Shift(d, fill.price, -c.slippage);
    pos.(pnl := pos.pnl + Signed(d, price - pos.entry) * fill.size,
         remaining := pos.remaining - fill.size,
         exits := pos.exits + [Exit(price, fill.size, fill.reason, at)])
  }

  function BookAll(d: Direction, c: Config, pos: Position, fills: seq<Fill>, at: int): Position
  {
    if fills == [] then pos
    else Book1(d, c, BookAll(d, c, pos, fills[..|fills| - 1], at), fills[|fills| - 1], at)
  }

  /** The tighter of two stops. */
  function Tighter(d: Direction, a: real, b: real): real {
    if d == Long then Max(a, b) else Min(a, b)
  }

  function MovedStop(p: Plan, pos: Position, c: Candle): real {
    var d := Direct(p);
    var kept := if pos.hit > 0 && p.breakEven then Tighter(d, pos.stop, pos.entry) else pos.stop;
    if p.trailing then Tighter(d, kept, Shift(d, c.close, -pos.risk)) else kept
  }

  /** One bar of an open position. */
  function Manage(p: Plan, c: Config, pos: Position, bar: Bar): Position {
    var d := Direct(p);
    var seen := Excursions(d, pos, bar.candle);
    var taken := BarFills(d, seen, bar);
    var booked := BookAll(d, c, seen.(hit := taken.hit), taken.fills, bar.candle.at);
    if booked.remaining > 0.0 then booked.(stop := MovedStop(p, booked, bar.candle)) else booked
  }

  function Closed(c: Config, pos: Position): Trade {
    Trade(pos.enteredAt, if pos.exits == [] then pos.enteredAt else pos.exits[|pos.exits| - 1].at,
          pos.entry, pos.originalStop, pos.targets, pos.exits,
          pos.pnl - (c.spread + c.commission), pos.risk,
          Max(pos.adverse, 0.0), Max(pos.favorable, 0.0), pos.regime)
  }

  function RoundTripCost(c: Config): real {
    c.spread + c.commission + 2.0 * c.slippage
  }

  function Settle(c: Config, book: Book, pos: Position): Book {
    if pos.remaining > 0.0 then book.(open := Some(pos))
    else Book(book.trades + [Closed(c, pos)], book.costs + RoundTripCost(c), None)
  }

  /** One bar: open if flat and admitted, then manage whatever is open on the same bar. */
  function Step(p: Plan, c: Config, book: Book, bar: Bar): Book {
    var holding := if book.open.Some? then book.open else Opened(p, c, bar);
    if holding.None? then book else Settle(c, book, Manage(p, c, holding.value, bar))
  }

  const EMPTY_BOOK := Book([], 0.0, None)

  /** The simulation after the first `n` candles; trading starts at the third. */
  function Simulated(s: Strategy, c: Config, setting: Setting, candles: seq<Candle>, n: nat): Book
    requires n <= |candles|
  {
    if n <= 2 then EMPTY_BOOK
    else Step(PlanOf(s), c, Simulated(s, c, setting, candles, n - 1), BarAt(s, setting, candles, n - 1))
  }

  function Simulation(s: Strategy, c: Config, setting: Setting, candles: seq<Candle>): Book {
    Simulated(s, c, setting, candles, |candles|)
  }

  // ----- the nested loops

  lemma TakenOnce(d: Direction, targets: seq<real>, c: Candle, hit: nat, available: real)
    requires hit < |targets| && Reaches(d, c, targets[hit])
    ensures
      var size := TargetSize(targets, hit, available);
      var rest := TakeTargets(d, targets, c, hit + 1, available - size);
      TakeTargets(d, targets, c, hit, available)
        == Taken([Fill(targets[hit], size, TakeProfit(hit + 1))] + rest.fills, rest.hit, rest.available)
  {
  }

  /** `whole` is `fills` followed by what is still to be taken. */
  ghost predicate Resumes(whole: Taken, fills: seq<Fill>, rest: Taken) {
    whole == Taken(fills + rest.fills, rest.hit, rest.available)
  }

  /** The target loop of one bar. */
  method CollectTargets(d: Direction, targets: seq<real>, c: Candle, hit: nat, remaining: real) returns (taken: Taken)
    ensures taken == TakeTargets(d, targets, c, hit, remaining)
  {
    hide TargetSize, Reaches;
    var fills: seq<Fill>, targetIndex, available := [], hit, remaining;
    ghost var whole := TakeTargets(d, targets, c, hit, remaining);
    while targetIndex < |targets| && Reaches(d, c, targets[targetIndex])
      invariant Resumes(whole, fills, TakeTargets(d, targets, c, targetIndex, available))
      decreases |targets| - targetIndex
    {
      hide TakeTargets;
      TakenOnce(d, targets, c, targetIndex, available);
      var size := TargetSize(targets, targetIndex, available);
      var fill := Fill(targets[targetIndex], size, TakeProfit(targetIndex + 1));
      assert fills + ([fill] + TakeTargets(d, targets, c, targetIndex + 1, available - size).fills)
        == (fills + [fill]) + TakeTargets(d, targets, c, targetIndex + 1, available - size).fills;
      fills := fills + [fill];
      available := available - size;
      targetIndex := targetIndex + 1;
    }
    taken := Taken(fills, targetIndex, available);
  }

  /** The body of the inner loop: fills of one bar, their booking, then the stop moves. */
  method ManageBar(p: Plan, c: Config, pos: Position, bar: Bar) returns (next: Position)
    ensures next == Manage(p, c, pos, bar)
  {
    hide Book1, MovedStop, TakeTargets;
    var d := Direct(p);
    next := Excursions(d, pos, bar.candle);
    ghost var seen := next;
    var fills: seq<Fill>;
    var hit := next.hit;
    if Signed(d, bar.candle.open - next.stop) <= 0.0 {
      fills := [Fill(bar.candle.open, next.remaining, StopGap)];
    } else if bar.candle.at != next.enteredAt && bar.exitSignal {
      fills := [Fill(bar.candle.open, next.remaining, ExitSignal)];
    } else if Signed(d, Worst(d, bar.candle) - next.stop) <= 0.0 {
      fills := [Fill(next.stop, next.remaining, StopLoss)];
    } else {
      var taken := CollectTargets(d, next.targets, bar.candle, next.hit, next.remaining);
      fills, hit := taken.fills, taken.hit;
      if bar.final && taken.available > 0.0 {
        fills := fills + [Fill(bar.candle.close, taken.available, EndOfHistory)];
      }
    }
    assert fills == BarFills(d, seen, bar).fills && hit == BarFills(d, seen, bar).hit;
    next := next.(hit := hit);
    ghost var start := next;
    for k := 0 to |fills|
      invariant next == BookAll(d, c, start, fills[..k], bar.candle.at)
    {
      assert fills[..k + 1][..k] == fills[..k];
      next := Book1(d, c, next, fills[k], bar.candle.at);
    }
    assert fills[..|fills|] == fills;
    if next.remaining > 0.0 {
      next := next.(stop := MovedStop(p, next, bar.candle));
    }
  }

  /** `simulate_protected_trades`: the outer loop looks for an entry, the inner loop runs
      the position until it is closed or the history ends. */
  method SimulateProtectedTrades(s: Strategy, candles: seq<Candle>, c: Config, setting: Setting)
    returns (trades: seq<Trade>, costs: real, openPosition: Option<Position>)
    ensures Book(trades, costs, openPosition) == Simulation(s, c, setting, candles)
  {
    hide Step, Manage, Opened, BarAt;
    var p := PlanOf(s);
    trades, costs, openPosition := [], 0.0, None;
    var index := 2;
    while index < |candles|
      invariant |candles| >= 2 ==> 2 <= index <= |candles|
      invariant Book(trades, costs, None) ==
        Simulated(s, c, setting, candles, if index < |candles| then index else |candles|)
      decreases |candles| - index
    {
      var bar := BarAt(s, setting, candles, index);
      var entered := Opened(p, c, bar);
      if entered.None? {
        StepFlat(p, c, Book(trades, costs, None), bar);
        index := index + 1;
        continue;
      }
      var pos := entered.value;
      ghost var flat := Book(trades, costs, None);
      ghost var first := index;
      OpenedIsWhole(p, c, bar);
      while index < |candles| && pos.remaining > 0.0
        invariant first <= index <= |candles|
        invariant index == first ==> pos == entered.value
        invariant index > first ==> Simulated(s, c, setting, candles, index) == Settle(c, flat, pos)
        decreases |candles| - index
      {
        bar := BarAt(s, setting, candles, index);
        ghost var book := if index == first then flat else flat.(open := Some(pos));
        StepHolding(p, c, book, pos, bar);
        pos := ManageBar(p, c, pos, bar);
        index := index + 1;
      }
      if pos.remaining > 0.0 {
        openPosition := Some(pos);
        return;
      }
      trades := trades + [Closed(c, pos)];
      costs := costs + RoundTripCost(c);
    }
  }

  lemma StepFlat(p: Plan, c: Config, book: Book, bar: Bar)
    requires book.open.None? && Opened(p, c, bar).None?
    ensures Step(p, c, book, bar) == book
  {
  }

  lemma OpenedIsWhole(p: Plan, c: Config, bar: Bar)
    requires Opened(p, c, bar).Some?
    ensures Opened(p, c, bar).value.remaining == 1.0
  {
  }

  lemma StepHolding(p: Plan, c: Config, book: Book, pos: Position, bar: Bar)
    requires book.open == Some(pos) || (book.open.None? && Opened(p, c, bar) == Some(pos))
    ensures Step(p, c, book, bar) == Settle(c, book.(open := None), Manage(p, c, pos, bar))
  {
  }
}
