/** Statements about two runs and about the order of events in one run. */
module ProtectionRuns {
  import opened Numbers
  import opened Signals
  import opened Protection
  import opened ProtectionProofs

  // ----- no look-ahead

  /** Two settings decide alike about an entry and about the news at an instant. */
  predicate SameDecision(a: Setting, b: Setting, at: int) {
    MayEnterAt(a, at) == MayEnterAt(b, at) && NewsCode(a.news, at) == NewsCode(b.news, at)
  }

  ghost predicate SameDecisions(a: Setting, b: Setting, candles: seq<Candle>) {
    forall i :: 0 <= i < |candles| ==> SameDecision(a, b, candles[i].at)
  }

  lemma BarsAgree(s: Strategy, a: Setting, b: Setting, xs: seq<Candle>, ys: seq<Candle>, i: nat)
    requires 1 <= i < |xs| && i < |ys| && xs[..i + 1] == ys[..i + 1]
    requires SameDecision(a, b, xs[i].at) && !a.closeAtEnd && !b.closeAtEnd
    ensures BarAt(s, a, xs, i) == BarAt(s, b, ys, i)
  {
    hide StrategyFeatures, EntryMatches, Matches, RegimeFromFeatures;
    assert xs[i] == xs[..i + 1][i] == ys[..i + 1][i] == ys[i];
    assert xs[..i] == xs[..i + 1][..i] == ys[..i + 1][..i] == ys[..i];
    FeaturesAreCausal(s, xs, ys, i - 1);
  }

  lemma {:induction false} RunsAgree(s: Strategy, c: Config, a: Setting, b: Setting, xs: seq<Candle>, ys: seq<Candle>,
                                     n: nat)
    requires n <= |xs| && n <= |ys| && xs[..n] == ys[..n]
    requires SameDecisions(a, b, xs[..n]) && !a.closeAtEnd && !b.closeAtEnd
    ensures Simulated(s, c, a, xs, n) == Simulated(s, c, b, ys, n)
  {
    hide Step, BarAt, SameDecision;
    if n > 2 {
      assert xs[..n - 1] == xs[..n][..n - 1] == ys[..n][..n - 1] == ys[..n - 1];
      assert SameDecisions(a, b, xs[..n - 1]) by {
        assert forall i :: 0 <= i < n - 1 ==> xs[..n - 1][i] == xs[..n][i];
      }
      RunsAgree(s, c, a, b, xs, ys, n - 1);
      assert xs[..n][n - 1] == xs[n - 1];
      BarsAgree(s, a, b, xs, ys, n - 1);
    }
  }

  lemma StepAppends(p: Plan, c: Config, book: Book, bar: Bar)
    ensures book.trades <= Step(p, c, book, bar).trades
  {
    hide Manage, Opened, Closed;
  }

  lemma {:induction false} TradesOnlyGrow(s: Strategy, c: Config, setting: Setting, candles: seq<Candle>, m: nat,
                                          n: nat)
    requires m <= n <= |candles|
    ensures Simulated(s, c, setting, candles, m).trades <= Simulated(s, c, setting, candles, n).trades
    decreases n
  {
    hide Step, BarAt;
    if m < n {
      TradesOnlyGrow(s, c, setting, candles, m, n - 1);
      if n > 2 {
        StepAppends(PlanOf(s), c, Simulated(s, c, setting, candles, n - 1), BarAt(s, setting, candles, n - 1));
      }
    }
  }

  /** No look-ahead: whatever comes after the first `n` candles, and whatever is decided there,
      the trades of the first `n` candles are a prefix of the trades of the longer history. */
  lemma NoLookAhead(s: Strategy, c: Config, a: Setting, b: Setting, xs: seq<Candle>, ys: seq<Candle>)
    requires xs <= ys && SameDecisions(a, b, xs) && !a.closeAtEnd && !b.closeAtEnd
    ensures Simulation(s, c, a, xs).trades <= Simulation(s, c, b, ys).trades
    ensures Simulation(s, c, a, xs) == Simulated(s, c, b, ys, |xs|)
  {
    hide Simulated;
    assert xs[..|xs|] == xs == ys[..|xs|];
    RunsAgree(s, c, a, b, xs, ys, |xs|);
    TradesOnlyGrow(s, c, b, ys, |xs|, |ys|);
  }

  // ----- entries and their order

  /** An entry happens at a candle where the setting allows it. */
  ghost predicate EntryAllowed(setting: Setting, candles: seq<Candle>, n: nat, at: int)
    requires n <= |candles|
  {
    MayEnterAt(setting, at) && exists k :: 2 <= k < n && candles[k].at == at
  }

  ghost predicate EntriesAllowed(setting: Setting, candles: seq<Candle>, n: nat, book: Book)
    requires n <= |candles|
  {
    && (forall i :: 0 <= i < |book.trades| ==> EntryAllowed(setting, candles, n, book.trades[i].enteredAt))
    && (book.open.Some? ==> EntryAllowed(setting, candles, n, book.open.value.enteredAt))
  }

  ghost predicate OneMore(book: Book, next: Book, bar: Bar) {
    && |next.trades| == |book.trades| + 1
    && next.trades[..|book.trades|] == book.trades
    && var at := next.trades[|book.trades|].enteredAt;
       (book.open.Some? && at == book.open.value.enteredAt) || (bar.admitted && at == bar.candle.at)
  }

  lemma StepKeepsEntry(p: Plan, c: Config, book: Book, bar: Bar)
    ensures
      var next := Step(p, c, book, bar);
      && (next.open.Some? ==>
           || (book.open.Some? && next.open.value.enteredAt == book.open.value.enteredAt)
           || (bar.admitted && next.open.value.enteredAt == bar.candle.at))
      && (next.trades == book.trades || OneMore(book, next, bar))
  {
    hide MovedStop, BarFills, ProtectionLevels;
    var holding := if book.open.Some? then book.open else Opened(p, c, bar);
    if holding.Some? {
      ManageKeepsTerms(p, c, holding.value, bar);
    }
  }

  lemma ManageKeepsTerms(p: Plan, c: Config, pos: Position, bar: Bar)
    ensures Manage(p, c, pos, bar).enteredAt == pos.enteredAt
  {
    hide BarFills, MovedStop;
    var seen := Excursions(Direct(p), pos, bar.candle);
    var taken := BarFills(Direct(p), seen, bar);
    BookAllKeepsTerms(Direct(p), c, seen.(hit := taken.hit), taken.fills, bar.candle.at);
  }

  lemma {:induction false} BookAllKeepsTerms(d: Direction, c: Config, pos: Position, fills: seq<Fill>, at: int)
    ensures BookAll(d, c, pos, fills, at).enteredAt == pos.enteredAt
    decreases |fills|
  {
    if fills != [] {
      BookAllKeepsTerms(d, c, pos, fills[..|fills| - 1], at);
    }
  }

  lemma BarIsOfItsCandle(s: Strategy, setting: Setting, candles: seq<Candle>, i: nat)
    requires 1 <= i < |candles|
    ensures BarAt(s, setting, candles, i).candle == candles[i]
    ensures BarAt(s, setting, candles, i).admitted ==> MayEnterAt(setting, candles[i].at)
  {
    hide EntryMatches, Matches, RegimeFromFeatures, StrategyFeatures;
  }

  lemma {:induction false} EntriesAreAllowed(s: Strategy, c: Config, setting: Setting, candles: seq<Candle>, n: nat)
    requires n <= |candles|
    ensures EntriesAllowed(setting, candles, n, Simulated(s, c, setting, candles, n))
  {
    hide Step, MayEnterAt, BarAt;
    if n > 2 {
      EntriesAreAllowed(s, c, setting, candles, n - 1);
      var book := Simulated(s, c, setting, candles, n - 1);
      var bar := BarAt(s, setting, candles, n - 1);
      StepKeepsEntry(PlanOf(s), c, book, bar);
      BarIsOfItsCandle(s, setting, candles, n - 1);
      var next := Step(PlanOf(s), c, book, bar);
      forall i | 0 <= i < |next.trades| ensures EntryAllowed(setting, candles, n, next.trades[i].enteredAt) {
        if i < |book.trades| {
          assert next.trades[i] == next.trades[..|book.trades|][i];
          assert EntryAllowed(setting, candles, n - 1, book.trades[i].enteredAt);
        }
      }
    }
  }

  ghost predicate Chronological(candles: seq<Candle>) {
    forall i, j :: 0 <= i < j < |candles| ==> candles[i].at < candles[j].at
  }

  ghost predicate ExitsBetween(exits: seq<Exit>, first: int, last: int) {
    forall k :: 0 <= k < |exits| ==> first <= exits[k].at <= last
  }

  /** Trades follow one another without overlap, up to the instant `now`. */
  ghost predicate Timeline(book: Book, now: int) {
    && (forall i :: 0 <= i < |book.trades| ==> book.trades[i].enteredAt <= book.trades[i].exitedAt <= now)
    && (forall i, j :: 0 <= i < j < |book.trades| ==> book.trades[i].exitedAt < book.trades[j].enteredAt)
    && (book.open.Some? ==>
         && book.open.value.enteredAt <= now
         && ExitsBetween(book.open.value.exits, book.open.value.enteredAt, now)
         && forall i :: 0 <= i < |book.trades| ==> book.trades[i].exitedAt < book.open.value.enteredAt)
  }

  lemma ManageKeepsTimes(p: Plan, c: Config, pos: Position, bar: Bar)
    requires PositionOk(p, pos) && HoldsShare(pos)
    requires pos.enteredAt <= bar.candle.at && ExitsBetween(pos.exits, pos.enteredAt, bar.candle.at)
    ensures
      var next := Manage(p, c, pos, bar);
      next.enteredAt == pos.enteredAt && ExitsBetween(next.exits, pos.enteredAt, bar.candle.at)
  {
    hide BarFills, BookAll, MovedStop, HoldsShare;
    var seen := Excursions(Direct(p), pos, bar.candle);
    var taken := BarFills(Direct(p), seen, bar);
    var start := seen.(hit := taken.hit);
    BookAllConserves(Direct(p), c, start, taken.fills, bar.candle.at);
    var next := BookAll(Direct(p), c, start, taken.fills, bar.candle.at);
    forall k | 0 <= k < |next.exits| ensures pos.enteredAt <= next.exits[k].at <= bar.candle.at {
      if k < |pos.exits| {
        assert next.exits[k] == next.exits[..|pos.exits|][k] == pos.exits[k];
      } else {
        var j := k - |pos.exits|;
        assert next.exits[|pos.exits| + j].fraction == taken.fills[j].size;
      }
    }
  }

  lemma StepKeepsTimeline(p: Plan, c: Config, book: Book, bar: Bar, before: int)
    requires BookOk(p, c, book) && Timeline(book, before) && before < bar.candle.at
    ensures Timeline(Step(p, c, book, bar), bar.candle.at)
  {
    hide Manage, PositionOk, HoldsShare, RoundTripCost, TradeOk, ProtectionLevels, Scale;
    var holding := if book.open.Some? then book.open else Opened(p, c, bar);
    if book.open.None? && holding.Some? {
      OpenedIsOk(p, c, bar);
    }
    if holding.Some? {
      var next := Manage(p, c, holding.value, bar);
      ManageKeepsOk(p, c, holding.value, bar);
      ManageKeepsTimes(p, c, holding.value, bar);
    }
  }

  /** Trades never overlap: each entry bar comes strictly after the previous exit bar. */
  lemma {:induction false} TradesDoNotOverlap(s: Strategy, c: Config, setting: Setting, candles: seq<Candle>, n: nat)
    requires 0 < n <= |candles| && Chronological(candles)
    ensures Timeline(Simulated(s, c, setting, candles, n), candles[n - 1].at)
  {
    hide Step, BookOk;
    if n > 2 {
      TradesDoNotOverlap(s, c, setting, candles, n - 1);
      RunKeepsOk(s, c, setting, candles, n - 1);
      var bar := BarAt(s, setting, candles, n - 1);
      assert bar.candle == candles[n - 1];
      StepKeepsTimeline(PlanOf(s), c, Simulated(s, c, setting, candles, n - 1), bar, candles[n - 2].at);
    }
  }

  // ----- fixed costs do not interfere with decisions

  /** Configurations that differ in nothing the simulator reads but spread and commission. */
  predicate SameMarket(a: Config, b: Config) {
    a.slippage == b.slippage && a.tick == b.tick
  }

  function FixedCost(c: Config): real {
    c.spread + c.commission
  }

  /** The same trade with its profit changed by `by`. */
  function Repriced(t: Trade, delta: real): Trade {
    t.(pnl := t.pnl + delta)
  }

  ghost predicate RepricedBook(a: Book, b: Book, delta: real) {
    && a.open == b.open
    && |a.trades| == |b.trades|
    && (forall i :: 0 <= i < |a.trades| ==> b.trades[i] == Repriced(a.trades[i], delta))
  }

  lemma {:induction false} BookAllIgnoresFixedCosts(d: Direction, a: Config, b: Config, pos: Position,
      fills: seq<Fill>, at: int)
    requires SameMarket(a, b)
    ensures BookAll(d, a, pos, fills, at) == BookAll(d, b, pos, fills, at)
    decreases |fills|
  {
    if fills != [] {
      BookAllIgnoresFixedCosts(d, a, b, pos, fills[..|fills| - 1], at);
    }
  }

  lemma StepIgnoresFixedCosts(p: Plan, a: Config, b: Config, x: Book, y: Book, bar: Bar)
    requires SameMarket(a, b) && RepricedBook(x, y, FixedCost(a) - FixedCost(b))
    ensures RepricedBook(Step(p, a, x, bar), Step(p, b, y, bar), FixedCost(a) - FixedCost(b))
    ensures Opened(p, a, bar) == Opened(p, b, bar)
  {
    hide BarFills, ProtectionLevels, MovedStop;
    var holding := if x.open.Some? then x.open else Opened(p, a, bar);
    if holding.Some? {
      var seen := Excursions(Direct(p), holding.value, bar.candle);
      var taken := BarFills(Direct(p), seen, bar);
      BookAllIgnoresFixedCosts(Direct(p), a, b, seen.(hit := taken.hit), taken.fills, bar.candle.at);
      assert Manage(p, a, holding.value, bar) == Manage(p, b, holding.value, bar);
    }
  }

  /** Changing spread and commission changes no entry, stop, target, exit or reason; it moves
      every trade's profit by exactly the difference of the fixed costs. */
  lemma {:induction false} FixedCostsDoNotInterfere(s: Strategy, a: Config, b: Config, setting: Setting,
      candles: seq<Candle>, n: nat)
    requires n <= |candles| && SameMarket(a, b)
    ensures RepricedBook(Simulated(s, a, setting, candles, n), Simulated(s, b, setting, candles, n),
                         FixedCost(a) - FixedCost(b))
  {
    hide Step, BarAt, RepricedBook, FixedCost;
    if n <= 2 {
      assert RepricedBook(EMPTY_BOOK, EMPTY_BOOK, FixedCost(a) - FixedCost(b)) by {
        NothingToReprice(FixedCost(a) - FixedCost(b));
      }
    } else {
      FixedCostsDoNotInterfere(s, a, b, setting, candles, n - 1);
      StepIgnoresFixedCosts(PlanOf(s), a, b, Simulated(s, a, setting, candles, n - 1),
                            Simulated(s, b, setting, candles, n - 1), BarAt(s, setting, candles, n - 1));
    }
  }

  lemma NothingToReprice(delta: real)
    ensures RepricedBook(EMPTY_BOOK, EMPTY_BOOK, delta)
  {
  }
}
