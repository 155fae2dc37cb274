/** Trade ledger metrics and the risk-normalized account: one pass over the trades, proved
    equal to what the figures mean. */
module Accounting {
  import opened Numbers
  import opened Protection

  function Pnls(trades: seq<Trade>): seq<real> {
    seq(|trades|, i requires 0 <= i < |trades| => trades[i].pnl)
  }

  // ----- drawdown

  /** Equity after the first `k` results. */
  function Equity(start: real, pnls: seq<real>, k: nat): real
    requires k <= |pnls|
  {
    start + Sum(pnls[..k])
  }

  function Peak(start: real, pnls: seq<real>): real {
    if pnls == [] then start else Max(Peak(start, pnls[..|pnls| - 1]), Equity(start, pnls, |pnls|))
  }

  /** The running form: the drop from the running peak, maximized as it goes. */
  function MaxDrawdown(start: real, pnls: seq<real>): real {
    if pnls == [] then 0.0
    else Max(MaxDrawdown(start, pnls[..|pnls| - 1]), Peak(start, pnls) - Equity(start, pnls, |pnls|))
  }

  ghost predicate IsPeak(start: real, pnls: seq<real>, peak: real) {
    && (forall i :: 0 <= i <= |pnls| ==> Equity(start, pnls, i) <= peak)
    && exists i :: 0 <= i <= |pnls| && Equity(start, pnls, i) == peak
  }

  ghost predicate Drop(start: real, pnls: seq<real>, i: nat, j: nat, drop: real) {
    i <= j <= |pnls| && Equity(start, pnls, i) - Equity(start, pnls, j) == drop
  }

  /** The largest fall of equity from an earlier point, the start included, to a later one. */
  ghost predicate IsLargestDrop(start: real, pnls: seq<real>, drop: real) {
    && (forall i: nat, j: nat, d :: Drop(start, pnls, i, j, d) ==> d <= drop)
    && exists i: nat, j: nat :: Drop(start, pnls, i, j, drop)
  }

  lemma EquityOfPrefix(start: real, pnls: seq<real>, n: nat, k: nat)
    requires k <= n <= |pnls|
    ensures Equity(start, pnls[..n], k) == Equity(start, pnls, k)
  {
    assert pnls[..n][..k] == pnls[..k];
  }

  lemma {:induction false} PeakIsHighest(start: real, pnls: seq<real>)
    ensures IsPeak(start, pnls, Peak(start, pnls))
  {
    if pnls == [] {
      assert Equity(start, pnls, 0) == start;
    } else {
      var init := pnls[..|pnls| - 1];
      PeakIsHighest(start, init);
      forall i | 0 <= i <= |init| ensures Equity(start, pnls, i) == Equity(start, init, i) {
        EquityOfPrefix(start, pnls, |init|, i);
      }
      var i :| 0 <= i <= |init| && Equity(start, init, i) == Peak(start, init);
      assert Equity(start, pnls, i) == Peak(start, init);
    }
  }

  lemma DropOfPrefix(start: real, pnls: seq<real>, i: nat, j: nat, drop: real)
    requires pnls != [] && j < |pnls|
    ensures Drop(start, pnls[..|pnls| - 1], i, j, drop) <==> Drop(start, pnls, i, j, drop)
  {
    if i <= j {
      EquityOfPrefix(start, pnls, |pnls| - 1, i);
      EquityOfPrefix(start, pnls, |pnls| - 1, j);
    }
  }

  lemma LargestDropStep(start: real, pnls: seq<real>, before: real, peak: real)
    requires pnls != [] && IsLargestDrop(start, pnls[..|pnls| - 1], before) && IsPeak(start, pnls, peak)
    ensures IsLargestDrop(start, pnls, Max(before, peak - Equity(start, pnls, |pnls|)))
  {
    hide Equity;
    var n := |pnls|;
    var after := Max(before, peak - Equity(start, pnls, n));
    forall i: nat, j: nat, d | Drop(start, pnls, i, j, d) ensures d <= after {
      if j < n {
        DropOfPrefix(start, pnls, i, j, d);
      }
    }
    if after == before {
      var i: nat, j: nat :| Drop(start, pnls[..n - 1], i, j, before);
      DropOfPrefix(start, pnls, i, j, before);
    } else {
      var i :| 0 <= i <= n && Equity(start, pnls, i) == peak;
      assert Drop(start, pnls, i, n, after);
    }
  }

  /** Running-peak drawdown is the largest drop over all pairs of points. */
  lemma {:induction false} DrawdownIsLargestDrop(start: real, pnls: seq<real>)
    ensures IsLargestDrop(start, pnls, MaxDrawdown(start, pnls))
  {
    if pnls == [] {
      assert Drop(start, pnls, 0, 0, 0.0);
    } else {
      hide IsLargestDrop, IsPeak, Peak, Equity;
      DrawdownIsLargestDrop(start, pnls[..|pnls| - 1]);
      PeakIsHighest(start, pnls);
      LargestDropStep(start, pnls, MaxDrawdown(start, pnls[..|pnls| - 1]), Peak(start, pnls));
    }
  }

  /** Drawdown latches: a longer history never has a smaller one. */
  lemma {:induction false} DrawdownOnlyGrows(start: real, pnls: seq<real>, k: nat)
    requires k <= |pnls|
    ensures MaxDrawdown(start, pnls[..k]) <= MaxDrawdown(start, pnls)
    decreases |pnls|
  {
    if k == |pnls| {
      assert pnls[..k] == pnls;
    } else {
      DrawdownOnlyGrows(start, pnls[..|pnls| - 1], k);
      assert pnls[..|pnls| - 1][..k] == pnls[..k];
    }
  }

  // ----- streaks

  /** The results that are not zero, in order. */
  function Decided(pnls: seq<real>): seq<real> {
    if pnls == [] then []
    else
      var rest := Decided(pnls[..|pnls| - 1]);
      if pnls[|pnls| - 1] == 0.0 then rest else rest + [pnls[|pnls| - 1]]
  }

  predicate Counts(x: real, winning: bool) {
    if winning then x > 0.0 else x < 0.0
  }

  ghost predicate Run(xs: seq<real>, from: nat, length: nat, winning: bool) {
    from + length <= |xs| && forall k :: from <= k < from + length ==> Counts(xs[k], winning)
  }

  ghost predicate IsLongestRun(xs: seq<real>, length: nat, winning: bool) {
    && (exists from: nat :: Run(xs, from, length, winning))
    && forall from: nat, l: nat :: Run(xs, from, l, winning) ==> l <= length
  }

  ghost predicate IsTrailingRun(xs: seq<real>, length: nat, winning: bool) {
    && length <= |xs| && Run(xs, |xs| - length, length, winning)
    && (length < |xs| ==> !Counts(xs[|xs| - length - 1], winning))
  }

  lemma StreakStep(xs: seq<real>, x: real, trailing: nat, longest: nat, winning: bool)
    requires IsTrailingRun(xs, trailing, winning) && IsLongestRun(xs, longest, winning)
    ensures
      var next: nat := if Counts(x, winning) then trailing + 1 else 0;
      && IsTrailingRun(xs + [x], next, winning)
      && IsLongestRun(xs + [x], MaxNat(longest, next), winning)
  {
    var ys := xs + [x];
    var next: nat := if Counts(x, winning) then trailing + 1 else 0;
    var best := MaxNat(longest, next);
    forall from: nat, l: nat | Run(ys, from, l, winning) ensures l <= best {
      if from + l <= |xs| {
        assert forall k :: from <= k < from + l ==> xs[k] == ys[k];
        assert Run(xs, from, l, winning);
      } else {
        assert next < |ys| ==> !Counts(ys[|ys| - next - 1], winning);
        assert l <= next;
      }
    }
    if best == longest {
      var from: nat :| Run(xs, from, longest, winning);
      assert Run(ys, from, best, winning);
    } else {
      assert Run(ys, |ys| - next, next, winning);
    }
  }

  // ----- ledger

  datatype Ledger = Ledger(
    tradeCount: nat, winRate: real, expectancy: real, r: real, maxDrawdown: real,
    averageWinner: real, averageLoser: real, profitFactor: real, mae: real, mfe: real,
    maxWinStreak: nat, maxLossStreak: nat)

  function Chosen(pnls: seq<real>, winning: bool): seq<real> {
    if pnls == [] then []
    else
      var rest := Chosen(pnls[..|pnls| - 1], winning);
      if Counts(pnls[|pnls| - 1], winning) then rest + [pnls[|pnls| - 1]] else rest
  }

  function MeanOrZero(xs: seq<real>): real {
    if xs == [] then 0.0 else Sum(xs) / |xs| as real
  }

  function RMultiples(trades: seq<Trade>): seq<real> {
    seq(|trades|, i requires 0 <= i < |trades| =>
      if trades[i].risk > 0.0 then trades[i].pnl / trades[i].risk else 0.0)
  }

  /** Winners and losers partition the profit. */
  lemma {:induction false} WinnersAndLosersAddUp(pnls: seq<real>)
    ensures Sum(pnls) == Sum(Chosen(pnls, true)) + Sum(Chosen(pnls, false))
    ensures Sum(Chosen(pnls, false)) <= 0.0 <= Sum(Chosen(pnls, true))
    ensures |Chosen(pnls, true)| + |Chosen(pnls, false)| == |Decided(pnls)|
  {
    if pnls != [] {
      var init, x := pnls[..|pnls| - 1], pnls[|pnls| - 1];
      WinnersAndLosersAddUp(init);
      SumSnoc(Chosen(init, true), x);
      SumSnoc(Chosen(init, false), x);
    }
  }

  lemma NoRunInNothing()
    ensures forall winning :: IsTrailingRun([], 0, winning) && IsLongestRun([], 0, winning)
  {
    assert Run([], 0, 0, true) && Run([], 0, 0, false);
  }

  lemma TrailingIsNoLonger(xs: seq<real>, trailing: nat, longest: nat, winning: bool)
    requires IsTrailingRun(xs, trailing, winning) && IsLongestRun(xs, longest, winning)
    ensures trailing <= longest
  {
  }

  ghost predicate StreakTracks(pnls: seq<real>, trailing: nat, longest: nat, winning: bool) {
    && IsTrailingRun(Decided(pnls), trailing, winning)
    && IsLongestRun(Decided(pnls), longest, winning)
  }

  /** A result of zero leaves a streak alone, the opposite sign ends it. */
  function NextStreak(streak: nat, pnl: real, winning: bool): nat {
    if Counts(pnl, winning) then streak + 1 else if pnl == 0.0 then streak else 0
  }

  lemma StreakTracksStep(pnls: seq<real>, pnl: real, trailing: nat, longest: nat, winning: bool)
    requires StreakTracks(pnls, trailing, longest, winning)
    ensures
      var next := NextStreak(trailing, pnl, winning);
      StreakTracks(pnls + [pnl], next, MaxNat(longest, next), winning)
  {
    hide IsTrailingRun, IsLongestRun;
    assert (pnls + [pnl])[..|pnls|] == pnls;
    if pnl == 0.0 {
      TrailingIsNoLonger(Decided(pnls), trailing, longest, winning);
    } else {
      StreakStep(Decided(pnls), pnl, trailing, longest, winning);
    }
  }

  ghost predicate DrawdownTracks(start: real, pnls: seq<real>, equity: real, peak: real, maxDd: real) {
    equity == start + Sum(pnls) && peak == Peak(start, pnls) && maxDd == MaxDrawdown(start, pnls)
  }

  lemma DrawdownTracksStep(start: real, pnls: seq<real>, equity: real, peak: real, maxDd: real, pnl: real)
    requires DrawdownTracks(start, pnls, equity, peak, maxDd)
    ensures
      var nextPeak := Max(peak, equity + pnl);
      DrawdownTracks(start, pnls + [pnl], equity + pnl, nextPeak, Max(maxDd, nextPeak - (equity + pnl)))
  {
    var next := pnls + [pnl];
    assert next[..|pnls|] == pnls && next[..|next|] == next;
    SumSnoc(pnls, pnl);
  }

  /** The drawdown and streak loop of `metrics`. */
  method DrawdownAndStreaks(pnls: seq<real>) returns (maxDd: real, maxWin: nat, maxLoss: nat)
    ensures maxDd == MaxDrawdown(0.0, pnls)
    ensures IsLongestRun(Decided(pnls), maxWin, true) && IsLongestRun(Decided(pnls), maxLoss, false)
  {
    hide Decided, Peak, MaxDrawdown, IsLongestRun, IsTrailingRun, Sum;
    var equity, peak := 0.0, 0.0;
    maxDd := 0.0;
    var winStreak: nat, lossStreak: nat := 0, 0;
    maxWin, maxLoss := 0, 0;
    NothingYet();
    for k := 0 to |pnls|
      invariant DrawdownTracks(0.0, pnls[..k], equity, peak, maxDd)
      invariant StreakTracks(pnls[..k], winStreak, maxWin, true) && StreakTracks(pnls[..k], lossStreak, maxLoss, false)
    {
      hide DrawdownTracks, StreakTracks;
      var pnl := pnls[k];
      assert pnls[..k + 1] == pnls[..k] + [pnl];
      DrawdownTracksStep(0.0, pnls[..k], equity, peak, maxDd, pnl);
      StreakTracksStep(pnls[..k], pnl, winStreak, maxWin, true);
      StreakTracksStep(pnls[..k], pnl, lossStreak, maxLoss, false);
      equity := equity + pnl;
      peak := Max(peak, equity);
      maxDd := Max(maxDd, peak - equity);
      if pnl > 0.0 {
        winStreak := winStreak + 1;
        lossStreak := 0;
      } else if pnl < 0.0 {
        lossStreak := lossStreak + 1;
        winStreak := 0;
      }
      maxWin := MaxNat(maxWin, winStreak);
      maxLoss := MaxNat(maxLoss, lossStreak);
    }
    assert pnls[..|pnls|] == pnls;
  }

  lemma NothingYet()
    ensures DrawdownTracks(0.0, [], 0.0, 0.0, 0.0)
    ensures StreakTracks([], 0, 0, true) && StreakTracks([], 0, 0, false)
  {
    NoRunInNothing();
  }

  function Maes(trades: seq<Trade>): seq<real> {
    seq(|trades|, i requires 0 <= i < |trades| => trades[i].mae)
  }

  function Mfes(trades: seq<Trade>): seq<real> {
    seq(|trades|, i requires 0 <= i < |trades| => trades[i].mfe)
  }

  /** `metrics`: streaks are the longest runs after dropping results of zero, drawdown is the
      largest drop of equity, profit factor and means refer to the winners and losers. */
  method Metrics(trades: seq<Trade>) returns (m: Ledger)
    ensures m.tradeCount == |trades|
    ensures m.maxDrawdown == MaxDrawdown(0.0, Pnls(trades))
    ensures IsLongestRun(Decided(Pnls(trades)), m.maxWinStreak, true)
    ensures IsLongestRun(Decided(Pnls(trades)), m.maxLossStreak, false)
    ensures m.averageWinner == MeanOrZero(Chosen(Pnls(trades), true))
    ensures m.averageLoser == MeanOrZero(Chosen(Pnls(trades), false))
    ensures m.expectancy == MeanOrZero(Pnls(trades)) && m.r == MeanOrZero(RMultiples(trades))
    ensures m.winRate == if trades == [] then 0.0 else |Chosen(Pnls(trades), true)| as real / |trades| as real
    ensures
      var loss := -Sum(Chosen(Pnls(trades), false));
      m.profitFactor == if loss != 0.0 then Sum(Chosen(Pnls(trades), true)) / loss else 0.0
    ensures m.mae == MeanOrZero(Maes(trades)) && m.mfe == MeanOrZero(Mfes(trades))
  {
    hide MeanOrZero, Maes, Mfes, RMultiples, Chosen, Sum, IsLongestRun, Decided, MaxDrawdown;
    var pnls := Pnls(trades);
    var maxDd, maxWin, maxLoss := DrawdownAndStreaks(pnls);
    var winners, losers := Chosen(pnls, true), Chosen(pnls, false);
    WinnersAndLosersAddUp(pnls);
    var grossProfit, grossLoss := Sum(winners), Abs(Sum(losers));
    m := Ledger(|trades|, if trades == [] then 0.0 else |winners| as real / |trades| as real,
                MeanOrZero(pnls), MeanOrZero(RMultiples(trades)), maxDd, MeanOrZero(winners), MeanOrZero(losers),
                if grossLoss != 0.0 then grossProfit / grossLoss else 0.0,
                MeanOrZero(Maes(trades)), MeanOrZero(Mfes(trades)), maxWin, maxLoss);
  }

  /** The figures behind the ledger: a mean times its count is the sum, an R multiple times its risk is the profit,
      and winners and losers are the results above and below zero, each as often as it occurs. */
  lemma FiguresMean(trades: seq<Trade>, i: nat, x: real)
    requires i < |trades|
    ensures Pnls(trades)[i] == trades[i].pnl && Maes(trades)[i] == trades[i].mae && Mfes(trades)[i] == trades[i].mfe
    ensures trades[i].risk > 0.0 ==> Times(RMultiples(trades)[i], trades[i].risk) == trades[i].pnl
    ensures trades[i].risk <= 0.0 ==> RMultiples(trades)[i] == 0.0
    ensures multiset(Chosen(Pnls(trades), true))[x] == (if x > 0.0 then multiset(Pnls(trades))[x] else 0)
    ensures multiset(Chosen(Pnls(trades), false))[x] == (if x < 0.0 then multiset(Pnls(trades))[x] else 0)
    ensures multiset(Decided(Pnls(trades)))[x] == (if x != 0.0 then multiset(Pnls(trades))[x] else 0)
  {
    if trades[i].risk > 0.0 {
      DivMul(trades[i].pnl, trades[i].risk);
    }
    ChosenKeeps(Pnls(trades), x);
  }

  lemma {:induction false} ChosenKeeps(pnls: seq<real>, x: real)
    ensures multiset(Chosen(pnls, true))[x] == (if x > 0.0 then multiset(pnls)[x] else 0)
    ensures multiset(Chosen(pnls, false))[x] == (if x < 0.0 then multiset(pnls)[x] else 0)
    ensures multiset(Decided(pnls))[x] == (if x != 0.0 then multiset(pnls)[x] else 0)
  {
    if pnls != [] {
      ChosenKeeps(pnls[..|pnls| - 1], x);
      assert pnls == pnls[..|pnls| - 1] + [pnls[|pnls| - 1]];
    }
  }

  lemma MeanTimesCount(xs: seq<real>)
    ensures Times(MeanOrZero(xs), |xs| as real) == Sum(xs)
  {
    if xs != [] {
      DivMul(Sum(xs), |xs| as real);
    }
  }

  // ----- risk-normalized account

  const DAY := 86_400_000_000

  function DayOf(at: int): int {
    at / DAY
  }

  /** Days are the stretches of 24 hours from the first instant on. */
  lemma DayOfExactly(at: int, day: int)
    ensures DayOf(at) == day <==> day * 24 * 3600 * 1_000_000 <= at < (day + 1) * 24 * 3600 * 1_000_000
  {
  }

  /** The relative result of one trade when `riskPercent` of equity is at risk. */
  function Return(t: Trade, riskPercent: real): real
    requires t.risk > 0.0
  {
    t.pnl / t.risk * (riskPercent / 100.0)
  }

  function Gain(t: Trade, riskPercent: real, equity: real): real
    requires t.risk > 0.0
  {
    Return(t, riskPercent) * equity
  }

  ghost predicate PositiveRisks(trades: seq<Trade>) {
    forall i :: 0 <= i < |trades| ==> trades[i].risk > 0.0
  }

  /** Account results: each trade risks the same share of the equity it meets. */
  ghost function AccountPnls(start: real, trades: seq<Trade>, riskPercent: real): (pnls: seq<real>)
    requires PositiveRisks(trades)
    ensures |pnls| == |trades|
  {
    if trades == [] then []
    else
      var before := AccountPnls(start, trades[..|trades| - 1], riskPercent);
      before + [Gain(trades[|trades| - 1], riskPercent, start + Sum(before))]
  }

  /** Equity as the product of one plus each trade's return. */
  ghost function Compounded(start: real, trades: seq<Trade>, riskPercent: real): real
    requires PositiveRisks(trades)
  {
    if trades == [] then start
    else Compounded(start, trades[..|trades| - 1], riskPercent) * (1.0 + Return(trades[|trades| - 1], riskPercent))
  }

  lemma {:induction false} EquityCompounds(start: real, trades: seq<Trade>, riskPercent: real)
    requires PositiveRisks(trades)
    ensures start + Sum(AccountPnls(start, trades, riskPercent)) == Compounded(start, trades, riskPercent)
  {
    if trades != [] {
      hide Return;
      var init, t := trades[..|trades| - 1], trades[|trades| - 1];
      EquityCompounds(start, init, riskPercent);
      var before := AccountPnls(start, init, riskPercent);
      SumSnoc(before, Gain(t, riskPercent, start + Sum(before)));
      GainCompounds(start + Sum(before), Return(t, riskPercent));
    }
  }

  lemma GainCompounds(equity: real, gain: real)
    ensures equity * (1.0 + gain) == equity + gain * equity
  {
  }

  lemma {:induction false} AccountPnlsOfPrefix(start: real, trades: seq<Trade>, riskPercent: real, k: nat)
    requires PositiveRisks(trades) && k <= |trades|
    ensures AccountPnls(start, trades[..k], riskPercent) == AccountPnls(start, trades, riskPercent)[..k]
    decreases |trades|
  {
    if k == |trades| {
      assert trades[..k] == trades;
    } else {
      var init := trades[..|trades| - 1];
      AccountPnlsOfPrefix(start, init, riskPercent, k);
      assert init[..k] == trades[..k];
    }
  }

  /** The part of the results that fell on one day. */
  ghost function DayTotal(trades: seq<Trade>, pnls: seq<real>, day: int): real
    requires |trades| == |pnls|
  {
    if trades == [] then 0.0
    else
      var n := |trades| - 1;
      DayTotal(trades[..n], pnls[..n], day) + if DayOf(trades[n].exitedAt) == day then pnls[n] else 0.0
  }

  ghost predicate Closes(trades: seq<Trade>, day: int) {
    exists k :: 0 <= k < |trades| && DayOf(trades[k].exitedAt) == day
  }

  /** The loss policy looks at the largest drop and at the final total of each day. */
  ghost predicate PolicyPassed(c: Config, trades: seq<Trade>, riskPercent: real)
    requires PositiveRisks(trades)
  {
    var pnls := AccountPnls(c.initialEquity, trades, riskPercent);
    && MaxDrawdown(c.initialEquity, pnls) <= c.maxTotalLoss
    && forall day :: Closes(trades, day) ==> DayTotal(trades, pnls, day) >= -c.maxDailyLoss
  }

  datatype Account = Account(
    accountPnls: seq<real>, netProfit: real, endingEquity: real, maxDrawdown: real,
    grossProfit: real, grossLoss: real, policyPassed: bool)

  ghost function SumOver(daily: map<int, real>): real
    decreases |daily|
  {
    if exists day :: day in daily then var day :| day in daily; daily[day] + SumOver(daily - {day}) else 0.0
  }

  lemma {:induction false} SumOverAny(daily: map<int, real>, day: int)
    requires day in daily
    ensures SumOver(daily) == daily[day] + SumOver(daily - {day})
    decreases |daily|
  {
    var picked :| picked in daily && SumOver(daily) == daily[picked] + SumOver(daily - {picked});
    if picked != day {
      SumOverAny(daily - {picked}, day);
      SumOverAny(daily - {day}, picked);
      assert daily - {picked} - {day} == daily - {day} - {picked};
    }
  }

  lemma SumOverUpdate(daily: map<int, real>, day: int, x: real)
    ensures SumOver(daily[day := (if day in daily then daily[day] else 0.0) + x]) == SumOver(daily) + x
  {
    var next := daily[day := (if day in daily then daily[day] else 0.0) + x];
    SumOverAny(next, day);
    assert next - {day} == daily - {day};
    if day in daily {
      SumOverAny(daily, day);
    } else {
      assert daily - {day} == daily;
    }
  }

  ghost predicate GrossTracks(pnls: seq<real>, grossProfit: real, grossLoss: real) {
    grossProfit == Sum(Chosen(pnls, true)) && grossLoss == -Sum(Chosen(pnls, false))
  }

  lemma GrossStep(pnls: seq<real>, grossProfit: real, grossLoss: real, pnl: real)
    requires GrossTracks(pnls, grossProfit, grossLoss)
    ensures GrossTracks(pnls + [pnl], grossProfit + Max(0.0, pnl), grossLoss + Max(0.0, -pnl))
  {
    var next := pnls + [pnl];
    assert next[..|pnls|] == pnls;
    SumSnoc(Chosen(pnls, true), pnl);
    SumSnoc(Chosen(pnls, false), pnl);
  }

  ghost predicate DaysTrack(trades: seq<Trade>, pnls: seq<real>, daily: map<int, real>) {
    && |trades| == |pnls|
    && SumOver(daily) == Sum(pnls)
    && (forall day :: day in daily <==> Closes(trades, day))
    && (forall day :: DayTotal(trades, pnls, day) == if day in daily then daily[day] else 0.0)
  }

  lemma DaysStep(trades: seq<Trade>, pnls: seq<real>, daily: map<int, real>, t: Trade, pnl: real)
    requires DaysTrack(trades, pnls, daily)
    ensures
      var day := DayOf(t.exitedAt);
      DaysTrack(trades + [t], pnls + [pnl], daily[day := (if day in daily then daily[day] else 0.0) + pnl])
  {
    hide SumOver, Sum, DayOf;
    var day := DayOf(t.exitedAt);
    var ts, ps := trades + [t], pnls + [pnl];
    assert ts[..|trades|] == trades && ps[..|pnls|] == pnls;
    SumSnoc(pnls, pnl);
    SumOverUpdate(daily, day, pnl);
    forall other ensures Closes(ts, other) <==> Closes(trades, other) || other == day {
      if Closes(trades, other) {
        var i :| 0 <= i < |trades| && DayOf(trades[i].exitedAt) == other;
        assert DayOf(ts[i].exitedAt) == other;
      }
      if other == day {
        assert DayOf(ts[|trades|].exitedAt) == other;
      }
    }
    forall other ensures DayTotal(ts, ps, other) == DayTotal(trades, pnls, other) + if other == day then pnl else 0.0 {
    }
  }

  /** `risk_normalized_account_metrics`: refuses a trade without positive risk, otherwise one
      pass whose figures agree with each other and with their definitions. */
  method AccountMetrics(trades: seq<Trade>, c: Config, riskPercent: real) returns (r: Result<Account, string>)
    ensures r.Success? <==> PositiveRisks(trades)
    ensures r.Success? ==>
      var a := r.value;
      && a.accountPnls == AccountPnls(c.initialEquity, trades, riskPercent)
      && a.netProfit == Sum(a.accountPnls) == a.grossProfit - a.grossLoss
      && a.grossProfit == Sum(Chosen(a.accountPnls, true)) && a.grossLoss == -Sum(Chosen(a.accountPnls, false))
      && a.endingEquity == c.initialEquity + a.netProfit == Compounded(c.initialEquity, trades, riskPercent)
      && a.maxDrawdown == MaxDrawdown(c.initialEquity, a.accountPnls)
      && (a.policyPassed <==> PolicyPassed(c, trades, riskPercent))
      && exists daily :: DaysTrack(trades, a.accountPnls, daily) && a.netProfit == SumOver(daily)
  {
    hide SumOver, Gain, Peak, MaxDrawdown, Closes, DayTotal, Compounded, Sum, Chosen, PositiveRisks;
    var equity, peak := c.initialEquity, c.initialEquity;
    var maxDd, grossProfit, grossLoss := 0.0, 0.0, 0.0;
    var daily: map<int, real> := map[];
    var pnls: seq<real> := [];
    NothingTracked(c.initialEquity);
    for k := 0 to |trades|
      invariant PositiveRisks(trades[..k])
      invariant pnls == AccountPnls(c.initialEquity, trades[..k], riskPercent)
      invariant DrawdownTracks(c.initialEquity, pnls, equity, peak, maxDd)
      invariant GrossTracks(pnls, grossProfit, grossLoss)
      invariant DaysTrack(trades[..k], pnls, daily)
    {
      hide DrawdownTracks, GrossTracks, DaysTrack, AccountPnls, DayOf;
      RisksStep(trades, k);
      if trades[k].risk <= 0.0 {
        return Failure("simulated trade risk must be positive");
      }
      EquityTracked(c.initialEquity, pnls, equity, peak, maxDd);
      AccountPnlsStep(c.initialEquity, trades, riskPercent, k);
      var pnl := Gain(trades[k], riskPercent, equity);
      DrawdownTracksStep(c.initialEquity, pnls, equity, peak, maxDd, pnl);
      GrossStep(pnls, grossProfit, grossLoss, pnl);
      DaysStep(trades[..k], pnls, daily, trades[k], pnl);
      assert trades[..k + 1] == trades[..k] + [trades[k]];
      pnls := pnls + [pnl];
      equity := equity + pnl;
      peak := Max(peak, equity);
      maxDd := Max(maxDd, peak - equity);
      grossProfit := grossProfit + Max(0.0, pnl);
      grossLoss := grossLoss + Max(0.0, -pnl);
      var day := DayOf(trades[k].exitedAt);
      daily := daily[day := (if day in daily then daily[day] else 0.0) + pnl];
    }
    assert trades[..|trades|] == trades;
    hide AccountPnls;
    EquityCompounds(c.initialEquity, trades, riskPercent);
    WinnersAndLosersAddUp(pnls);
    var policy := maxDd <= c.maxTotalLoss && forall day | day in daily :: daily[day] >= -c.maxDailyLoss;
    r := Success(Account(pnls, equity - c.initialEquity, equity, maxDd, grossProfit, grossLoss, policy));
  }

  lemma NothingTracked(start: real)
    ensures PositiveRisks([])
    ensures DrawdownTracks(start, [], start, start, 0.0) && GrossTracks([], 0.0, 0.0)
    ensures DaysTrack([], [], map[])
  {
  }

  lemma EquityTracked(start: real, pnls: seq<real>, equity: real, peak: real, maxDd: real)
    requires DrawdownTracks(start, pnls, equity, peak, maxDd)
    ensures equity == start + Sum(pnls)
  {
  }

  lemma RisksStep(trades: seq<Trade>, k: nat)
    requires k < |trades| && PositiveRisks(trades[..k])
    ensures PositiveRisks(trades[..k + 1]) <==> trades[k].risk > 0.0
    ensures PositiveRisks(trades) ==> trades[k].risk > 0.0
  {
    assert trades[..k + 1] == trades[..k] + [trades[k]];
  }

  lemma AccountPnlsStep(start: real, trades: seq<Trade>, riskPercent: real, k: nat)
    requires k < |trades| && PositiveRisks(trades[..k]) && trades[k].risk > 0.0 && PositiveRisks(trades[..k + 1])
    ensures
      var before := AccountPnls(start, trades[..k], riskPercent);
      AccountPnls(start, trades[..k + 1], riskPercent) == before + [Gain(trades[k], riskPercent, start + Sum(before))]
  {
    assert trades[..k + 1][..k] == trades[..k];
  }

  // ----- which part of the loss policy latches

  /** A drawdown breach is never undone by later trades. */
  lemma DrawdownBreachLatches(c: Config, trades: seq<Trade>, riskPercent: real, k: nat)
    requires PositiveRisks(trades) && k <= |trades|
    requires MaxDrawdown(c.initialEquity, AccountPnls(c.initialEquity, trades[..k], riskPercent)) > c.maxTotalLoss
    ensures !PolicyPassed(c, trades, riskPercent)
  {
    AccountPnlsOfPrefix(c.initialEquity, trades, riskPercent, k);
    DrawdownOnlyGrows(c.initialEquity, AccountPnls(c.initialEquity, trades, riskPercent), k);
  }
}
