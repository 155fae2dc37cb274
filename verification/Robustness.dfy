/** Chronological robustness checks: a partition is simulated on a window that adds at most
    forty warm-up candles, instead of on the whole history. */
module Robustness {
  import opened Numbers
  import opened Signals
  import opened Protection
  import opened ProtectionRuns
  import ProtectionProofs

  const WARMUP := 40

  /** The entry instants of a partition. */
  function EntryTimes(candles: seq<Candle>, start: nat, end: nat, blockedAt: int -> bool): set<int>
    requires start <= end <= |candles|
  {
    set k | start <= k < end && !blockedAt(candles[k].at) :: candles[k].at
  }

  /** Robustness runs carry no calendar, so the news state is unknown throughout. */
  function PartitionSetting(candles: seq<Candle>, start: nat, end: nat, blockedAt: int -> bool): Setting
    requires start <= end <= |candles|
  {
    Setting(Some(EntryTimes(candles, start, end, blockedAt)), blockedAt, FromCalendar(at => -2.0), true)
  }

  function WindowStart(start: nat): nat {
    if start < WARMUP then 0 else start - WARMUP
  }

  /** What `evaluate` simulates. */
  function Windowed(s: Strategy, c: Config, candles: seq<Candle>, start: nat, end: nat, blockedAt: int -> bool): Book
    requires start <= end <= |candles|
  {
    Simulation(s, c, PartitionSetting(candles, start, end, blockedAt), candles[WindowStart(start)..end])
  }

  /** The same partition evaluated with the whole past as warm-up. */
  function FullHistory(s: Strategy, c: Config, candles: seq<Candle>, start: nat, end: nat, blockedAt: int -> bool): Book
    requires start <= end <= |candles|
  {
    Simulation(s, c, PartitionSetting(candles, start, end, blockedAt), candles[..end])
  }

  ghost predicate NoTechnical(s: Strategy) {
    forall prefix :: s.technical(prefix) == map[]
  }

  /** A strategy names at least one entry and one exit condition. */
  predicate Complete(s: Strategy) {
    s.entry != [] && s.exit != []
  }

  ghost predicate ShortMemory(s: Strategy) {
    s.window <= 39 && s.atrPeriod.None? && NoTechnical(s)
  }

  lemma BackInWindow(candles: seq<Candle>, from: nat, end: nat, index: nat, count: nat)
    requires from + count <= index < end <= |candles|
    ensures Back(candles[from..end], index - from, count) == Back(candles[..end], index, count)
  {
    SliceOfSlice(candles, from, end, index - from - count, index - from + 1);
    SliceOfSlice(candles, 0, end, index - count, index + 1);
    assert candles[..end] == candles[0..end];
  }

  lemma SliceOfSlice<T>(xs: seq<T>, from: nat, end: nat, a: nat, b: nat)
    requires from + a <= from + b <= end <= |xs|
    ensures xs[from..end][a..b] == xs[from + a..from + b]
  {
    forall i | 0 <= i < b - a ensures xs[from..end][a..b][i] == xs[from + a..from + b][i] {
      assert xs[from..end][a + i] == xs[from + a + i];
    }
  }

  lemma FeaturesInWindow(s: Strategy, candles: seq<Candle>, from: nat, end: nat, index: nat)
    requires ShortMemory(s) && from + 39 <= index < end <= |candles|
    ensures StrategyFeatures(s, candles[from..end], index - from) == StrategyFeatures(s, candles[..end], index)
  {
    hide WindowFeatures, Back;
    BackInWindow(candles, from, end, index, 39);
    BackInWindow(candles, from, end, index, 4);
    BackInWindow(candles, from, end, index, s.window);
    BackInWindow(candles, from, end, index, s.window - 1);
    assert s.technical(candles[from..end][..index - from + 1]) == map[];
    assert s.technical(candles[..end][..index + 1]) == map[];
  }

  lemma BarsInWindow(s: Strategy, setting: Setting, candles: seq<Candle>, from: nat, end: nat, i: nat)
    requires ShortMemory(s) && from + 40 <= i < end <= |candles|
    ensures BarAt(s, setting, candles[from..end], i - from) == BarAt(s, setting, candles[..end], i)
  {
    hide StrategyFeatures, EntryMatches, Matches, RegimeFromFeatures;
    FeaturesInWindow(s, candles, from, end, i - 1);
  }

  /** Nothing opens while no candle is an allowed entry. */
  lemma {:induction false} NoEntryNoTrade(s: Strategy, c: Config, setting: Setting, candles: seq<Candle>, n: nat)
    requires n <= |candles|
    requires forall k :: 2 <= k < n ==> !MayEnterAt(setting, candles[k].at)
    ensures Simulated(s, c, setting, candles, n) == EMPTY_BOOK
  {
    hide Opened, BarAt, MayEnterAt, Manage;
    if n > 2 {
      NoEntryNoTrade(s, c, setting, candles, n - 1);
      var bar := BarAt(s, setting, candles, n - 1);
      BarIsOfItsCandle(s, setting, candles, n - 1);
      NotAdmittedNotOpened(PlanOf(s), c, bar);
    }
  }

  lemma NotAdmittedNotOpened(p: Plan, c: Config, bar: Bar)
    ensures !bar.admitted ==> Opened(p, c, bar).None?
  {
  }

  lemma {:induction false} RunsInWindow(s: Strategy, c: Config, setting: Setting, candles: seq<Candle>, from: nat,
                                        end: nat, n: nat)
    requires ShortMemory(s) && from + 40 <= n <= end <= |candles|
    requires forall k :: 0 <= k < from + 40 ==> !MayEnterAt(setting, candles[k].at)
    ensures Simulated(s, c, setting, candles[from..end], n - from) == Simulated(s, c, setting, candles[..end], n)
    decreases n
  {
    hide Step, BarAt, MayEnterAt;
    if n == from + 40 {
      NoEntryNoTrade(s, c, setting, candles[..end], n);
      forall k | 2 <= k < 40 ensures !MayEnterAt(setting, candles[from..end][k].at) {
        assert candles[from..end][k] == candles[from + k];
      }
      NoEntryNoTrade(s, c, setting, candles[from..end], 40);
    } else {
      RunsInWindow(s, c, setting, candles, from, end, n - 1);
      BarsInWindow(s, setting, candles, from, end, n - 1);
    }
  }

  /** Forty warm-up candles are enough for every strategy with a short memory: windowed
      evaluation equals full-history evaluation, trade by trade. */
  lemma WarmupIsEnough(s: Strategy, c: Config, candles: seq<Candle>, start: nat, end: nat, blockedAt: int -> bool)
    requires ShortMemory(s) && Chronological(candles) && start <= end <= |candles|
    ensures Windowed(s, c, candles, start, end, blockedAt) == FullHistory(s, c, candles, start, end, blockedAt)
  {
    hide Simulated;
    var from := WindowStart(start);
    var setting := PartitionSetting(candles, start, end, blockedAt);
    if from == 0 {
      assert candles[0..end] == candles[..end];
    } else {
      forall k | 0 <= k < from + 40 ensures !MayEnterAt(setting, candles[k].at) {
      }
      RunsInWindow(s, c, setting, candles, from, end, end);
    }
  }

  // ----- forty candles are not enough for a longer memory

  function Quiet(at: int): Candle {
    Candle(at, 1.5, 2.0, 1.0, 1.5, 0.0)
  }

  /** A quiet history after one wide first candle. */
  function SpikeFirst(n: nat): seq<Candle> {
    seq(n, i => if i == 0 then Candle(0, 1.5, 10.0, 1.0, 9.0, 0.0) else Quiet(i))
  }

  /** Buys on one condition, leaves on a negative price, with a stop and a target far from a quiet candle. */
  function Probe(feature: string, above: real, window: Window, atrPeriod: Option<Period>): Strategy {
    Strategy([], [Condition(feature, Gt, Number(above))], [], [], [Condition("close", Lt, Number(0.0))], [],
             false, false, window, atrPeriod, prefix => map[], Rules(Long, 0.01, [100000.0]))
  }

  const PLAIN: Config := Configuration(1.0, 0.0, 0.0, 0.0, None, 1.0, 1.0)

  lemma ProbeNeedsNoNews(feature: string, above: real, window: Window, atrPeriod: Option<Period>)
    requires feature != "news_regime"
    ensures !RequiresNewsContext(Probe(feature, above, window, atrPeriod))
  {
  }

  /** A single allowed candle at the end of the history trades exactly when its bar opens a position. */
  lemma LastCandleDecides(s: Strategy, c: Config, setting: Setting, candles: seq<Candle>)
    requires |candles| > 2 && setting.closeAtEnd
    requires forall k :: 0 <= k < |candles| - 1 ==> !MayEnterAt(setting, candles[k].at)
    ensures
      var bar := BarAt(s, setting, candles, |candles| - 1);
      |Simulation(s, c, setting, candles).trades| == if Opened(PlanOf(s), c, bar).Some? then 1 else 0
  {
    hide Opened, BarAt, Manage, MayEnterAt;
    var n := |candles|;
    NoEntryNoTrade(s, c, setting, candles, n - 1);
    ProtectionProofs.SimulationConserves(s, c, setting, candles);
    assert Simulation(s, c, setting, candles) == Step(PlanOf(s), c, EMPTY_BOOK, BarAt(s, setting, candles, n - 1));
  }

  lemma ProbeOpens(feature: string, above: real, window: Window, atrPeriod: Option<Period>,
                   setting: Setting, candles: seq<Candle>, i: nat)
    requires feature in {"prior_high", "volatility"} && 1 <= i < |candles|
    requires candles[i].open == 1.5 && MayEnterAt(setting, candles[i].at)
    ensures
      var s := Probe(feature, above, window, atrPeriod);
      var f := StrategyFeatures(s, candles, i - 1);
      && (feature in f && f[feature] <= above ==> Opened(PlanOf(s), PLAIN, BarAt(s, setting, candles, i)).None?)
      && (feature in f && f[feature] > above && 0.0 < f["volatility"] <= 100.0 ==>
            Opened(PlanOf(s), PLAIN, BarAt(s, setting, candles, i)).Some?)
  {
    hide StrategyFeatures, RequiresNewsContext, ProtectionLevels, RegimeFromFeatures, MayEnterAt;
    var s := Probe(feature, above, window, atrPeriod);
    var f := StrategyFeatures(s, candles, i - 1);
    var g := PointFeatures(s, setting, candles, i);
    ProbeNeedsNoNews(feature, above, window, atrPeriod);
    if feature in f {
      assert g[feature] == f[feature] && g["volatility"] == f["volatility"];
      assert Matches(s.entry, g) <==> Holds(s.entry[0], g);
      assert EntryMatches(s, g) <==> f[feature] > above;
      if f[feature] > above && 0.0 < f["volatility"] <= 100.0 {
        FarLevelsAreAccepted(s.rules, f["volatility"]);
      }
    }
  }

  lemma FarLevelsAreAccepted(rules: TradeRules, volatility: real)
    requires rules == Rules(Long, 0.01, [100000.0]) && 0.0 < volatility <= 100.0
    ensures ProtectionLevels(rules, 1.5, volatility, None).Some?
  {
    var stop := StopLevel(rules, 1.5, volatility, None);
    assert stop == 1.5 - volatility * 0.01;
    var targets := TargetLevels(rules, 1.5, stop, None);
    assert targets == [targets[0]] && targets[0] > 0.0;
    assert Elements(targets) == {targets[0]};
  }

  // ----- what the probes see

  lemma {:induction false} MaxHighBounds(cs: seq<Candle>, high: real)
    requires cs != []
    ensures (forall i :: 0 <= i < |cs| ==> cs[i].high <= high) ==> MaxHigh(cs) <= high
    ensures forall i :: 0 <= i < |cs| ==> cs[i].high <= MaxHigh(cs)
  {
    if |cs| > 1 {
      MaxHighBounds(cs[..|cs| - 1], high);
      assert forall i :: 0 <= i < |cs| - 1 ==> cs[i] == cs[..|cs| - 1][i];
    }
  }

  lemma QuietMeanRange(cs: seq<Candle>)
    requires cs != [] && forall i :: 0 <= i < |cs| ==> cs[i].high == 2.0 && cs[i].low == 1.0
    ensures Mean(Ranges(cs)) == 1.0
  {
    SumInEnvelope(Ranges(cs), 1.0, 1.0);
  }

  lemma PriorHighFeature(s: Strategy, candles: seq<Candle>, index: nat)
    requires NoTechnical(s) && s.atrPeriod.None? && index < |candles|
    ensures
      var f := StrategyFeatures(s, candles, index);
      && "prior_high" in f && f["prior_high"] == MaxHigh(Prior(candles, index, s.window))
      && f["volatility"] == Mean(Ranges(Back(candles, index, 4)))
  {
    hide RegimeFeatures, MaxHigh, MinLow, Mean, Back, Prior;
    assert s.technical(candles[..index + 1]) == map[];
  }

  lemma AtrFeature(s: Strategy, candles: seq<Candle>, index: nat)
    requires NoTechnical(s) && s.atrPeriod.Some? && index < |candles|
    ensures StrategyFeatures(s, candles, index)["volatility"] == Atr(candles, index, s.atrPeriod.value)
  {
    hide RegimeFeatures, MaxHigh, MinLow, Mean, Back, Prior, Atr;
    assert s.technical(candles[..index + 1]) == map[];
  }

  const ALWAYS_OPEN: int -> bool := at => false

  lemma SpikeIsChronological(n: nat)
    ensures Chronological(SpikeFirst(n))
  {
  }

  /** With a structure window of forty or more, the windowed run can miss the high that the
      full history still sees. */
  lemma LongWindowNeedsMore(window: Window)
    requires window >= 40
    ensures
      var s, candles := Probe("prior_high", 5.0, window, None), SpikeFirst(42);
      && Complete(s) && |FullHistory(s, PLAIN, candles, 41, 42, ALWAYS_OPEN).trades| == 1
      && |Windowed(s, PLAIN, candles, 41, 42, ALWAYS_OPEN).trades| == 0
  {
    hide Simulated, StrategyFeatures, Opened, BarAt, ProtectionLevels, Mean, MaxHigh;
    var s, candles := Probe("prior_high", 5.0, window, None), SpikeFirst(42);
    var setting := PartitionSetting(candles, 41, 42, ALWAYS_OPEN);
    assert MayEnterAt(setting, candles[41].at);
    var full, near := candles[..42], candles[1..42];
    assert forall i :: 0 <= i < 5 ==> Back(full, 40, 4)[i] == candles[36 + i];
    assert forall i :: 0 <= i < |Prior(near, 39, window)| ==> Prior(near, 39, window)[i] == candles[1 + i];
    PriorHighFeature(s, full, 40);
    assert Prior(full, 40, window)[0] == candles[0];
    MaxHighBounds(Prior(full, 40, window), 10.0);
    QuietMeanRange(Back(full, 40, 4));
    ProbeOpens("prior_high", 5.0, window, None, setting, full, 41);
    LastCandleDecides(s, PLAIN, setting, full);
    PriorHighFeature(s, near, 39);
    MaxHighBounds(Prior(near, 39, window), 2.0);
    assert MaxHigh(Prior(near, 39, window)) <= 2.0;
    ProbeOpens("prior_high", 5.0, window, None, setting, near, 40);
    LastCandleDecides(s, PLAIN, setting, near);
  }

  lemma {:induction false} SpikeStaysInWilder(ranges: seq<real>, period: Period)
    requires |ranges| >= period && ranges[0] == 8.0
    requires forall i :: 1 <= i < |ranges| ==> ranges[i] == 1.0
    ensures 1.0 < Wilder(ranges, period) <= 8.0
    decreases |ranges|
  {
    if |ranges| == period {
      assert ranges == ranges[..1] + ranges[1..];
      SumConcat(ranges[..1], ranges[1..]);
      SumInEnvelope(ranges[1..], 1.0, 1.0);
      assert ranges[..1] == [8.0];
      assert Sum(ranges[..1]) == 8.0 by { SumSnoc([], 8.0); assert [] + [8.0] == ranges[..1]; }
      assert Sum(ranges) == 7.0 + period as real;
      AboveOne(7.0, period);
    } else {
      var rest := ranges[..|ranges| - 1];
      SpikeStaysInWilder(rest, period);
      SmoothAboveOne(Wilder(rest, period), period);
    }
    WilderStaysInEnvelope(ranges, period, 1.0, 8.0);
  }

  lemma AboveOne(extra: real, period: Period)
    requires extra > 0.0
    ensures (extra + period as real) / period as real > 1.0
  {
    var n := period as real;
    var q := (extra + n) / n;
    DivMul(extra + n, n);
    if q <= 1.0 {
      MulLe(q, 1.0, n);
    }
  }

  lemma SmoothAboveOne(average: real, period: Period)
    requires average > 1.0
    ensures Smooth(average, 1.0, period) > 1.0
  {
    var m := (period - 1) as real;
    var weighted := average * m;
    assert weighted > m by { MulLt(1.0, average, m); }
    assert Smooth(average, 1.0, period) == (weighted + 1.0) / period as real;
    WeightedAboveOne(weighted, m, period);
  }

  lemma WeightedAboveOne(weighted: real, m: real, period: Period)
    requires weighted > m && m + 1.0 == period as real
    ensures (weighted + 1.0) / period as real > 1.0
  {
    AboveOne(weighted - m, period);
  }

  lemma SpikeRanges()
    ensures
      var candles := SpikeFirst(142);
      var full, near := TrueRanges(candles[..142][..141]), TrueRanges(candles[101..142][..40]);
      && |full| == 140 && full[0] == 8.0 && (forall i :: 1 <= i < 140 ==> full[i] == 1.0)
      && |near| == 39 && (forall i :: 0 <= i < 39 ==> near[i] == 1.0)
  {
    var candles := SpikeFirst(142);
    assert forall i :: 1 <= i < 141 ==> candles[..142][..141][i] == Quiet(i);
    assert forall i :: 0 <= i < 40 ==> candles[101..142][..40][i] == Quiet(101 + i);
    assert TrueRange(candles[0], candles[1]) == 8.0;
  }

  /** With Wilder's ATR no finite warm-up is enough: the first candle is never forgotten, and a
      period beyond the warm-up has no ATR in the window at all. */
  lemma AtrNeedsMore(window: Window, period: Period)
    ensures
      var s, candles := Probe("volatility", 1.0, window, Some(period)), SpikeFirst(142);
      && Complete(s) && |FullHistory(s, PLAIN, candles, 141, 142, ALWAYS_OPEN).trades| == 1
      && |Windowed(s, PLAIN, candles, 141, 142, ALWAYS_OPEN).trades| == 0
  {
    hide Simulated, StrategyFeatures, Opened, BarAt, ProtectionLevels, Wilder, TrueRanges;
    var s, candles := Probe("volatility", 1.0, window, Some(period)), SpikeFirst(142);
    var setting := PartitionSetting(candles, 141, 142, ALWAYS_OPEN);
    assert MayEnterAt(setting, candles[141].at);
    var full, near := candles[..142], candles[101..142];
    AtrFeature(s, full, 140);
    SpikeRanges();
    SpikeStaysInWilder(TrueRanges(full[..141]), period);
    ProbeOpens("volatility", 1.0, window, Some(period), setting, full, 141);
    LastCandleDecides(s, PLAIN, setting, full);
    AtrFeature(s, near, 39);
    if period <= 39 {
      WilderStaysInEnvelope(TrueRanges(near[..40]), period, 1.0, 1.0);
    }
    ProbeOpens("volatility", 1.0, window, Some(period), setting, near, 40);
    LastCandleDecides(s, PLAIN, setting, near);
  }

  /** A complete strategy with these parameters and no technical columns. */
  ghost predicate Configured(s: Strategy, window: Window, atrPeriod: Option<Period>) {
    Complete(s) && s.window == window && s.atrPeriod == atrPeriod && NoTechnical(s)
  }

  /** Windowed evaluation is exact for every such strategy. */
  ghost predicate WarmupSuffices(window: Window, atrPeriod: Option<Period>) {
    forall s: Strategy, c: Config, candles: seq<Candle>, start: nat, end: nat, blockedAt: int -> bool
      | Configured(s, window, atrPeriod) && Chronological(candles) && start <= end <= |candles|
      :: Windowed(s, c, candles, start, end, blockedAt) == FullHistory(s, c, candles, start, end, blockedAt)
  }

  /** Forty warm-up candles suffice exactly for structure windows up to 39 without an ATR period. */
  lemma WarmupSufficesExactly(window: Window, atrPeriod: Option<Period>)
    ensures WarmupSuffices(window, atrPeriod) <==> window <= 39 && atrPeriod.None?
  {
    hide Windowed, FullHistory;
    if window <= 39 && atrPeriod.None? {
      forall s: Strategy, c: Config, candles: seq<Candle>, start: nat, end: nat, blockedAt: int -> bool
        | Configured(s, window, atrPeriod) && Chronological(candles) && start <= end <= |candles|
        ensures Windowed(s, c, candles, start, end, blockedAt) == FullHistory(s, c, candles, start, end, blockedAt)
      {
        WarmupIsEnough(s, c, candles, start, end, blockedAt);
      }
    } else if atrPeriod.None? {
      LongWindowNeedsMore(window);
      SpikeIsChronological(42);
      assert Configured(Probe("prior_high", 5.0, window, None), window, None);
    } else {
      AtrNeedsMore(window, atrPeriod.value);
      SpikeIsChronological(142);
      assert Configured(Probe("volatility", 1.0, window, atrPeriod), window, atrPeriod);
    }
  }
}
