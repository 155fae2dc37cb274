/** Candles, point-in-time features, rule matching and protection levels. */
module Signals {
  import opened Numbers

  // `at` is an instant in microseconds.
  datatype Candle = Candle(at: int, open: real, high: real, low: real, close: real, volume: real)

  type Features = map<string, real>

  datatype Direction = Long | Short

  type Window = w: nat | 2 <= w <= 200 witness 20
  type Period = p: nat | 2 <= p <= 100 witness 14

  datatype Op = Gt | Ge | Lt | Le | Eq

  // A textual operand names a feature or, failing that, spells a numeral.
  datatype Operand = Number(value: real) | Text(name: string, numeral: Option<real>)

  datatype Condition = Condition(feature: string, op: Op, operand: Operand)

  datatype Rules = Rules(direction: Direction, stopMultiple: real, rMultiples: seq<real>)

  // The schema's bounds on price protection.
  type TradeRules = r: Rules |
    && 0.0 < r.stopMultiple <= 10.0
    && 1 <= |r.rMultiples| <= 5
    && (forall i :: 0 <= i < |r.rMultiples| ==> 0.0 < r.rMultiples[i])
    && (forall i, j :: 0 <= i < j < |r.rMultiples| ==> r.rMultiples[i] < r.rMultiples[j])
    witness Rules(Long, 1.0, [1.0])

  // `regimes` holds alternatives, each a list of upper-case tags; `technical`
  // stands for the indicator columns, evaluated on a history prefix.
  datatype Strategy = Strategy(
    regimes: seq<seq<string>>,
    entry: seq<Condition>,
    confirmations: seq<Condition>,
    filters: seq<Condition>,
    exit: seq<Condition>,
    invalidation: seq<Condition>,
    breakEven: bool,
    trailing: bool,
    window: Window,
    atrPeriod: Option<Period>,
    technical: seq<Candle> -> Features,
    rules: TradeRules)

  /** Distance in the trade's favour: `sign * x`. */
  function Signed(d: Direction, x: real): real {
    if d == Long then x else -x
  }

  // ----- candle features

  /** The candle at `index` and up to `count` candles before it. */
  function Back(candles: seq<Candle>, index: nat, count: nat): (b: seq<Candle>)
    requires index < |candles|
    ensures b != []
  {
    candles[if index < count then 0 else index - count..index + 1]
  }

  function Closes(cs: seq<Candle>): seq<real> {
    seq(|cs|, i requires 0 <= i < |cs| => cs[i].close)
  }

  function Ranges(cs: seq<Candle>): seq<real> {
    seq(|cs|, i requires 0 <= i < |cs| => cs[i].high - cs[i].low)
  }

  function Moves(cs: seq<Candle>): seq<real> {
    if cs == [] then [] else
    seq(|cs| - 1, i requires 0 <= i < |cs| - 1 => cs[i + 1].close - cs[i].close)
  }

  function MaxHigh(cs: seq<Candle>): real
    requires cs != []
  {
    if |cs| == 1 then cs[0].high else Max(MaxHigh(cs[..|cs| - 1]), cs[|cs| - 1].high)
  }

  function MinLow(cs: seq<Candle>): real
    requires cs != []
  {
    if |cs| == 1 then cs[0].low else Min(MinLow(cs[..|cs| - 1]), cs[|cs| - 1].low)
  }

  function RegimeFeatures(cs: seq<Candle>): Features {
    var moves := Moves(Last(cs, 21));
    var distance := Sum(Magnitudes(moves));
    var ranges := Ranges(Last(cs, 40));
    var latest := Last(ranges, 10);
    var recent := Sum(latest) / MaxNat(1, |latest|) as real;
    var baseline := ranges[..|ranges| - |latest|];
    var reference := if baseline != [] then Mean(baseline) else recent;
    map[
      "regime_ready" := if |cs| >= 21 then 1.0 else 0.0,
      "trend_efficiency" := if distance != 0.0 then Abs(Sum(moves)) / distance else 0.0,
      "trend_direction" := if Sum(moves) > 0.0 then 1.0 else if Sum(moves) < 0.0 then -1.0 else 0.0,
      "relative_volatility" := if reference != 0.0 then recent / reference else 0.0
    ]
  }

  /** Features of the windows that end at one candle; `prior` excludes that candle. */
  function WindowFeatures(regime: seq<Candle>, near: seq<Candle>, prior: seq<Candle>, slow: seq<Candle>): Features
    requires regime != [] && near != [] && prior != [] && slow != []
  {
    var candle := near[|near| - 1];
    var before := if |near| >= 2 then near[|near| - 2] else candle;
    RegimeFeatures(regime) + map[
      "prior_high" := MaxHigh(prior),
      "prior_low" := MinLow(prior),
      "slow_average" := Mean(Closes(slow)),
      "open" := candle.open,
      "high" := candle.high,
      "low" := candle.low,
      "close" := candle.close,
      "volume" := candle.volume,
      "momentum" := candle.close - before.close,
      "moving_average" := Mean(Closes(near)),
      "volatility" := Mean(Ranges(near))
    ]
  }

  function Prior(candles: seq<Candle>, index: nat, window: Window): (p: seq<Candle>)
    requires index < |candles|
    ensures p != []
  {
    var back := Back(candles, index, window);
    if |back| == 1 then back else back[..|back| - 1]
  }

  /** `candle_features` without an ATR period. */
  function BaseFeatures(candles: seq<Candle>, index: nat, window: Window): Features
    requires index < |candles|
  {
    WindowFeatures(Back(candles, index, 39), Back(candles, index, 4),
                   Prior(candles, index, window), Back(candles, index, window - 1))
  }

  // ----- Wilder's average true range

  function TrueRange(before: Candle, candle: Candle): real {
    Max(Max(candle.high - candle.low, Abs(candle.high - before.close)), Abs(candle.low - before.close))
  }

  function TrueRanges(cs: seq<Candle>): seq<real> {
    if cs == [] then [] else
    seq(|cs| - 1, i requires 0 <= i < |cs| - 1 => TrueRange(cs[i], cs[i + 1]))
  }

  /** Recomputed from the whole list of true ranges. */
  function Wilder(ranges: seq<real>, period: Period): real
    requires |ranges| >= period
  {
    if |ranges| == period then Sum(ranges) / period as real
    else Smooth(Wilder(ranges[..|ranges| - 1], period), ranges[|ranges| - 1], period)
  }

  /** One smoothing step. */
  function Smooth(average: real, value: real, period: Period): real {
    (average * (period - 1) as real + value) / period as real
  }

  /** Zero until `period` true ranges exist, so warm-up cannot create a protected entry. */
  function Atr(candles: seq<Candle>, index: nat, period: Period): real
    requires index < |candles|
  {
    if index < period then 0.0 else Wilder(TrueRanges(candles[..index + 1]), period)
  }

  /** `candle_features`: the volatility is the ATR when a period is configured. */
  function CandleFeatures(candles: seq<Candle>, index: nat, window: Window, atrPeriod: Option<Period>): Features
    requires index < |candles|
  {
    var base := BaseFeatures(candles, index, window);
    if atrPeriod.None? then base else base["volatility" := Atr(candles, index, atrPeriod.value)]
  }

  /** `strategy_features`: everything recomputed from the prefix that ends at `index`. */
  function StrategyFeatures(s: Strategy, candles: seq<Candle>, index: nat): (f: Features)
    requires index < |candles|
    ensures "volatility" in f
  {
    CandleFeatures(candles, index, s.window, s.atrPeriod) + s.technical(candles[..index + 1])
  }

  lemma TrueRangesSnoc(cs: seq<Candle>, i: nat)
    requires 1 <= i < |cs|
    ensures TrueRanges(cs[..i + 1]) == TrueRanges(cs[..i]) + [TrueRange(cs[i - 1], cs[i])]
  {
    hide TrueRange;
    var longer, shorter := TrueRanges(cs[..i + 1]), TrueRanges(cs[..i]);
    assert |longer| == |shorter| + 1;
    assert forall k :: 0 <= k < |shorter| ==> longer[k] == shorter[k];
  }

  lemma TrueRangesCount(candles: seq<Candle>, to: nat)
    requires 1 <= to <= |candles|
    ensures |TrueRanges(candles[..to])| == to - 1
  {
  }

  lemma WilderFirst(ranges: seq<real>, period: Period)
    requires |ranges| == period
    ensures Wilder(ranges, period) == Sum(ranges) / period as real
  {
  }

  lemma WilderNext(ranges: seq<real>, value: real, period: Period)
    requires |ranges| >= period
    ensures Wilder(ranges + [value], period) == Smooth(Wilder(ranges, period), value, period)
  {
    hide Smooth;
    assert (ranges + [value])[..|ranges|] == ranges;
  }

  /** The list of true ranges of the prefix. */
  method PrefixRanges(candles: seq<Candle>, index: nat) returns (ranges: seq<real>)
    requires index < |candles|
    ensures ranges == TrueRanges(candles[..index + 1])
  {
    ranges := [];
    assert TrueRanges(candles[..1]) == [];
    hide TrueRange, TrueRanges;
    for i := 1 to index + 1
      invariant ranges == TrueRanges(candles[..i])
    {
      TrueRangesSnoc(candles, i);
      ranges := ranges + [TrueRange(candles[i - 1], candles[i])];
    }
  }

  /** Their first mean, then smoothing. */
  method SmoothedRanges(ranges: seq<real>, period: Period) returns (volatility: real)
    requires |ranges| >= period
    ensures volatility == Wilder(ranges, period)
  {
    hide Smooth, Wilder, Sum;
    volatility := Sum(ranges[..period]) / period as real;
    WilderFirst(ranges[..period], period);
    for k := period to |ranges|
      invariant volatility == Wilder(ranges[..k], period)
    {
      assert ranges[..k + 1] == ranges[..k] + [ranges[k]];
      WilderNext(ranges[..k], ranges[k], period);
      volatility := Smooth(volatility, ranges[k], period);
    }
    assert ranges[..|ranges|] == ranges;
  }

  /** The ATR of `candle_features`, recomputed from the prefix. */
  method PrefixAtr(candles: seq<Candle>, index: nat, period: Period) returns (volatility: real)
    requires index < |candles|
    ensures volatility == Atr(candles, index, period)
  {
    if index < period {
      return 0.0;
    }
    var ranges := PrefixRanges(candles, index);
    TrueRangesCount(candles, index + 1);
    hide TrueRange, TrueRanges, Wilder;
    volatility := SmoothedRanges(ranges, period);
  }

  /** The running total and the running ATR before the candle at `index`. */
  ghost predicate AtrTracks(candles: seq<Candle>, index: nat, period: Period, total: real, atr: real)
    requires index <= |candles|
  {
    && (index <= period + 1 ==> total == Sum(TrueRanges(candles[..index])))
    && atr == if index == 0 then 0.0 else Atr(candles, index - 1, period)
  }

  lemma AtrTracksFirst(candles: seq<Candle>, index: nat, period: Period)
    requires index <= 1 && index <= |candles|
    ensures AtrTracks(candles, index, period, 0.0, 0.0)
  {
  }

  lemma AtrTracksNext(candles: seq<Candle>, index: nat, period: Period, total: real, atr: real)
    requires 1 <= index < |candles| && AtrTracks(candles, index, period, total, atr)
    ensures
      var trueRange := TrueRange(candles[index - 1], candles[index]);
      && (index < period ==> AtrTracks(candles, index + 1, period, total + trueRange, atr))
      && (index == period ==>
            AtrTracks(candles, index + 1, period, total + trueRange, (total + trueRange) / period as real))
      && (index > period ==> AtrTracks(candles, index + 1, period, total, Smooth(atr, trueRange, period)))
  {
    hide TrueRange, TrueRanges, Smooth, Wilder, Sum;
    var before, trueRange := TrueRanges(candles[..index]), TrueRange(candles[index - 1], candles[index]);
    TrueRangesCount(candles, index);
    TrueRangesSnoc(candles, index);
    SumSnoc(before, trueRange);
    if index == period {
      WilderFirst(before + [trueRange], period);
    } else if index > period {
      WilderNext(before, trueRange, period);
    }
  }

  /** One candle more in the running ATR. */
  method NextAtr(candles: seq<Candle>, index: nat, period: Period, total: real, atr: real)
    returns (nextTotal: real, nextAtr: real)
    requires index < |candles| && AtrTracks(candles, index, period, total, atr)
    ensures AtrTracks(candles, index + 1, period, nextTotal, nextAtr)
  {
    nextTotal, nextAtr := total, atr;
    if index > 0 {
      var trueRange := TrueRange(candles[index - 1], candles[index]);
      AtrTracksNext(candles, index, period, total, atr);
      hide AtrTracks, TrueRange;
      if index <= period {
        nextTotal := total + trueRange;
        if index == period {
          nextAtr := nextTotal / period as real;
        }
      } else {
        nextAtr := Smooth(atr, trueRange, period);
      }
    } else {
      AtrTracksFirst(candles, 0, period);
      AtrTracksFirst(candles, 1, period);
    }
  }

  /** `strategy_feature_series`: one pass over all candles with a running ATR, so that every
      point equals the features recomputed from its own prefix. */
  method StrategyFeatureSeries(s: Strategy, candles: seq<Candle>) returns (result: seq<Features>)
    ensures |result| == |candles|
    ensures forall i :: 0 <= i < |candles| ==> result[i] == StrategyFeatures(s, candles, i)
  {
    result := [];
    var total, atr := 0.0, 0.0;
    if s.atrPeriod.Some? {
      AtrTracksFirst(candles, 0, s.atrPeriod.value);
    }
    hide BaseFeatures, AtrTracks, Atr, StrategyFeatures, IsSeries;
    SeriesStarts(s, candles);
    for index := 0 to |candles|
      invariant |result| == index && IsSeries(s, candles, result)
      invariant s.atrPeriod.Some? ==> AtrTracks(candles, index, s.atrPeriod.value, total, atr)
    {
      if s.atrPeriod.Some? {
        total, atr := NextAtr(candles, index, s.atrPeriod.value, total, atr);
        AtrTracked(candles, index, s.atrPeriod.value, total, atr);
      }
      var point := PointAt(s, candles, index, atr);
      SeriesGrows(s, candles, result, point);
      result := result + [point];
    }
    SeriesMeans(s, candles, result);
  }

  /** The features of the first candles. */
  ghost predicate IsSeries(s: Strategy, candles: seq<Candle>, result: seq<Features>) {
    |result| <= |candles| && forall i :: 0 <= i < |result| ==> result[i] == StrategyFeatures(s, candles, i)
  }

  lemma SeriesStarts(s: Strategy, candles: seq<Candle>)
    ensures IsSeries(s, candles, [])
  {
  }

  lemma SeriesGrows(s: Strategy, candles: seq<Candle>, result: seq<Features>, point: Features)
    requires IsSeries(s, candles, result) && |result| < |candles|
    requires point == StrategyFeatures(s, candles, |result|)
    ensures IsSeries(s, candles, result + [point])
  {
    hide StrategyFeatures;
  }

  lemma SeriesMeans(s: Strategy, candles: seq<Candle>, result: seq<Features>)
    requires IsSeries(s, candles, result)
    ensures |result| <= |candles|
    ensures forall i :: 0 <= i < |result| ==> result[i] == StrategyFeatures(s, candles, i)
  {
    hide StrategyFeatures;
  }

  /** The point of one candle, given its ATR. */
  method PointAt(s: Strategy, candles: seq<Candle>, index: nat, atr: real) returns (point: Features)
    requires index < |candles| && (s.atrPeriod.Some? ==> atr == Atr(candles, index, s.atrPeriod.value))
    ensures point == StrategyFeatures(s, candles, index)
  {
    hide BaseFeatures, Atr;
    point := BaseFeatures(candles, index, s.window);
    if s.atrPeriod.Some? {
      point := point["volatility" := atr];
    }
    point := point + s.technical(candles[..index + 1]);
  }

  lemma AtrTracked(candles: seq<Candle>, index: nat, period: Period, total: real, atr: real)
    requires index < |candles| && AtrTracks(candles, index + 1, period, total, atr)
    ensures atr == Atr(candles, index, period)
  {
  }

  /** Features at a candle are a function of the history up to that candle. */
  lemma FeaturesAreCausal(s: Strategy, xs: seq<Candle>, ys: seq<Candle>, index: nat)
    requires index < |xs| && index < |ys| && xs[..index + 1] == ys[..index + 1]
    ensures StrategyFeatures(s, xs, index) == StrategyFeatures(s, ys, index)
  {
    hide WindowFeatures, Wilder, Back;
    BackIsCausal(xs, ys, index, 39);
    BackIsCausal(xs, ys, index, 4);
    BackIsCausal(xs, ys, index, s.window);
    BackIsCausal(xs, ys, index, s.window - 1);
  }

  lemma BackIsCausal(xs: seq<Candle>, ys: seq<Candle>, index: nat, count: nat)
    requires index < |xs| && index < |ys| && xs[..index + 1] == ys[..index + 1]
    ensures Back(xs, index, count) == Back(ys, index, count)
  {
    var from := if index < count then 0 else index - count;
    assert xs[from..index + 1] == xs[..index + 1][from..];
    assert ys[from..index + 1] == ys[..index + 1][from..];
  }

  /** Smoothing never leaves the envelope of the true ranges it averages. */
  lemma {:induction false} WilderStaysInEnvelope(ranges: seq<real>, period: Period, low: real, high: real)
    requires |ranges| >= period
    requires forall i :: 0 <= i < |ranges| ==> low <= ranges[i] <= high
    ensures low <= Wilder(ranges, period) <= high
    decreases |ranges|
  {
    if |ranges| == period {
      SumInEnvelope(ranges, low, high);
      MeanInEnvelope(Sum(ranges), |ranges|, low, high);
    } else {
      var rest := ranges[..|ranges| - 1];
      WilderStaysInEnvelope(rest, period, low, high);
      SmoothInEnvelope(Wilder(rest, period), ranges[|ranges| - 1], period, low, high);
    }
  }

  lemma SmoothInEnvelope(average: real, value: real, period: Period, low: real, high: real)
    requires low <= average <= high && low <= value <= high
    ensures low <= Smooth(average, value, period) <= high
  {
    var rest := (period - 1) as real;
    MulLe(low, average, rest);
    MulLe(average, high, rest);
    SmoothingSum(low, period);
    SmoothingSum(high, period);
    EnvelopeOfMean(average * rest, low * rest, high * rest, value, period, low, high);
    assert Smooth(average, value, period) == (average * rest + value) / period as real;
  }

  lemma EnvelopeOfMean(weighted: real, lowSum: real, highSum: real, value: real, period: Period, low: real, high: real)
    requires lowSum <= weighted <= highSum && low <= value <= high
    requires lowSum + low == period as real * low && highSum + high == period as real * high
    ensures low <= (weighted + value) / period as real <= high
  {
    MeanInEnvelope(weighted + value, period, low, high);
  }

  lemma SmoothingSum(x: real, period: Period)
    ensures x * (period - 1) as real + x == period as real * x
  {
    assert period as real == (period - 1) as real + 1.0;
  }

  lemma {:induction false} SumInEnvelope(xs: seq<real>, low: real, high: real)
    requires forall i :: 0 <= i < |xs| ==> low <= xs[i] <= high
    ensures |xs| as real * low <= Sum(xs) <= |xs| as real * high
  {
    if xs != [] {
      SumInEnvelope(xs[..|xs| - 1], low, high);
      var n := (|xs| - 1) as real;
      assert |xs| as real == n + 1.0;
      assert (n + 1.0) * low == n * low + low;
      assert (n + 1.0) * high == n * high + high;
    }
  }

  lemma MeanInEnvelope(total: real, n: nat, low: real, high: real)
    requires n > 0 && n as real * low <= total <= n as real * high
    ensures low <= total / n as real <= high
  {
    DivMul(total, n as real);
    MulCancelLe(low, total / n as real, n as real);
    MulCancelLe(total / n as real, high, n as real);
  }

  // ----- rule matching

  predicate Compare(op: Op, left: real, right: real) {
    match op
    case Gt => left > right
    case Ge => left >= right
    case Lt => left < right
    case Le => left <= right
    case Eq => left == right
  }

  /** The right-hand side: a feature of that name, else the number itself. */
  function RightSide(operand: Operand, f: Features): Option<real> {
    match operand
    case Number(v) => Some(v)
    case Text(name, numeral) => if name in f then Some(f[name]) else numeral
  }

  predicate Holds(c: Condition, f: Features) {
    var right := RightSide(c.operand, f);
    c.feature in f && right.Some? && Compare(c.op, f[c.feature], right.value)
  }

  /** `matches`: an empty list never matches. */
  predicate Matches(conditions: seq<Condition>, f: Features) {
    conditions != [] && forall i :: 0 <= i < |conditions| ==> Holds(conditions[i], f)
  }

  function Get(f: Features, name: string, default: real): real {
    if name in f then f[name] else default
  }

  datatype Regime = Regime(behaviour: string, direction: string, volatility: string, news: Option<string>)

  function NewsName(code: real): string {
    if code == -1.0 then "PRE_NEWS" else if code == 0.0 then "NORMAL"
    else if code == 1.0 then "POST_NEWS" else "UNKNOWN"
  }

  function RegimeFromFeatures(f: Features): Regime {
    var news := if "news_regime" in f then Some(NewsName(f["news_regime"])) else None;
    if Get(f, "regime_ready", 0.0) == 0.0 then
      Regime("UNKNOWN", "UNKNOWN", "UNKNOWN", news)
    else
      var ratio := Get(f, "relative_volatility", 0.0);
      var trend := Get(f, "trend_direction", 0.0);
      Regime(
        if Get(f, "trend_efficiency", 0.0) >= 0.35 then "TRENDING" else "RANGING",
        if trend == 1.0 then "BULLISH" else if trend == -1.0 then "BEARISH" else "FLAT",
        if ratio >= 1.5 then "HIGH_VOLATILITY"
        else if ratio <= 0.75 then "LOW_VOLATILITY" else "NORMAL_VOLATILITY",
        news)
  }

  function Alias(tag: string): string {
    if tag == "TREND" then "TRENDING" else if tag == "RANGE" then "RANGING"
    else if tag == "VOLATILE" then "HIGH_VOLATILITY" else if tag == "NORMAL_NEWS" then "NORMAL"
    else tag
  }

  predicate TagHolds(tag: string, r: Regime) {
    var a := Alias(tag);
    && tag != "UNKNOWN"
    && (a == r.behaviour || a == r.direction || a == r.volatility || r.news == Some(a))
  }

  predicate HasTags(tags: seq<string>, r: Regime) {
    forall k :: 0 <= k < |tags| ==> TagHolds(tags[k], r)
  }

  /** Alternatives are OR; the tags of one alternative are AND. */
  predicate RegimeMatches(wanted: seq<seq<string>>, f: Features) {
    wanted == [] ||
    var r := RegimeFromFeatures(f);
    && r.behaviour != "UNKNOWN"
    && exists i :: 0 <= i < |wanted| && HasTags(wanted[i], r)
  }

  predicate NewsAt(tag: string, i: nat) {
    i + 4 <= |tag| && tag[i..i + 4] == "NEWS"
  }

  predicate MentionsNews(tag: string) {
    tag == "NORMAL" || exists i :: 0 <= i < |tag| && NewsAt(tag, i)
  }

  predicate UsesNews(conditions: seq<Condition>) {
    exists i :: 0 <= i < |conditions| &&
      (conditions[i].feature == "news_regime"
       || (conditions[i].operand.Text? && conditions[i].operand.name == "news_regime"))
  }

  predicate RequiresNewsContext(s: Strategy) {
    || (exists i, k :: 0 <= i < |s.regimes| && 0 <= k < |s.regimes[i]| && MentionsNews(s.regimes[i][k]))
    || UsesNews(s.entry) || UsesNews(s.confirmations) || UsesNews(s.filters)
    || UsesNews(s.invalidation) || UsesNews(s.exit)
  }

  predicate EntryMatches(s: Strategy, f: Features) {
    && !(Get(f, "news_regime", -2.0) == -2.0 && RequiresNewsContext(s))
    && RegimeMatches(s.regimes, f)
    && Matches(s.entry, f)
    && (s.confirmations == [] || Matches(s.confirmations, f))
    && (s.filters == [] || Matches(s.filters, f))
    && !Matches(s.invalidation, f)
  }

  // ----- protection levels

  datatype Levels = Levels(stop: real, targets: seq<real>)

  type Tick = t: Option<real> | t.Some? ==> t.value > 0.0 witness None

  /** Rounds away from profit for a stop, towards profit for a target. */
  function RoundTo(x: real, up: bool, tick: Tick): real {
    if tick.None? then x else if up then CeilTo(x, tick.value) else FloorTo(x, tick.value)
  }

  function Scale(x: real, multiple: real): real {
    x * multiple
  }

  /** Moves a price by `distance` in (or, when negative, against) the trade's favour. */
  function Shift(d: Direction, price: real, distance: real): real {
    price + Signed(d, distance)
  }

  function StopLevel(rules: TradeRules, entry: real, volatility: real, tick: Tick): real {
    RoundTo(Shift(rules.direction, entry, -Scale(volatility, rules.stopMultiple)), rules.direction == Short, tick)
  }

  function TargetLevel(rules: TradeRules, entry: real, stop: real, multiple: real, tick: Tick): real {
    RoundTo(Shift(rules.direction, entry, Scale(Abs(entry - stop), multiple)), rules.direction == Long, tick)
  }

  function TargetLevels(rules: TradeRules, entry: real, stop: real, tick: Tick): seq<real> {
    seq(|rules.rMultiples|, i requires 0 <= i < |rules.rMultiples| =>
      TargetLevel(rules, entry, stop, rules.rMultiples[i], tick))
  }

  function Elements(xs: seq<real>): set<real> {
    set x | x in xs
  }

  /** `protection_levels`; `None` is the raised `ValueError`. */
  function ProtectionLevels(rules: TradeRules, entry: real, volatility: real, tick: Tick): Option<Levels> {
    if entry <= 0.0 || volatility <= 0.0 then None else
    var stop := StopLevel(rules, entry, volatility, tick);
    var targets := TargetLevels(rules, entry, stop, tick);
    if stop <= 0.0 || (exists i :: 0 <= i < |targets| && targets[i] <= 0.0)
       || |Elements(targets)| != |targets|
    then None
    else Some(Levels(stop, targets))
  }

  ghost predicate StrictlyOrdered(d: Direction, xs: seq<real>) {
    forall i, j :: 0 <= i < j < |xs| ==> Signed(d, xs[i]) < Signed(d, xs[j])
  }

  ghost predicate OnTick(x: real, tick: Tick) {
    tick.Some? ==> IsMultiple(x, tick.value)
  }

  lemma RoundToBounds(x: real, up: bool, tick: Tick)
    ensures OnTick(RoundTo(x, up, tick), tick)
    ensures tick.None? ==> RoundTo(x, up, tick) == x
    ensures tick.Some? && up ==> x <= RoundTo(x, up, tick) < x + tick.value
    ensures tick.Some? && !up ==> x - tick.value < RoundTo(x, up, tick) <= x
  {
    if tick.Some? {
      FloorToBounds(x, tick.value);
      CeilToBounds(x, tick.value);
    }
  }

  lemma RoundToMonotone(x: real, y: real, up: bool, tick: Tick)
    requires x <= y
    ensures RoundTo(x, up, tick) <= RoundTo(y, up, tick)
  {
    if tick.Some? {
      if up {
        FloorToMonotone(-y, -x, tick.value);
      } else {
        FloorToMonotone(x, y, tick.value);
      }
    }
  }

  lemma ScalePositive(x: real, multiple: real)
    requires x > 0.0 && multiple > 0.0
    ensures Scale(x, multiple) > 0.0
  {
  }

  lemma ScaleMonotone(x: real, a: real, b: real)
    requires x >= 0.0 && a <= b
    ensures Scale(x, a) <= Scale(x, b)
  {
  }

  /** A stop sits on the loss side, on a tick, at a distance in [d, d + tick). */
  lemma StopLevelIsProtective(rules: TradeRules, entry: real, volatility: real, tick: Tick)
    requires volatility > 0.0
    ensures
      var distance := Scale(volatility, rules.stopMultiple);
      var loss := Signed(rules.direction, entry - StopLevel(rules, entry, volatility, tick));
      && 0.0 < distance <= loss
      && (if tick.Some? then loss < distance + tick.value else loss == distance)
      && OnTick(StopLevel(rules, entry, volatility, tick), tick)
  {
    hide RoundTo, Scale, OnTick;
    var distance := Scale(volatility, rules.stopMultiple);
    ScalePositive(volatility, rules.stopMultiple);
    RoundToBounds(Shift(rules.direction, entry, -distance), rules.direction == Short, tick);
  }

  /** A target pays at least its R multiple of the distance to the rounded stop. */
  lemma TargetPaysItsMultiple(rules: TradeRules, entry: real, stop: real, multiple: real, tick: Tick)
    requires multiple > 0.0 && Signed(rules.direction, entry - stop) > 0.0
    ensures
      var target := TargetLevel(rules, entry, stop, multiple, tick);
      && Signed(rules.direction, target - entry) >= Scale(Signed(rules.direction, entry - stop), multiple) > 0.0
      && OnTick(target, tick)
  {
    hide RoundTo, Scale, OnTick;
    var distance := Abs(entry - stop);
    ScalePositive(distance, multiple);
    RoundToBounds(Shift(rules.direction, entry, Scale(distance, multiple)), rules.direction == Long, tick);
  }

  lemma TargetsWeaklyOrdered(rules: TradeRules, entry: real, stop: real, tick: Tick, i: nat, j: nat)
    requires i < j < |rules.rMultiples|
    ensures Signed(rules.direction, TargetLevels(rules, entry, stop, tick)[i])
         <= Signed(rules.direction, TargetLevels(rules, entry, stop, tick)[j])
  {
    hide RoundTo, Scale;
    var distance := Abs(entry - stop);
    var a, b := Scale(distance, rules.rMultiples[i]), Scale(distance, rules.rMultiples[j]);
    ScaleMonotone(distance, rules.rMultiples[i], rules.rMultiples[j]);
    if rules.direction == Long {
      RoundToMonotone(Shift(Long, entry, a), Shift(Long, entry, b), true, tick);
    } else {
      RoundToMonotone(Shift(Short, entry, b), Shift(Short, entry, a), false, tick);
    }
  }

  lemma {:induction false} SetSizeMeansDistinct(xs: seq<real>)
    ensures |Elements(xs)| <= |xs|
    ensures |Elements(xs)| == |xs| <==> forall i, j :: 0 <= i < j < |xs| ==> xs[i] != xs[j]
  {
    if xs != [] {
      var init, x := xs[..|xs| - 1], xs[|xs| - 1];
      SetSizeMeansDistinct(init);
      assert xs == init + [x];
      assert Elements(xs) == Elements(init) + {x};
      assert forall i :: 0 <= i < |init| ==> init[i] == xs[i];
      if x in init {
        assert Elements(xs) == Elements(init);
        var i :| 0 <= i < |init| && init[i] == x;
        assert xs[i] == xs[|xs| - 1];
      }
    }
  }

  /** The set-size check rejects exactly the target lists that rounding collapsed. */
  lemma SetSizeMeansStrictlyOrdered(rules: TradeRules, entry: real, stop: real, tick: Tick)
    ensures
      var targets := TargetLevels(rules, entry, stop, tick);
      |Elements(targets)| == |targets| <==> StrictlyOrdered(rules.direction, targets)
  {
    var targets := TargetLevels(rules, entry, stop, tick);
    SetSizeMeansDistinct(targets);
    forall i, j | 0 <= i < j < |targets|
      ensures targets[i] != targets[j] <==> Signed(rules.direction, targets[i]) < Signed(rules.direction, targets[j])
    {
      TargetsWeaklyOrdered(rules, entry, stop, tick, i, j);
    }
    if |Elements(targets)| == |targets| {
      forall i, j | 0 <= i < j < |targets|
        ensures Signed(rules.direction, targets[i]) < Signed(rules.direction, targets[j])
      {
        assert targets[i] != targets[j];
      }
    } else {
      var i, j :| 0 <= i < j < |targets| && targets[i] == targets[j];
      assert !(Signed(rules.direction, targets[i]) < Signed(rules.direction, targets[j]));
    }
  }

  ghost predicate Protective(rules: TradeRules, entry: real, stop: real, targets: seq<real>) {
    var d := rules.direction;
    && stop > 0.0
    && Signed(d, entry - stop) > 0.0
    && |targets| == |rules.rMultiples|
    && StrictlyOrdered(d, targets)
    && forall i :: 0 <= i < |targets| ==>
         targets[i] > 0.0 && Signed(d, targets[i] - entry) >= Scale(Signed(d, entry - stop), rules.rMultiples[i]) > 0.0
  }

  /** Accepted levels are protective, and only non-positive prices or collapsed targets are refused. */
  lemma ProtectionLevelsAreProtective(rules: TradeRules, entry: real, volatility: real, tick: Tick)
    ensures
      var levels := ProtectionLevels(rules, entry, volatility, tick);
      var stop := StopLevel(rules, entry, volatility, tick);
      && (levels.Some? <==>
          entry > 0.0 && volatility > 0.0 && Protective(rules, entry, stop, TargetLevels(rules, entry, stop, tick)))
      && (levels.Some? ==>
           && levels.value == Levels(stop, TargetLevels(rules, entry, stop, tick))
           && OnTick(stop, tick)
           && forall i :: 0 <= i < |levels.value.targets| ==> OnTick(levels.value.targets[i], tick))
  {
    hide StopLevel, TargetLevel, Scale, OnTick;
    if entry > 0.0 && volatility > 0.0 {
      var stop := StopLevel(rules, entry, volatility, tick);
      StopLevelIsProtective(rules, entry, volatility, tick);
      forall i | 0 <= i < |rules.rMultiples|
        ensures Signed(rules.direction, TargetLevels(rules, entry, stop, tick)[i] - entry)
             >= Scale(Signed(rules.direction, entry - stop), rules.rMultiples[i]) > 0.0
        ensures OnTick(TargetLevels(rules, entry, stop, tick)[i], tick)
      {
        TargetPaysItsMultiple(rules, entry, stop, rules.rMultiples[i], tick);
      }
      SetSizeMeansStrictlyOrdered(rules, entry, stop, tick);
    }
  }
}
