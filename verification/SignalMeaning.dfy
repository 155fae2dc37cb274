/** What the features, the rules and the protection levels mean, in terms of the candles themselves. */
module SignalMeaning {
  import opened Numbers
  import opened Signals
  import F = Fingerprint

  // ----- sums over a stretch of candles

  function CloseOf(c: Candle): real {
    c.close
  }

  function RangeOf(c: Candle): real {
    c.high - c.low
  }

  function Total(candles: seq<Candle>, value: Candle -> real, from: nat, to: nat): real
    requires from <= to <= |candles|
  {
    if from == to then 0.0 else Total(candles, value, from, to - 1) + value(candles[to - 1])
  }

  function Average(candles: seq<Candle>, value: Candle -> real, from: nat, to: nat): real
    requires from < to <= |candles|
  {
    Total(candles, value, from, to) / (to - from) as real
  }

  /** Where a window that ends at `index` and reaches `count` candles back starts. */
  function Start(index: nat, count: nat): nat {
    if index < count then 0 else index - count
  }

  lemma {:induction false} SumCloses(candles: seq<Candle>, from: nat, to: nat)
    requires from <= to <= |candles|
    ensures Sum(Closes(candles[from..to])) == Total(candles, CloseOf, from, to)
  {
    if from < to {
      SumCloses(candles, from, to - 1);
      assert Closes(candles[from..to]) == Closes(candles[from..to - 1]) + [candles[to - 1].close];
      SumSnoc(Closes(candles[from..to - 1]), candles[to - 1].close);
    }
  }

  lemma {:induction false} SumRanges(candles: seq<Candle>, from: nat, to: nat)
    requires from <= to <= |candles|
    ensures Sum(Ranges(candles[from..to])) == Total(candles, RangeOf, from, to)
  {
    if from < to {
      SumRanges(candles, from, to - 1);
      assert Ranges(candles[from..to]) == Ranges(candles[from..to - 1]) + [RangeOf(candles[to - 1])];
      SumSnoc(Ranges(candles[from..to - 1]), RangeOf(candles[to - 1]));
    }
  }

  lemma MeanOfCloses(candles: seq<Candle>, from: nat, to: nat)
    requires from < to <= |candles|
    ensures Mean(Closes(candles[from..to])) == Average(candles, CloseOf, from, to)
  {
    SumCloses(candles, from, to);
  }

  lemma MeanOfRanges(candles: seq<Candle>, from: nat, to: nat)
    requires from < to <= |candles|
    ensures Mean(Ranges(candles[from..to])) == Average(candles, RangeOf, from, to)
  {
    SumRanges(candles, from, to);
  }

  // ----- candle features

  /** Every feature but the volatility is the same with and without a period. */
  lemma SameWithPeriod(candles: seq<Candle>, index: nat, window: Window, atrPeriod: Option<Period>, name: string)
    requires index < |candles| && name != "volatility"
    ensures
      var f, base := CandleFeatures(candles, index, window, atrPeriod), BaseFeatures(candles, index, window);
      (name in f <==> name in base) && (name in f ==> f[name] == base[name])
  {
    hide BaseFeatures;
  }

  lemma PriorHighOf(candles: seq<Candle>, index: nat, window: Window)
    requires index < |candles|
    ensures
      var f := BaseFeatures(candles, index, window);
      "prior_high" in f && f["prior_high"] == MaxHigh(Prior(candles, index, window))
  {
    hide RegimeFeatures, Prior, Back, MaxHigh, MinLow, Mean, Closes, Ranges;
  }

  lemma PriorLowOf(candles: seq<Candle>, index: nat, window: Window)
    requires index < |candles|
    ensures
      var f := BaseFeatures(candles, index, window);
      "prior_low" in f && f["prior_low"] == MinLow(Prior(candles, index, window))
  {
    hide RegimeFeatures, Prior, Back, MaxHigh, MinLow, Mean, Closes, Ranges;
  }

  lemma SlowAverageOf(candles: seq<Candle>, index: nat, window: Window)
    requires index < |candles|
    ensures
      var f := BaseFeatures(candles, index, window);
      "slow_average" in f && f["slow_average"] == Mean(Closes(Back(candles, index, window - 1)))
  {
    hide RegimeFeatures, Prior, Back, MaxHigh, MinLow, Mean, Closes, Ranges;
  }

  lemma MovingAverageOf(candles: seq<Candle>, index: nat, window: Window)
    requires index < |candles|
    ensures
      var f := BaseFeatures(candles, index, window);
      "moving_average" in f && f["moving_average"] == Mean(Closes(Back(candles, index, 4)))
  {
    hide RegimeFeatures, Prior, Back, MaxHigh, MinLow, Mean, Closes, Ranges;
  }

  lemma VolatilityOf(candles: seq<Candle>, index: nat, window: Window)
    requires index < |candles|
    ensures
      var f := BaseFeatures(candles, index, window);
      "volatility" in f && f["volatility"] == Mean(Ranges(Back(candles, index, 4)))
  {
    hide RegimeFeatures, Prior, Back, MaxHigh, MinLow, Mean, Closes, Ranges;
  }

  lemma MomentumOf(candles: seq<Candle>, index: nat, window: Window)
    requires index < |candles|
    ensures
      var f := BaseFeatures(candles, index, window);
      && "momentum" in f
      && f["momentum"] == if index == 0 then 0.0 else candles[index].close - candles[index - 1].close
  {
    hide RegimeFeatures, Prior, MaxHigh, MinLow, Mean, Closes, Ranges;
  }

  lemma PricesOf(candles: seq<Candle>, index: nat, window: Window)
    requires index < |candles|
    ensures var f := BaseFeatures(candles, index, window); "open" in f && f["open"] == candles[index].open
    ensures var f := BaseFeatures(candles, index, window); "high" in f && f["high"] == candles[index].high
    ensures var f := BaseFeatures(candles, index, window); "low" in f && f["low"] == candles[index].low
  {
    hide RegimeFeatures, Prior, MaxHigh, MinLow, Mean, Closes, Ranges;
  }

  lemma CloseAndVolumeOf(candles: seq<Candle>, index: nat, window: Window)
    requires index < |candles|
    ensures var f := BaseFeatures(candles, index, window); "close" in f && f["close"] == candles[index].close
    ensures var f := BaseFeatures(candles, index, window); "volume" in f && f["volume"] == candles[index].volume
  {
    hide RegimeFeatures, Prior, MaxHigh, MinLow, Mean, Closes, Ranges;
  }

  /** Features of the regime are taken over from the last forty candles. */
  lemma TrendOf(candles: seq<Candle>, index: nat, window: Window, atrPeriod: Option<Period>)
    requires index < |candles|
    ensures
      var f, trend := CandleFeatures(candles, index, window, atrPeriod), RegimeFeatures(Back(candles, index, 39));
      && ("regime_ready" in trend ==> "regime_ready" in f && f["regime_ready"] == trend["regime_ready"])
      && ("trend_direction" in trend ==> "trend_direction" in f && f["trend_direction"] == trend["trend_direction"])
  {
    hide RegimeFeatures, Prior, Back, MaxHigh, MinLow, Mean, Closes, Ranges, Atr;
  }

  lemma EfficiencyOf(candles: seq<Candle>, index: nat, window: Window, atrPeriod: Option<Period>)
    requires index < |candles|
    ensures
      var f, trend := CandleFeatures(candles, index, window, atrPeriod), RegimeFeatures(Back(candles, index, 39));
      "trend_efficiency" in trend ==> "trend_efficiency" in f && f["trend_efficiency"] == trend["trend_efficiency"]
  {
    hide RegimeFeatures, Prior, Back, MaxHigh, MinLow, Mean, Closes, Ranges, Atr;
  }

  lemma RelativeOf(candles: seq<Candle>, index: nat, window: Window, atrPeriod: Option<Period>)
    requires index < |candles|
    ensures
      var f, trend := CandleFeatures(candles, index, window, atrPeriod), RegimeFeatures(Back(candles, index, 39));
      "relative_volatility" in trend ==>
        "relative_volatility" in f && f["relative_volatility"] == trend["relative_volatility"]
  {
    hide RegimeFeatures, Prior, Back, MaxHigh, MinLow, Mean, Closes, Ranges, Atr;
  }

  lemma {:induction false} HighIsExtreme(cs: seq<Candle>)
    requires cs != []
    ensures forall k :: 0 <= k < |cs| ==> cs[k].high <= MaxHigh(cs)
    ensures exists k :: 0 <= k < |cs| && cs[k].high == MaxHigh(cs)
  {
    if |cs| == 1 {
      assert cs[0].high == MaxHigh(cs);
    } else {
      var init := cs[..|cs| - 1];
      HighIsExtreme(init);
      var k :| 0 <= k < |init| && init[k].high == MaxHigh(init);
      assert cs[k].high == MaxHigh(init) && cs[|cs| - 1].high <= MaxHigh(cs);
      assert forall j :: 0 <= j < |init| ==> init[j] == cs[j];
    }
  }

  lemma {:induction false} LowIsExtreme(cs: seq<Candle>)
    requires cs != []
    ensures forall k :: 0 <= k < |cs| ==> MinLow(cs) <= cs[k].low
    ensures exists k :: 0 <= k < |cs| && cs[k].low == MinLow(cs)
  {
    if |cs| == 1 {
      assert cs[0].low == MinLow(cs);
    } else {
      var init := cs[..|cs| - 1];
      LowIsExtreme(init);
      var k :| 0 <= k < |init| && init[k].low == MinLow(init);
      assert cs[k].low == MinLow(init) && MinLow(cs) <= cs[|cs| - 1].low;
      assert forall j :: 0 <= j < |init| ==> init[j] == cs[j];
    }
  }

  /** The level is the highest high of the candles in `from..to`. */
  ghost predicate HighestHigh(candles: seq<Candle>, from: nat, to: nat, level: real)
    requires from <= to <= |candles|
  {
    && (forall k :: from <= k < to ==> candles[k].high <= level)
    && exists k :: from <= k < to && candles[k].high == level
  }

  ghost predicate LowestLow(candles: seq<Candle>, from: nat, to: nat, level: real)
    requires from <= to <= |candles|
  {
    && (forall k :: from <= k < to ==> level <= candles[k].low)
    && exists k :: from <= k < to && candles[k].low == level
  }

  lemma PriorIs(candles: seq<Candle>, index: nat, window: Window)
    requires index < |candles|
    ensures Prior(candles, index, window) ==
      if index == 0 then candles[..1] else candles[Start(index, window)..index]
  {
    var back := Back(candles, index, window);
    assert index > 0 ==> back[..|back| - 1] == candles[Start(index, window)..index];
  }

  /** The prior levels are the extremes of the candles before this one within the structure window; the first
      candle has only itself. */
  lemma PriorLevelsAreExtremes(candles: seq<Candle>, index: nat, window: Window, atrPeriod: Option<Period>)
    requires index < |candles|
    ensures
      var f := CandleFeatures(candles, index, window, atrPeriod);
      var from, to := Start(index, window), if index == 0 then 1 else index;
      && "prior_high" in f && HighestHigh(candles, from, to, f["prior_high"])
      && "prior_low" in f && LowestLow(candles, from, to, f["prior_low"])
  {
    hide BaseFeatures, CandleFeatures, Prior, MaxHigh, MinLow;
    PriorHighOf(candles, index, window);
    PriorLowOf(candles, index, window);
    SameWithPeriod(candles, index, window, atrPeriod, "prior_high");
    SameWithPeriod(candles, index, window, atrPeriod, "prior_low");
    var prior := Prior(candles, index, window);
    var from, to := Start(index, window), if index == 0 then 1 else index;
    PriorIs(candles, index, window);
    assert prior == candles[from..to];
    HighIsExtreme(prior);
    LowIsExtreme(prior);
    var k :| 0 <= k < |prior| && prior[k].high == MaxHigh(prior);
    var j :| 0 <= j < |prior| && prior[j].low == MinLow(prior);
    assert candles[from + k].high == MaxHigh(prior) && candles[from + j].low == MinLow(prior);
    forall i | from <= i < to
      ensures MinLow(prior) <= candles[i].low && candles[i].high <= MaxHigh(prior)
    {
      assert prior[i - from] == candles[i];
    }
  }

  lemma BackIs(candles: seq<Candle>, index: nat, count: nat)
    requires index < |candles|
    ensures Back(candles, index, count) == candles[Start(index, count)..index + 1]
  {
  }

  /** The candle's own fields and the last move of the close. */
  lemma PricesAreTheCandles(candles: seq<Candle>, index: nat, window: Window, atrPeriod: Option<Period>)
    requires index < |candles|
    ensures
      var f := CandleFeatures(candles, index, window, atrPeriod);
      && "open" in f && f["open"] == candles[index].open
      && "high" in f && f["high"] == candles[index].high
      && "low" in f && f["low"] == candles[index].low
      && "close" in f && f["close"] == candles[index].close
      && "volume" in f && f["volume"] == candles[index].volume
      && "momentum" in f
      && f["momentum"] == if index == 0 then 0.0 else candles[index].close - candles[index - 1].close
  {
    hide BaseFeatures, CandleFeatures;
    PricesOf(candles, index, window);
    CloseAndVolumeOf(candles, index, window);
    MomentumOf(candles, index, window);
    SameWithPeriod(candles, index, window, atrPeriod, "open");
    SameWithPeriod(candles, index, window, atrPeriod, "high");
    SameWithPeriod(candles, index, window, atrPeriod, "low");
    SameWithPeriod(candles, index, window, atrPeriod, "close");
    SameWithPeriod(candles, index, window, atrPeriod, "volume");
    SameWithPeriod(candles, index, window, atrPeriod, "momentum");
  }

  /** The averages over the last five candles and over the structure window. */
  lemma AveragesAreMeans(candles: seq<Candle>, index: nat, window: Window, atrPeriod: Option<Period>)
    requires index < |candles|
    ensures
      var f := CandleFeatures(candles, index, window, atrPeriod);
      var near, slow := Start(index, 4), Start(index, window - 1);
      && "moving_average" in f && "slow_average" in f
      && f["moving_average"] == Average(candles, CloseOf, near, index + 1)
      && f["slow_average"] == Average(candles, CloseOf, slow, index + 1)
  {
    hide BaseFeatures, CandleFeatures, Back, Mean, Closes, Average;
    MovingAverageOf(candles, index, window);
    SlowAverageOf(candles, index, window);
    SameWithPeriod(candles, index, window, atrPeriod, "moving_average");
    SameWithPeriod(candles, index, window, atrPeriod, "slow_average");
    BackIs(candles, index, 4);
    BackIs(candles, index, window - 1);
    MeanOfCloses(candles, Start(index, 4), index + 1);
    MeanOfCloses(candles, Start(index, window - 1), index + 1);
  }

  /** Without a period the volatility is the mean range of the last five candles. */
  lemma VolatilityIsMeanRange(candles: seq<Candle>, index: nat, window: Window)
    requires index < |candles|
    ensures
      var f := CandleFeatures(candles, index, window, None);
      "volatility" in f && f["volatility"] == Average(candles, RangeOf, Start(index, 4), index + 1)
  {
    hide BaseFeatures, Back, Mean, Ranges, Average;
    VolatilityOf(candles, index, window);
    BackIs(candles, index, 4);
    MeanOfRanges(candles, Start(index, 4), index + 1);
  }

  // ----- the average true range

  /** The range of a candle stretched to the close before it. */
  ghost predicate IsTrueRange(before: Candle, candle: Candle, range: real) {
    var up := if before.close > candle.high then before.close else candle.high;
    var down := if before.close < candle.low then before.close else candle.low;
    range == up - down
  }

  lemma TrueRangeSpansTheGap(before: Candle, candle: Candle)
    requires candle.low <= candle.high
    ensures IsTrueRange(before, candle, TrueRange(before, candle))
  {
  }

  function RangeAfter(candles: seq<Candle>, k: nat): real
    requires 1 <= k < |candles|
  {
    TrueRange(candles[k - 1], candles[k])
  }

  function RangeTotal(candles: seq<Candle>, to: nat): real
    requires to <= |candles|
  {
    if to <= 1 then 0.0 else RangeTotal(candles, to - 1) + RangeAfter(candles, to - 1)
  }

  lemma {:induction false} SumTrueRanges(candles: seq<Candle>, to: nat)
    requires 1 <= to <= |candles|
    ensures Sum(TrueRanges(candles[..to])) == RangeTotal(candles, to)
  {
    if to > 1 {
      hide TrueRange;
      SumTrueRanges(candles, to - 1);
      TrueRangesSnoc(candles, to - 1);
      SumSnoc(TrueRanges(candles[..to - 1]), RangeAfter(candles, to - 1));
    }
  }

  lemma AtrMoves(candles: seq<Candle>, index: nat, period: Period)
    requires index < |candles|
    ensures index < period ==> Atr(candles, index, period) == 0.0
    ensures index == period ==> Atr(candles, index, period) * period as real == RangeTotal(candles, index + 1)
    ensures index > period ==>
      var before := Atr(candles, index - 1, period);
      (Atr(candles, index, period) - before) * period as real == RangeAfter(candles, index) - before
  {
    hide TrueRange, TrueRanges, Smooth, Sum, RangeTotal;
    if index == period {
      SumTrueRanges(candles, index + 1);
      TrueRangesCount(candles, index + 1);
      DivMul(RangeTotal(candles, index + 1), period as real);
    } else if index > period {
      TrueRangesCount(candles, index);
      TrueRangesSnoc(candles, index);
      var ranges, value := TrueRanges(candles[..index]), RangeAfter(candles, index);
      WilderNext(ranges, value, period);
      SmoothMoves(Wilder(ranges, period), value, period);
    }
  }

  /** With a period the volatility is zero up to the period, then the mean of the first true ranges, then moves
      from each value to the next by one part in the period towards the new true range. */
  lemma AtrIsWilders(candles: seq<Candle>, index: nat, window: Window, period: Period)
    requires index < |candles|
    ensures
      var f := CandleFeatures(candles, index, window, Some(period));
      && "volatility" in f
      && (index < period ==> f["volatility"] == 0.0)
      && (index == period ==> f["volatility"] * period as real == RangeTotal(candles, index + 1))
      && (index > period ==>
            && "volatility" in CandleFeatures(candles, index - 1, window, Some(period))
            && var before := CandleFeatures(candles, index - 1, window, Some(period))["volatility"];
               (f["volatility"] - before) * period as real == RangeAfter(candles, index) - before)
  {
    hide BaseFeatures, TrueRange, RangeTotal, Atr;
    AtrMoves(candles, index, period);
  }

  lemma SmoothMoves(average: real, value: real, period: Period)
    ensures (Smooth(average, value, period) - average) * period as real == value - average
  {
    var n := period as real;
    DivMul(average * (period - 1) as real + value, n);
    assert (period - 1) as real == n - 1.0;
    assert average * (n - 1.0) == average * n - average;
    assert (Smooth(average, value, period) - average) * n == Smooth(average, value, period) * n - average * n;
  }

  // ----- regime features

  lemma {:induction false} MovesTelescope(candles: seq<Candle>, from: nat, to: nat)
    requires from < to <= |candles|
    ensures Sum(Moves(candles[from..to])) == candles[to - 1].close - candles[from].close
  {
    SumOfNothing();
    hide Sum, Moves;
    if to > from + 1 {
      MovesTelescope(candles, from, to - 1);
      MovesOneMore(candles, from, to);
      SumSnoc(Moves(candles[from..to - 1]), candles[to - 1].close - candles[to - 2].close);
    } else {
      NoMoves(candles, from);
    }
  }

  lemma SumOfNothing()
    ensures Sum([]) == 0.0
  {
  }

  lemma NoMoves(candles: seq<Candle>, from: nat)
    requires from < |candles|
    ensures Moves(candles[from..from + 1]) == [] && Magnitudes(Moves(candles[from..from + 1])) == []
  {
  }

  /** How far the close travelled, both ways counted. */
  function Travelled(candles: seq<Candle>, from: nat, to: nat): real
    requires from < to <= |candles|
  {
    if to == from + 1 then 0.0
    else Travelled(candles, from, to - 1) + Abs(candles[to - 1].close - candles[to - 2].close)
  }

  lemma MovesOneMore(candles: seq<Candle>, from: nat, to: nat)
    requires from + 1 < to <= |candles|
    ensures Moves(candles[from..to])
      == Moves(candles[from..to - 1]) + [candles[to - 1].close - candles[to - 2].close]
  {
    var longer, shorter := candles[from..to], candles[from..to - 1];
    assert |Moves(longer)| == |Moves(shorter)| + 1;
    forall i | 0 <= i < |Moves(longer)|
      ensures Moves(longer)[i] == candles[from + i + 1].close - candles[from + i].close
    {
    }
    forall i | 0 <= i < |Moves(shorter)|
      ensures Moves(shorter)[i] == candles[from + i + 1].close - candles[from + i].close
    {
    }
  }

  lemma {:induction false} MagnitudesTravel(candles: seq<Candle>, from: nat, to: nat)
    requires from < to <= |candles|
    ensures Sum(Magnitudes(Moves(candles[from..to]))) == Travelled(candles, from, to)
  {
    SumOfNothing();
    hide Sum, Moves, Magnitudes;
    if to > from + 1 {
      MagnitudesTravel(candles, from, to - 1);
      MovesOneMore(candles, from, to);
      var moves, step := Moves(candles[from..to - 1]), candles[to - 1].close - candles[to - 2].close;
      MagnitudesSnoc(moves, step);
      SumSnoc(Magnitudes(moves), Abs(step));
    } else {
      NoMoves(candles, from);
    }
  }

  lemma MagnitudesSnoc(xs: seq<real>, x: real)
    ensures Magnitudes(xs + [x]) == Magnitudes(xs) + [Abs(x)]
  {
  }

  /** The closes of the stretch never fall, or never rise. */
  ghost predicate Straight(candles: seq<Candle>, from: nat, to: nat)
    requires from < to <= |candles|
  {
    || (forall k :: from < k < to ==> candles[k - 1].close <= candles[k].close)
    || (forall k :: from < k < to ==> candles[k - 1].close >= candles[k].close)
  }

  lemma StraightIsOneWay(candles: seq<Candle>, from: nat, to: nat)
    requires from < to <= |candles|
    ensures F.OneWay(Moves(candles[from..to])) <==> Straight(candles, from, to)
  {
    var moves := Moves(candles[from..to]);
    forall i | 0 <= i < |moves|
      ensures moves[i] == candles[from + i + 1].close - candles[from + i].close
    {
    }
    if Straight(candles, from, to) {
      if forall k :: from < k < to ==> candles[k - 1].close <= candles[k].close {
        assert forall i :: 0 <= i < |moves| ==> moves[i] >= 0.0;
      } else {
        assert forall i :: 0 <= i < |moves| ==> moves[i] <= 0.0;
      }
    }
    if F.OneWay(moves) {
      forall k | from < k < to
        ensures candles[k].close - candles[k - 1].close == moves[k - from - 1]
      {
      }
    }
  }

  lemma LastOfBack(candles: seq<Candle>, index: nat)
    requires index < |candles|
    ensures Last(Back(candles, index, 39), 21) == candles[Start(index, 20)..index + 1]
    ensures Last(Back(candles, index, 39), 40) == candles[Start(index, 39)..index + 1]
  {
  }

  /** Readiness and direction of the trend over the last 21 closes. */
  lemma TrendIsTheNetMove(candles: seq<Candle>, index: nat, window: Window, atrPeriod: Option<Period>)
    requires index < |candles|
    ensures
      var f, from := CandleFeatures(candles, index, window, atrPeriod), Start(index, 20);
      var net := candles[index].close - candles[from].close;
      && "regime_ready" in f && f["regime_ready"] == (if index >= 20 then 1.0 else 0.0)
      && "trend_direction" in f
      && f["trend_direction"] == if net > 0.0 then 1.0 else if net < 0.0 then -1.0 else 0.0
  {
    hide CandleFeatures, Last, Back, Moves, Sum, Magnitudes, Ranges, Mean;
    BackIs(candles, index, 39);
    LastOfBack(candles, index);
    MovesTelescope(candles, Start(index, 20), index + 1);
    TrendOf(candles, index, window, atrPeriod);
  }

  /** Efficiency of the trend over the last 21 closes. */
  lemma EfficiencyIsNetOverTravelled(candles: seq<Candle>, index: nat, window: Window, atrPeriod: Option<Period>)
    requires index < |candles|
    ensures
      var f, from := CandleFeatures(candles, index, window, atrPeriod), Start(index, 20);
      var net, distance := candles[index].close - candles[from].close, Travelled(candles, from, index + 1);
      && "trend_efficiency" in f
      && 0.0 <= f["trend_efficiency"] <= 1.0
      && f["trend_efficiency"] * distance == Abs(net)
      && (f["trend_efficiency"] == 1.0 <==> Straight(candles, from, index + 1) && distance > 0.0)
  {
    hide CandleFeatures, RegimeFeatures, TrendEfficiency, Last, Back, Moves, Sum, Magnitudes, Travelled, Straight;
    hide F.OneWay, Abs;
    LastOfBack(candles, index);
    var from := Start(index, 20);
    var moves := Moves(candles[from..index + 1]);
    EfficiencyOf(candles, index, window, atrPeriod);
    MovesTelescope(candles, from, index + 1);
    MagnitudesTravel(candles, from, index + 1);
    StraightIsOneWay(candles, from, index + 1);
    EfficiencyBounds(moves);
    EfficiencyIs(Back(candles, index, 39));
  }

  function TrendEfficiency(moves: seq<real>): real {
    var distance := Sum(Magnitudes(moves));
    if distance != 0.0 then Abs(Sum(moves)) / distance else 0.0
  }

  lemma EfficiencyIs(cs: seq<Candle>)
    ensures
      var f := RegimeFeatures(cs);
      "trend_efficiency" in f && f["trend_efficiency"] == TrendEfficiency(Moves(Last(cs, 21)))
  {
    hide Moves, Sum, Magnitudes, Ranges, Mean, Last;
  }

  lemma EfficiencyBounds(moves: seq<real>)
    ensures 0.0 <= TrendEfficiency(moves) <= 1.0
    ensures TrendEfficiency(moves) * Sum(Magnitudes(moves)) == Abs(Sum(moves))
    ensures TrendEfficiency(moves) == 1.0 <==> F.OneWay(moves) && Sum(Magnitudes(moves)) > 0.0
  {
    hide Sum, Magnitudes, F.OneWay;
    F.MagnitudesBound(moves);
    F.NotNegative(moves);
    var distance := Sum(Magnitudes(moves));
    if distance != 0.0 {
      F.EfficiencyInUnit(moves);
      DivMul(Abs(Sum(moves)), distance);
    }
  }

  /** The relative volatility is the mean range of the last ten candles over the mean range of up to thirty
      before them, or over itself where there are none. */
  lemma RelativeVolatilityMeans(candles: seq<Candle>, index: nat, window: Window, atrPeriod: Option<Period>)
    requires index < |candles|
    ensures
      var f := CandleFeatures(candles, index, window, atrPeriod);
      var from, mid := Start(index, 39), Start(index, 9);
      var recent := Average(candles, RangeOf, mid, index + 1);
      var reference := if from < mid then Average(candles, RangeOf, from, mid) else recent;
      && "relative_volatility" in f
      && f["relative_volatility"] == if reference == 0.0 then 0.0 else recent / reference
  {
    hide CandleFeatures, Back, Moves, Sum, Magnitudes, Mean, Average, Ranges, Last;
    LastOfBack(candles, index);
    RelativeOf(candles, index, window, atrPeriod);
    var from, mid := Start(index, 39), Start(index, 9);
    RecentAndBaseline(candles, from, mid, index + 1);
    NoRanges(candles[from..mid]);
    NoRanges(candles[mid..index + 1]);
    MeanOfRanges(candles, mid, index + 1);
    if from < mid {
      MeanOfRanges(candles, from, mid);
    }
    MeanIs(Ranges(candles[mid..index + 1]));
  }

  lemma RecentAndBaseline(candles: seq<Candle>, from: nat, mid: nat, to: nat)
    requires from <= mid < to <= |candles| && (to - mid == 10 || (mid == from && to - mid < 10))
    ensures
      var ranges := Ranges(candles[from..to]);
      var latest := Last(ranges, 10);
      latest == Ranges(candles[mid..to]) && ranges[..|ranges| - |latest|] == Ranges(candles[from..mid])
  {
  }

  lemma NoRanges(cs: seq<Candle>)
    ensures |Ranges(cs)| == |cs|
  {
  }

  lemma MeanIs(xs: seq<real>)
    ensures xs != [] ==> Mean(xs) == Sum(xs) / |xs| as real
  {
  }

  /** A technical column takes the place of a candle feature of its name; every other feature is the candles'. */
  lemma TechnicalColumnsWin(s: Strategy, candles: seq<Candle>, index: nat, name: string)
    requires index < |candles|
    ensures
      var f, column := StrategyFeatures(s, candles, index), s.technical(candles[..index + 1]);
      var own := CandleFeatures(candles, index, s.window, s.atrPeriod);
      && (name in f <==> name in column || name in own)
      && (name in column ==> f[name] == column[name])
      && (name in own && name !in column ==> f[name] == own[name])
  {
    hide CandleFeatures;
  }
}
