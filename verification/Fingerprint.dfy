/** The deterministic research score of one market snapshot: eligibility gates, then a weighted blend of
    criteria. Times are microseconds. */
module Fingerprint {
  import opened Numbers

  datatype MarketSnapshot = MarketSnapshot(
    symbol: string, pair: string, underlying: int, closes: seq<real>, bid: real, ask: real, observedAt: int,
    quoteAt: Option<int>, candleAt: Option<int>, spreadVerified: bool, timeframeSeconds: int, eventRisk: Option<real>)

  // What the snapshot's own validation admits. `pair` is the symbol in upper case without slashes.
  type Snapshot = s: MarketSnapshot |
    && |s.closes| >= 3 && s.bid > 0.0 && s.ask > 0.0 && s.timeframeSeconds > 0
    && (s.eventRisk.Some? ==> 0.0 <= s.eventRisk.value <= 1.0)
    witness MarketSnapshot("", "", 0, [1.0, 1.0, 1.0], 1.0, 1.0, 0, None, None, false, 1, None)

  datatype Criteria = Criteria(
    efficiency: real, structure: real, volatility: real, cost: real, alignment: real, event: real,
    relativeVolatility: real, direction: real)

  function Clamp(x: real): real {
    Max(0.0, Min(1.0, x))
  }

  function Differences(prices: seq<real>): (moves: seq<real>)
    requires prices != []
    ensures |moves| == |prices| - 1
  {
    seq(|prices| - 1, i requires 0 <= i < |prices| - 1 => prices[i + 1] - prices[i])
  }

  function Return(a: real, b: real): real {
    if a == 0.0 then 0.0 else b / a - 1.0
  }

  function Returns(prices: seq<real>): (rates: seq<real>)
    requires prices != []
    ensures |rates| == |prices| - 1
  {
    seq(|prices| - 1, i requires 0 <= i < |prices| - 1 => Return(prices[i], prices[i + 1]))
  }

  function Lowest(xs: seq<real>): real
    requires xs != []
  {
    if |xs| == 1 then xs[0] else Min(Lowest(xs[..|xs| - 1]), xs[|xs| - 1])
  }

  function Highest(xs: seq<real>): real
    requires xs != []
  {
    if |xs| == 1 then xs[0] else Max(Highest(xs[..|xs| - 1]), xs[|xs| - 1])
  }

  // ----- sums of magnitudes

  lemma {:induction false} MagnitudesBound(xs: seq<real>)
    ensures Abs(Sum(xs)) <= Sum(Magnitudes(xs))
    ensures Sum(Magnitudes(xs)) == 0.0 <==> forall i :: 0 <= i < |xs| ==> xs[i] == 0.0
  {
    if xs != [] {
      var init := xs[..|xs| - 1];
      MagnitudesBound(init);
      assert Magnitudes(xs)[..|xs| - 1] == Magnitudes(init);
      assert forall i :: 0 <= i < |init| ==> init[i] == xs[i];
    }
  }

  ghost predicate OneWay(xs: seq<real>) {
    (forall i :: 0 <= i < |xs| ==> xs[i] >= 0.0) || (forall i :: 0 <= i < |xs| ==> xs[i] <= 0.0)
  }

  lemma {:induction false} SignedSum(xs: seq<real>)
    ensures Sum(xs) == Sum(Magnitudes(xs)) <==> forall i :: 0 <= i < |xs| ==> xs[i] >= 0.0
    ensures -Sum(xs) == Sum(Magnitudes(xs)) <==> forall i :: 0 <= i < |xs| ==> xs[i] <= 0.0
  {
    if xs != [] {
      var init := xs[..|xs| - 1];
      SignedSum(init);
      MagnitudesBound(init);
      assert Magnitudes(xs)[..|xs| - 1] == Magnitudes(init);
      assert forall i :: 0 <= i < |init| ==> init[i] == xs[i];
    }
  }

  function Movement(prices: seq<real>): real
    requires |prices| >= 2
  {
    Mean(Magnitudes(Differences(prices)))
  }

  lemma MeanPositive(xs: seq<real>)
    requires xs != []
    ensures Mean(xs) > 0.0 <==> Sum(xs) > 0.0
  {
    var n := |xs| as real;
    if Sum(xs) > 0.0 {
      DivPositive(Sum(xs), n);
    } else {
      DivLe(Sum(xs), 0.0, n);
    }
  }

  lemma ReturnIsZero(a: real, b: real)
    requires a > 0.0 && Return(a, b) == 0.0
    ensures a == b
  {
    DivMul(b, a);
  }

  /** Positive prices that move at all have a positive mean rate of return. */
  lemma MovementMeansReturns(prices: seq<real>)
    requires |prices| >= 2 && Movement(prices) > 0.0
    requires forall i :: 0 <= i < |prices| ==> prices[i] > 0.0
    ensures Mean(Magnitudes(Returns(prices))) > 0.0
  {
    hide Mean, Sum, Return, Magnitudes;
    var moves, rates := Differences(prices), Returns(prices);
    MeanPositive(Magnitudes(moves));
    MagnitudesBound(moves);
    MagnitudesBound(rates);
    MeanPositive(Magnitudes(rates));
    NotNegative(rates);
    if Sum(Magnitudes(rates)) == 0.0 {
      forall i | 0 <= i < |moves|
        ensures moves[i] == 0.0
      {
        assert rates[i] == 0.0;
        ReturnIsZero(prices[i], prices[i + 1]);
      }
      assert false;
    }
  }

  lemma NotNegative(xs: seq<real>)
    ensures Sum(Magnitudes(xs)) >= 0.0
  {
    MagnitudesBound(xs);
  }

  // ----- gates

  const STALE := "STALE_QUOTE"

  /** Why the snapshot is not eligible, if it is not. `close` is the weekend close in force. */
  function Ineligible(s: Snapshot, now: int, close: Option<int>): Option<string> {
    var prices := s.closes;
    if |prices| < 20 then Some("INSUFFICIENT_HISTORY: at least 20 candles required")
    else if exists i :: 0 <= i < |prices| && prices[i] <= 0.0 then Some("INVALID_PRICE_HISTORY")
    else if s.ask < s.bid then Some("CROSSED_QUOTE")
    else
      var quoteAt := if s.quoteAt.Some? then s.quoteAt.value else s.observedAt;
      if now - quoteAt < -300 * SECOND then Some("FUTURE_QUOTE_TIMESTAMP")
      else if now - quoteAt > 900 * SECOND && (close.None? || quoteAt < close.value - 3 * 3600 * SECOND)
      then Some(STALE)
      else if s.candleAt.Some? && now - s.candleAt.value < -300 * SECOND then Some("FUTURE_CANDLE_TIMESTAMP")
      else if s.candleAt.Some? && StaleCandles(s.candleAt.value, s.timeframeSeconds, now, close)
      then Some("STALE_CANDLES")
      else if Movement(prices) <= 0.0 then Some("NO_PRICE_MOVEMENT")
      else if s.spreadVerified && SpreadRatio(s) > 0.5 then Some("EXCESSIVE_SPREAD_TO_MOVEMENT")
      else if Sum(Magnitudes(Last(Differences(prices), 20))) == 0.0 then Some("NO_RECENT_PRICE_MOVEMENT")
      else None
  }

  predicate StaleCandles(candleAt: int, timeframe: int, now: int, close: Option<int>) {
    var reference := if close.Some? then close.value else now;
    var grace := if close.Some? && timeframe * 3 < 10800 then 10800 else timeframe * 3;
    reference - candleAt > grace * SECOND
  }

  function SpreadRatio(s: Snapshot): real
    requires Movement(s.closes) > 0.0
  {
    (s.ask - s.bid) / Movement(s.closes)
  }

  // ----- criteria

  function Efficiency(recent: seq<real>): real
    requires Sum(Magnitudes(recent)) != 0.0
  {
    Abs(Sum(recent)) / Sum(Magnitudes(recent))
  }

  function Suitability(relative: real): real {
    Clamp(1.0 - Abs(relative - 1.0) / 2.0)
  }

  function RangePosition(window: seq<real>): real
    requires window != []
  {
    var low, high := Lowest(window), Highest(window);
    if high > low then (window[|window| - 1] - low) / (high - low) else 0.5
  }

  /** Every fourth close counted back from the last, the newest five of them. */
  function Coarse(prices: seq<real>): seq<real>
    requires |prices| >= 20
  {
    var n := |prices|;
    [prices[n - 17], prices[n - 13], prices[n - 9], prices[n - 5], prices[n - 1]]
  }

  function Alignment(short: real, long: real): real {
    if short == 0.0 || long == 0.0 then 0.5 else if short * long > 0.0 then 1.0 else 0.0
  }

  function Measured(s: Snapshot, now: int, close: Option<int>): Criteria
    requires Ineligible(s, now, close).None?
  {
    var prices := s.closes;
    var recent, last := Last(Differences(prices), 20), prices[|prices| - 1];
    assert forall i :: 0 <= i < |prices| ==> prices[i] > 0.0;
    MovementMeansReturns(prices);
    var rates := Returns(prices);
    var relative := Mean(Magnitudes(Last(rates, 20))) / Mean(Magnitudes(rates));
    var position := RangePosition(Last(prices, 20));
    Criteria(
      Efficiency(recent),
      if Sum(recent) > 0.0 then position else 1.0 - position,
      Suitability(relative),
      if s.spreadVerified then Clamp(1.0 - SpreadRatio(s) / 0.5) else 0.5,
      Alignment(last - Mean(Last(prices, 5)), last - Mean(Coarse(prices))),
      if s.eventRisk.Some? then 1.0 - s.eventRisk.value else 0.5,
      relative,
      if Sum(recent) > 0.0 then 1.0 else if Sum(recent) < 0.0 then -1.0 else 0.0)
  }

  function Score(c: Criteria): real {
    100.0 * (c.efficiency * 0.20 + c.structure * 0.15 + c.volatility * 0.20
             + c.cost * 0.20 + c.alignment * 0.15 + c.event * 0.10)
  }

  lemma DivisionInUnit(a: real, b: real)
    requires 0.0 <= a <= b && b > 0.0
    ensures 0.0 <= a / b <= 1.0
  {
    DivLe(0.0, a, b);
    DivLe(a, b, b);
  }

  lemma {:induction false} RangeBounds(xs: seq<real>)
    requires xs != []
    ensures Lowest(xs) <= xs[|xs| - 1] <= Highest(xs)
  {
  }

  lemma PositionInUnit(window: seq<real>)
    requires window != []
    ensures 0.0 <= RangePosition(window) <= 1.0
  {
    hide Lowest, Highest;
    RangeBounds(window);
    var low, high := Lowest(window), Highest(window);
    if high > low {
      DivisionInUnit(window[|window| - 1] - low, high - low);
    }
  }

  lemma EfficiencyInUnit(recent: seq<real>)
    requires Sum(Magnitudes(recent)) != 0.0
    ensures 0.0 <= Efficiency(recent) <= 1.0
    ensures Efficiency(recent) == 1.0 <==> OneWay(recent)
  {
    hide Sum, Magnitudes;
    MagnitudesBound(recent);
    SignedSum(recent);
    var total := Sum(Magnitudes(recent));
    DivisionInUnit(Abs(Sum(recent)), total);
    DivMul(Abs(Sum(recent)), total);
  }

  ghost predicate InUnit(x: real) {
    0.0 <= x <= 1.0
  }

  /** Every criterion lies in [0, 1], the trend criterion is 1 exactly when all recent moves go one way, and
      the score lies in [0, 100]. */
  lemma ScoreIsBounded(s: Snapshot, now: int, close: Option<int>)
    requires Ineligible(s, now, close).None?
    ensures
      var c := Measured(s, now, close);
      && InUnit(c.efficiency) && InUnit(c.structure) && InUnit(c.volatility) && InUnit(c.cost) && InUnit(c.alignment)
          && InUnit(c.event)
      && (c.efficiency == 1.0 <==> OneWay(Last(Differences(s.closes), 20)))
      && 0.0 <= Score(c) <= 100.0
  {
    hide Efficiency, RangePosition, OneWay, Mean, Sum, Magnitudes, Returns, Differences, Movement, SpreadRatio;
    EfficiencyInUnit(Last(Differences(s.closes), 20));
    PositionInUnit(Last(s.closes, 20));
  }
}
