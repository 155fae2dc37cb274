/** The research score of a snapshot in terms of its prices: when it is eligible, what each criterion measures
    and how much each counts. */
module FingerprintMeaning {
  import opened Numbers
  import opened Fingerprint

  // ----- sums of moves

  /** The distance the prices travel from index `from` on, both ways counted. */
  function Path(prices: seq<real>, from: nat): real
    requires from < |prices|
    decreases |prices|
  {
    if from == |prices| - 1 then 0.0
    else
      var n := |prices| - 1;
      Path(prices[..n], from) + Abs(prices[n] - prices[n - 1])
  }

  lemma DifferencesSnoc(prices: seq<real>)
    requires |prices| >= 2
    ensures Differences(prices)
      == Differences(prices[..|prices| - 1]) + [prices[|prices| - 1] - prices[|prices| - 2]]
  {
  }

  lemma MagnitudesSnoc(xs: seq<real>, x: real)
    ensures Magnitudes(xs + [x]) == Magnitudes(xs) + [Abs(x)]
  {
  }

  /** The moves from index `from` on. */
  function MovesFrom(prices: seq<real>, from: nat): (moves: seq<real>)
    requires from < |prices|
    ensures |moves| == |prices| - 1 - from
  {
    Differences(prices)[from..]
  }

  lemma MovesFromSnoc(prices: seq<real>, from: nat)
    requires from + 1 < |prices|
    ensures
      var n := |prices| - 1;
      MovesFrom(prices, from) == MovesFrom(prices[..n], from) + [prices[n] - prices[n - 1]]
  {
    DifferencesSnoc(prices);
  }

  lemma LastMove(prices: seq<real>)
    requires prices != []
    ensures MovesFrom(prices, |prices| - 1) == [] && Magnitudes(MovesFrom(prices, |prices| - 1)) == []
  {
  }

  lemma {:induction false} MovesAddUp(prices: seq<real>, from: nat)
    requires from < |prices|
    ensures Sum(MovesFrom(prices, from)) == prices[|prices| - 1] - prices[from]
    ensures Sum(Magnitudes(MovesFrom(prices, from))) == Path(prices, from)
    decreases |prices|
  {
    NoMoves();
    hide Sum, Magnitudes, MovesFrom, Abs;
    if from == |prices| - 1 {
      LastMove(prices);
    } else {
      var n := |prices| - 1;
      var init, move := prices[..n], prices[n] - prices[n - 1];
      MovesFromSnoc(prices, from);
      MovesAddUp(init, from);
      MagnitudesSnoc(MovesFrom(init, from), move);
      SumSnoc(MovesFrom(init, from), move);
      SumSnoc(Magnitudes(MovesFrom(init, from)), Abs(move));
    }
  }

  lemma NoMoves()
    ensures Sum([]) == 0.0
  {
  }

  /** Where the last twenty moves start. */
  function RecentFrom(prices: seq<real>): nat
    requires prices != []
  {
    if |prices| <= 21 then 0 else |prices| - 21
  }

  lemma RecentMoves(prices: seq<real>)
    requires prices != []
    ensures Last(Differences(prices), 20) == MovesFrom(prices, RecentFrom(prices))
  {
  }

  lemma AllMoves(prices: seq<real>)
    requires prices != []
    ensures Differences(prices) == MovesFrom(prices, 0)
  {
  }

  // ----- eligibility

  predicate FreshQuote(s: Snapshot, now: int, close: Option<int>) {
    var at := if s.quoteAt.Some? then s.quoteAt.value else s.observedAt;
    && at <= now + 5 * 60 * 1_000_000
    && (now <= at + 15 * 60 * 1_000_000 || (close.Some? && at >= close.value - 3 * 60 * 60 * 1_000_000))
  }

  predicate FreshCandles(s: Snapshot, now: int, close: Option<int>) {
    s.candleAt.Some? ==>
      && s.candleAt.value <= now + 5 * 60 * 1_000_000
      && if close.None? then now <= s.candleAt.value + 3 * s.timeframeSeconds * 1_000_000
         else
           || close.value <= s.candleAt.value + 3 * s.timeframeSeconds * 1_000_000
           || close.value <= s.candleAt.value + 3 * 60 * 60 * 1_000_000
  }

  /** A verified spread of at most half the mean move. */
  predicate CheapSpread(s: Snapshot) {
    s.spreadVerified ==> 2.0 * (s.ask - s.bid) <= Movement(s.closes)
  }

  ghost predicate MovedLately(prices: seq<real>) {
    exists i :: 0 < i < |prices| && i + 20 >= |prices| && prices[i] != prices[i - 1]
  }

  lemma MeanTimes(xs: seq<real>, n: nat)
    requires |xs| == n > 0
    ensures Times(Mean(xs), n as real) == Sum(xs)
  {
    DivMul(Sum(xs), n as real);
  }

  /** The mean move is the path over the number of moves. */
  lemma MovementIsMeanPath(prices: seq<real>)
    requires |prices| >= 2
    ensures Times(Movement(prices), (|prices| - 1) as real) == Path(prices, 0)
  {
    hide Sum, Magnitudes, Path, Mean, Times, Differences, MovesFrom;
    MovesAddUp(prices, 0);
    AllMoves(prices);
    MeanTimes(Magnitudes(Differences(prices)), |prices| - 1);
  }

  lemma MovedLatelyExactly(prices: seq<real>)
    requires |prices| >= 20
    ensures Sum(Magnitudes(Last(Differences(prices), 20))) != 0.0 <==> MovedLately(prices)
    ensures MovedLately(prices) ==> Movement(prices) > 0.0
  {
    hide Sum, Mean, Magnitudes;
    var moves := Differences(prices);
    var recent := Last(moves, 20);
    MagnitudesBound(recent);
    MagnitudesBound(moves);
    NotNegative(moves);
    MeanPositive(Magnitudes(moves));
    var from := |moves| - |recent|;
    if i :| 0 <= i < |recent| && recent[i] != 0.0 {
      assert moves[from + i] == recent[i];
      assert prices[from + i + 1] != prices[from + i];
    }
    if i :| 0 < i < |prices| && i + 20 >= |prices| && prices[i] != prices[i - 1] {
      assert moves[i - 1] != 0.0 && recent[i - 1 - from] == moves[i - 1];
    }
  }

  lemma SpreadGate(s: Snapshot)
    requires Movement(s.closes) > 0.0
    ensures SpreadRatio(s) > 0.5 <==> 2.0 * (s.ask - s.bid) > Movement(s.closes)
  {
    hide Movement;
    var spread, movement := s.ask - s.bid, Movement(s.closes);
    DivMul(spread, movement);
    if SpreadRatio(s) > 0.5 {
      MulLt(0.5, SpreadRatio(s), movement);
    } else {
      MulLe(SpreadRatio(s), 0.5, movement);
    }
  }

  lemma CandleGate(s: Snapshot, now: int, close: Option<int>)
    ensures FreshCandles(s, now, close) <==>
      s.candleAt.None? || (now - s.candleAt.value >= -300 * SECOND
                           && !StaleCandles(s.candleAt.value, s.timeframeSeconds, now, close))
  {
  }

  /** A snapshot is eligible exactly with twenty positive prices, an uncrossed and fresh quote, fresh candles, a
      cheap spread where it is verified, and a move among its last twenty. */
  lemma EligibleExactly(s: Snapshot, now: int, close: Option<int>)
    ensures Ineligible(s, now, close).None? <==>
      && |s.closes| >= 20 && (forall i :: 0 <= i < |s.closes| ==> s.closes[i] > 0.0)
      && s.bid <= s.ask && FreshQuote(s, now, close) && FreshCandles(s, now, close)
      && CheapSpread(s) && MovedLately(s.closes)
  {
    hide Movement, Sum, Magnitudes, Differences, StaleCandles, SpreadRatio, MovedLately, FreshCandles;
    CandleGate(s, now, close);
    if |s.closes| >= 20 {
      MovedLatelyExactly(s.closes);
      if Movement(s.closes) > 0.0 {
        SpreadGate(s);
      }
    }
  }

  // ----- criteria

  lemma {:induction false} LowestIsAttained(xs: seq<real>)
    requires xs != []
    ensures Lowest(xs) in xs && forall i :: 0 <= i < |xs| ==> Lowest(xs) <= xs[i]
  {
    if |xs| > 1 {
      LowestIsAttained(xs[..|xs| - 1]);
    }
  }

  lemma {:induction false} HighestIsAttained(xs: seq<real>)
    requires xs != []
    ensures Highest(xs) in xs && forall i :: 0 <= i < |xs| ==> xs[i] <= Highest(xs)
  {
    if |xs| > 1 {
      HighestIsAttained(xs[..|xs| - 1]);
    }
  }

  /** `low` and `high` are the extremes of the last twenty prices. */
  ghost predicate Extremes(prices: seq<real>, low: real, high: real) {
    var recent := Last(prices, 20);
    && low in recent && high in recent
    && forall i :: 0 <= i < |recent| ==> low <= recent[i] <= high
  }

  lemma MeasuredFields(s: Snapshot, now: int, close: Option<int>)
    requires Ineligible(s, now, close).None?
    ensures |s.closes| >= 20 && Movement(s.closes) > 0.0 && s.bid <= s.ask
    ensures (s.spreadVerified ==> SpreadRatio(s) <= 0.5) && Sum(Magnitudes(Last(Differences(s.closes), 20))) != 0.0
    ensures
      var c, recent := Measured(s, now, close), Last(Differences(s.closes), 20);
      && c.efficiency == Efficiency(recent)
      && c.structure == (if Sum(recent) > 0.0 then RangePosition(Last(s.closes, 20))
                         else 1.0 - RangePosition(Last(s.closes, 20)))
      && c.volatility == Suitability(c.relativeVolatility)
      && c.cost == (if s.spreadVerified then Clamp(1.0 - SpreadRatio(s) / 0.5) else 0.5)
      && c.alignment == Alignment(LastPrice(s.closes) - Mean(Last(s.closes, 5)),
                                  LastPrice(s.closes) - Mean(Coarse(s.closes)))
      && c.event == (if s.eventRisk.Some? then 1.0 - s.eventRisk.value else 0.5)
      && c.direction == (if Sum(recent) > 0.0 then 1.0 else if Sum(recent) < 0.0 then -1.0 else 0.0)
  {
    hide Movement, Sum, Magnitudes, Differences, StaleCandles, Efficiency, RangePosition, Suitability, SpreadRatio,
         Mean,
         Alignment, Coarse, Clamp, Returns, Last;
  }

  function LastPrice(prices: seq<real>): real
    requires prices != []
  {
    prices[|prices| - 1]
  }

  /** Trend: the criterion is the net move of the last twenty over the distance travelled, its direction the sign
      of that move. */
  lemma TrendMeans(s: Snapshot, now: int, close: Option<int>)
    requires Ineligible(s, now, close).None?
    ensures
      var c, from := Measured(s, now, close), RecentFrom(s.closes);
      var net := s.closes[|s.closes| - 1] - s.closes[from];
      && c.efficiency * Path(s.closes, from) == Abs(net)
      && c.direction == (if net > 0.0 then 1.0 else if net < 0.0 then -1.0 else 0.0)
  {
    hide Measured, Ineligible, Sum, Magnitudes, Path, Abs, Differences, Last, MovesFrom;
    MeasuredFields(s, now, close);
    var from := RecentFrom(s.closes);
    RecentMoves(s.closes);
    MovesAddUp(s.closes, from);
    DivMul(Abs(Sum(MovesFrom(s.closes, from))), Path(s.closes, from));
  }

  /** The share of the range of the last twenty prices below the last one. */
  ghost predicate StandsAt(prices: seq<real>, position: real, low: real, high: real)
    requires prices != []
  {
    && Extremes(prices, low, high)
    && (low < high ==> Times(position, high - low) == LastPrice(prices) - low)
    && (low == high ==> position == 0.5)
  }

  /** Structure: where the last price stands in the range of the last twenty, from the far side in a falling or
      flat trend. */
  lemma StructureMeans(s: Snapshot, now: int, close: Option<int>)
    requires Ineligible(s, now, close).None?
    ensures
      var structure := Measured(s, now, close).structure;
      var rising := LastPrice(s.closes) > s.closes[RecentFrom(s.closes)];
      var position := if rising then structure else 1.0 - structure;
      exists low, high :: StandsAt(s.closes, position, low, high)
  {
    hide Measured, Ineligible, Sum, Magnitudes, Differences, MovesFrom, Lowest, Highest, RangePosition, Times;
    MeasuredFields(s, now, close);
    var recent := Last(s.closes, 20);
    PositionMeans(recent);
    LowestIsAttained(recent);
    HighestIsAttained(recent);
    RecentMoves(s.closes);
    MovesAddUp(s.closes, RecentFrom(s.closes));
    hide Last;
    var structure := Measured(s, now, close).structure;
    var position := if LastPrice(s.closes) > s.closes[RecentFrom(s.closes)] then structure else 1.0 - structure;
    assert position == RangePosition(recent);
    assert StandsAt(s.closes, position, Lowest(recent), Highest(recent));
  }

  lemma PositionMeans(window: seq<real>)
    requires window != []
    ensures
      var low, high := Lowest(window), Highest(window);
      && (low < high ==> Times(RangePosition(window), high - low) == window[|window| - 1] - low)
      && (low >= high ==> RangePosition(window) == 0.5)
  {
    hide Lowest, Highest;
    var low, high := Lowest(window), Highest(window);
    if low < high {
      DivMul(window[|window| - 1] - low, high - low);
    }
  }

  /** Cost and event risk: what half the mean move leaves after the spread, and what the event risk leaves; half
      where they are unknown. */
  lemma CostAndEventMean(s: Snapshot, now: int, close: Option<int>)
    requires Ineligible(s, now, close).None?
    ensures
      var c := Measured(s, now, close);
      && (s.spreadVerified ==> Times(1.0 - c.cost, Movement(s.closes)) == 2.0 * (s.ask - s.bid))
      && (!s.spreadVerified ==> c.cost == 0.5)
      && c.event == (if s.eventRisk.Some? then 1.0 - s.eventRisk.value else 0.5)
  {
    hide Measured, Ineligible, Movement, SpreadRatio, Times;
    MeasuredFields(s, now, close);
    SpreadIs(s);
    if s.spreadVerified {
      assert 1.0 - Measured(s, now, close).cost == SpreadRatio(s) / 0.5;
    }
  }

  lemma SpreadIs(s: Snapshot)
    requires Movement(s.closes) > 0.0 && s.bid <= s.ask
    ensures SpreadRatio(s) >= 0.0
    ensures Times(SpreadRatio(s) / 0.5, Movement(s.closes)) == 2.0 * (s.ask - s.bid)
  {
    hide Movement;
    var spread, movement := s.ask - s.bid, Movement(s.closes);
    DivMul(spread, movement);
    DivLe(0.0, spread, movement);
  }

  /** The rates of return of consecutive prices. */
  lemma RatesMean(prices: seq<real>, i: nat)
    requires i + 1 < |prices| && prices[i] > 0.0
    ensures Times(1.0 + Returns(prices)[i], prices[i]) == prices[i + 1]
  {
    DivMul(prices[i + 1], prices[i]);
  }

  /** Volatility: the mean size of the last twenty rates over that of all of them; its suitability falls by half of
      the distance from one, to zero at the least. */
  lemma VolatilityMeans(s: Snapshot, now: int, close: Option<int>)
    requires Ineligible(s, now, close).None?
    ensures
      var c, rates := Measured(s, now, close), Returns(s.closes);
      && Mean(Magnitudes(rates)) > 0.0
      && Times(c.relativeVolatility, Mean(Magnitudes(rates))) == Mean(Magnitudes(Last(rates, 20)))
      && (-1.0 <= c.relativeVolatility <= 3.0 ==> 2.0 * (1.0 - c.volatility) == Abs(c.relativeVolatility - 1.0))
      && (c.relativeVolatility > 3.0 ==> c.volatility == 0.0)
  {
    hide Sum, Magnitudes, Path, Movement, Mean, Returns, Alignment, Efficiency, RangePosition, SpreadRatio;
    MovementMeansReturns(s.closes);
    hide Ineligible, Suitability, Times;
    var rates := Returns(s.closes);
    Quotient(Mean(Magnitudes(Last(rates, 20))), Mean(Magnitudes(rates)));
    SuitabilityMeans(Measured(s, now, close).relativeVolatility);
  }

  lemma Quotient(a: real, b: real)
    requires b > 0.0
    ensures Times(a / b, b) == a
  {
    DivMul(a, b);
  }

  lemma SuitabilityMeans(relative: real)
    ensures -1.0 <= relative <= 3.0 ==> 2.0 * (1.0 - Suitability(relative)) == Abs(relative - 1.0)
    ensures relative > 3.0 ==> Suitability(relative) == 0.0
  {
  }

  /** Alignment: whether the last price stands on the same side of its last five as of the last five of every fourth
      price; half where it stands on either mean. */
  lemma AlignmentMeans(s: Snapshot, now: int, close: Option<int>)
    requires Ineligible(s, now, close).None?
    ensures
      var c, p, n := Measured(s, now, close), s.closes, |s.closes|;
      var short := 5.0 * p[n - 1] - (p[n - 5] + p[n - 4] + p[n - 3] + p[n - 2] + p[n - 1]);
      var long := 5.0 * p[n - 1] - (p[n - 17] + p[n - 13] + p[n - 9] + p[n - 5] + p[n - 1]);
      && (c.alignment == 0.5 <==> short == 0.0 || long == 0.0)
      && (c.alignment == 1.0 <==> (short > 0.0 && long > 0.0) || (short < 0.0 && long < 0.0))
      && (c.alignment == 0.0 <==> (short > 0.0 && long < 0.0) || (short < 0.0 && long > 0.0))
  {
    hide Measured, Ineligible, Mean, Alignment;
    MeasuredFields(s, now, close);
    var p := s.closes;
    FiveMean(Last(p, 5));
    FiveMean(Coarse(p));
    SameSign(LastPrice(p) - Mean(Last(p, 5)), LastPrice(p) - Mean(Coarse(p)));
  }

  lemma FiveMean(xs: seq<real>)
    requires |xs| == 5
    ensures 5.0 * Mean(xs) == xs[0] + xs[1] + xs[2] + xs[3] + xs[4]
  {
    var four, three, two := xs[..4], xs[..3], xs[..2];
    assert four[..3] == three && three[..2] == two && two[..1] == xs[..1] && xs[..1][..0] == [];
    assert Sum(two) == xs[0] + xs[1] by {
      assert Sum(xs[..1]) == xs[0];
    }
    assert Sum(three) == Sum(two) + xs[2] && Sum(four) == Sum(three) + xs[3];
  }

  lemma SameSign(short: real, long: real)
    ensures Alignment(short, long) == 0.5 <==> short == 0.0 || long == 0.0
    ensures Alignment(short, long) == 1.0 <==> (short > 0.0 && long > 0.0) || (short < 0.0 && long < 0.0)
    ensures Alignment(short, long) == 0.0 <==> (short > 0.0 && long < 0.0) || (short < 0.0 && long > 0.0)
  {
    if short > 0.0 {
      MulSign(short, long);
    } else if short < 0.0 {
      MulSign(-short, -long);
      assert short * long == -short * -long;
    }
  }

  lemma MulSign(a: real, b: real)
    requires a > 0.0
    ensures b > 0.0 ==> a * b > 0.0
    ensures b < 0.0 ==> a * b < 0.0
  {
  }

  /** The weights of the score: trend, volatility and cost count twenty points each, structure and alignment
      fifteen, the event risk ten, and nothing else counts. */
  lemma ScoreWeighs(c: Criteria)
    ensures Score(Criteria(0.0, 0.0, 0.0, 0.0, 0.0, 0.0, c.relativeVolatility, c.direction)) == 0.0
    ensures Score(c) - Score(c.(efficiency := 0.0)) == 20.0 * c.efficiency
    ensures Score(c) - Score(c.(structure := 0.0)) == 15.0 * c.structure
    ensures Score(c) - Score(c.(volatility := 0.0)) == 20.0 * c.volatility
    ensures Score(c) - Score(c.(cost := 0.0)) == 20.0 * c.cost
    ensures Score(c) - Score(c.(alignment := 0.0)) == 15.0 * c.alignment
    ensures Score(c) - Score(c.(event := 0.0)) == 10.0 * c.event
  {
  }
}
