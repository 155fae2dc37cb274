/** What agents and winners do to scores: how an adjustment moves one, what a ready candidate shows of its
    snapshot, what two pairs share, and which winners each lane is held against. */
module LaneMeaning {
  import opened Numbers
  import opened Fingerprint
  import opened Ranking
  import opened Lanes
  import opened LaneRuns
  import opened Diversification

  // ----- the order

  /** Ranked results fall in score; equal scores stand in the order of their names. */
  lemma RankedFalls<T>(s: seq<Entry<T>>, i: nat, j: nat)
    requires i < j < |Ranked(s)|
    ensures
      var a, b := Ranked(s)[i], Ranked(s)[j];
      a.score > b.score || (a.score == b.score && !Less(b.name, a.name))
  {
    RankedIsInOrder(s);
  }

  /** The names agree up to `k`, where the first ends or has the smaller letter. */
  predicate FirstDiffers(a: string, b: string, k: nat) {
    k <= |a| && k < |b| && a[..k] == b[..k] && (k == |a| || a[k] < b[k])
  }

  lemma {:induction false} DifferenceIsLess(a: string, b: string, k: nat)
    requires FirstDiffers(a, b, k)
    ensures Less(a, b)
    decreases k
  {
    if k > 0 {
      assert a[..k][0] == b[..k][0];
      assert a[1..][..k - 1] == a[..k][1..] && b[1..][..k - 1] == b[..k][1..];
      DifferenceIsLess(a[1..], b[1..], k - 1);
    }
  }

  lemma {:induction false} LessDiffers(a: string, b: string) returns (k: nat)
    requires Less(a, b)
    ensures FirstDiffers(a, b, k)
    decreases |a|
  {
    if a == [] || a[0] < b[0] {
      assert a[..0] == b[..0];
      return 0;
    }
    var rest := LessDiffers(a[1..], b[1..]);
    assert a[..rest + 1] == [a[0]] + a[1..][..rest] && b[..rest + 1] == [b[0]] + b[1..][..rest];
    return rest + 1;
  }

  /** Code-point order: the first difference decides, and a prefix comes first. */
  lemma LessExactly(a: string, b: string)
    ensures Less(a, b) <==> exists k: nat :: FirstDiffers(a, b, k)
  {
    hide Less, FirstDiffers;
    if Less(a, b) {
      var k := LessDiffers(a, b);
    }
    if k: nat :| FirstDiffers(a, b, k) {
      DifferenceIsLess(a, b, k);
    }
  }

  // ----- adjustments

  /** The point of `low..high` nearest to `x`. */
  predicate Nearest(low: real, high: real, x: real, point: real) {
    && (low <= x <= high ==> point == x)
    && (x < low ==> point == low)
    && (x > high ==> point == high)
  }

  /** The entry is the last one of its instrument. */
  ghost predicate LastEntry(items: seq<Item>, i: nat, symbol: string) {
    && i < |items| && items[i].instrument == Some(symbol)
    && forall k :: i < k < |items| ==> items[k].instrument != Some(symbol)
  }

  lemma LastEntryStays(items: seq<Item>, i: nat, symbol: string)
    requires items != [] && LastEntry(items[..|items| - 1], i, symbol)
    requires items[|items| - 1].instrument != Some(symbol)
    ensures LastEntry(items, i, symbol) && items[i] == items[..|items| - 1][i]
  {
    assert forall k :: 0 <= k < |items| - 1 ==> items[k] == items[..|items| - 1][k];
  }

  lemma LastEntryIs(items: seq<Item>, symbol: string)
    requires items != [] && items[|items| - 1].instrument == Some(symbol)
    ensures LastEntry(items, |items| - 1, symbol)
  {
  }

  lemma LastEntryInRange(items: seq<Item>, i: nat, symbol: string)
    requires LastEntry(items, i, symbol)
    ensures i < |items|
  {
  }

  /** The last listed value of an instrument counts. */
  lemma {:induction false} LastEntryCounts(items: seq<Item>, symbol: string) returns (i: nat)
    ensures symbol in Table(items) ==> LastEntry(items, i, symbol) && Table(items)[symbol] == items[i].adjustment
    ensures symbol !in Table(items) ==> forall k :: 0 <= k < |items| ==> items[k].instrument != Some(symbol)
  {
    hide LastEntry;
    i := 0;
    if items != [] {
      var n := |items| - 1;
      if items[n].instrument == Some(symbol) {
        i := n;
        LastEntryIs(items, symbol);
      } else {
        i := LastEntryCounts(items[..n], symbol);
        if symbol in Table(items) {
          LastEntryInRange(items[..n], i, symbol);
          LastEntryStays(items, i, symbol);
        } else {
          assert forall k :: 0 <= k < n ==> items[k] == items[..n][k];
        }
      }
    }
  }

  /** A numeric adjustment counts as the nearest value within ten points either way; anything else is dropped. */
  lemma AdjustmentIsNearest(raw: Raw, symbol: string)
    ensures symbol in Bounded(Fields(raw)) <==> symbol in Fields(raw) && Fields(raw)[symbol].Number?
    ensures symbol in Bounded(Fields(raw)) ==>
      Nearest(-10.0, 10.0, Fields(raw)[symbol].value, Bounded(Fields(raw))[symbol])
  {
  }

  function Floor(base: real): real {
    if base < 15.0 then 0.0 else base - 15.0
  }

  function Ceiling(base: real): real {
    if base > 85.0 then 100.0 else base + 15.0
  }

  /** An adjusted score moves by its adjustment, up for a positive and down for a negative one, to the nearest value
      within fifteen points of the base and within [0, 100]; other scores stay. */
  lemma ScoreMovesByItsAdjustment(base: map<string, real>, scores: map<string, real>, adjustments: map<string, real>,
                                  symbol: string)
    requires scores.Keys == base.Keys && symbol in scores && 0.0 <= base[symbol] <= 100.0
    ensures
      var moved := AdjustAll(base, scores, adjustments)[symbol];
      && (symbol !in adjustments ==> moved == scores[symbol])
      && (symbol in adjustments ==>
            Nearest(Floor(base[symbol]), Ceiling(base[symbol]), scores[symbol] + adjustments[symbol], moved))
      && (symbol in adjustments && NearBase(base[symbol], scores[symbol]) ==>
            && (adjustments[symbol] >= 0.0 ==> moved >= scores[symbol])
            && (adjustments[symbol] <= 0.0 ==> moved <= scores[symbol]))
  {
  }

  /** Each agreeing analyst adjusts what the ones before left. */
  lemma {:induction false} ReviewAddsUp(base: map<string, real>, scores: map<string, real>, replies: seq<Reply>,
                                        raw: Raw)
    requires scores.Keys == base.Keys && ReviewAll(base, scores, replies).Passed?
    ensures ReviewAll(base, scores, replies + [Answer(true, raw)])
         == Passed(AdjustAll(base, ReviewAll(base, scores, replies).scores, Bounded(Fields(raw))))
    decreases |replies|
  {
    hide AdjustAll, Bounded, Fields;
    var more := replies + [Answer(true, raw)];
    if replies == [] {
      assert more[1..] == [];
      assert ReviewAll(base, AdjustAll(base, scores, Bounded(Fields(raw))), [])
        == Passed(AdjustAll(base, scores, Bounded(Fields(raw))));
    } else {
      assert more[1..] == replies[1..] + [Answer(true, raw)];
      ReviewAddsUp(base, AdjustAll(base, scores, Bounded(Fields(replies[0].adjustments))), replies[1..], raw);
    }
  }

  // ----- ready candidates

  /** The snapshot is the last eligible one of its symbol. */
  ghost predicate LastOf(snapshots: seq<Snapshot>, i: nat, symbol: string, now: int, close: Option<int>) {
    && i < |snapshots| && IsEligible(snapshots[i], symbol, now, close)
    && forall k :: i < k < |snapshots| ==> !IsEligible(snapshots[k], symbol, now, close)
  }

  lemma LastOfStays(snapshots: seq<Snapshot>, i: nat, symbol: string, now: int, close: Option<int>)
    requires snapshots != [] && LastOf(snapshots[..|snapshots| - 1], i, symbol, now, close)
    requires !IsEligible(snapshots[|snapshots| - 1], symbol, now, close)
    ensures LastOf(snapshots, i, symbol, now, close) && snapshots[i] == snapshots[..|snapshots| - 1][i]
  {
    hide IsEligible;
    assert forall k :: 0 <= k < |snapshots| - 1 ==> snapshots[k] == snapshots[..|snapshots| - 1][k];
  }

  lemma LastOfIs(snapshots: seq<Snapshot>, symbol: string, now: int, close: Option<int>)
    requires snapshots != [] && IsEligible(snapshots[|snapshots| - 1], symbol, now, close)
    ensures LastOf(snapshots, |snapshots| - 1, symbol, now, close)
  {
  }

  lemma LastOfInRange(snapshots: seq<Snapshot>, i: nat, symbol: string, now: int, close: Option<int>)
    requires LastOf(snapshots, i, symbol, now, close)
    ensures i < |snapshots| && Ineligible(snapshots[i], now, close).None?
  {
    hide Ineligible;
  }

  /** The last snapshot decides for its own symbol where it is eligible, and for no other. */
  lemma OneSnapshotMore(snapshots: seq<Snapshot>, now: int, close: Option<int>, symbol: string)
    requires snapshots != []
    ensures
      var n := |snapshots| - 1;
      var before, after := Measures(snapshots[..n], now, close), Measures(snapshots, now, close);
      if IsEligible(snapshots[n], symbol, now, close)
      then symbol in after && after[symbol] == Measured(snapshots[n], now, close)
      else (symbol in after <==> symbol in before) && (symbol in after ==> after[symbol] == before[symbol])
  {
    hide Ineligible, Measured;
  }

  /** The criteria of a symbol are those of its last eligible snapshot. */
  lemma {:induction false} LastSnapshotCounts(snapshots: seq<Snapshot>, now: int, close: Option<int>, symbol: string)
    returns (i: nat)
    ensures symbol in Measures(snapshots, now, close) ==>
      LastOf(snapshots, i, symbol, now, close)
        && Measures(snapshots, now, close)[symbol] == Measured(snapshots[i], now, close)
    ensures symbol !in Measures(snapshots, now, close) ==>
      forall k :: 0 <= k < |snapshots| ==> !IsEligible(snapshots[k], symbol, now, close)
  {
    if snapshots == [] {
      return 0;
    }
    var n := |snapshots| - 1;
    hide Ineligible, Measured, LastOf, Measures, IsEligible;
    OneSnapshotMore(snapshots, now, close, symbol);
    if IsEligible(snapshots[n], symbol, now, close) {
      LastOfIs(snapshots, symbol, now, close);
      return n;
    }
    i := LastSnapshotCounts(snapshots[..n], now, close, symbol);
    if symbol in Measures(snapshots, now, close) {
      LastOfInRange(snapshots[..n], i, symbol, now, close);
      LastOfStays(snapshots, i, symbol, now, close);
    } else {
      NoneBefore(snapshots, snapshots[..n], symbol, now, close);
    }
  }

  lemma NoneBefore(snapshots: seq<Snapshot>, init: seq<Snapshot>, symbol: string, now: int, close: Option<int>)
    requires snapshots != [] && init == snapshots[..|snapshots| - 1]
    requires !IsEligible(snapshots[|snapshots| - 1], symbol, now, close)
    requires forall k :: 0 <= k < |init| ==> !IsEligible(init[k], symbol, now, close)
    ensures forall k :: 0 <= k < |snapshots| ==> !IsEligible(snapshots[k], symbol, now, close)
  {
    hide IsEligible;
    assert forall k :: 0 <= k < |init| ==> snapshots[k] == init[k];
  }

  predicate IsEligible(s: Snapshot, symbol: string, now: int, close: Option<int>) {
    s.symbol == symbol && Ineligible(s, now, close).None?
  }

  /** The eligible snapshots are those that pass the gates, in order. */
  lemma {:induction false} EligibleAreKept(snapshots: seq<Snapshot>, now: int, close: Option<int>, s: Snapshot)
    ensures s in Eligible(snapshots, now, close) <==> s in snapshots && Ineligible(s, now, close).None?
  {
    hide Ineligible;
    if snapshots != [] {
      var n := |snapshots| - 1;
      EligibleAreKept(snapshots[..n], now, close, s);
      assert snapshots == snapshots[..n] + [snapshots[n]];
    }
  }

  /** A ready candidate shows its snapshot's names and underlying, the direction measured for its symbol and the
      adjusted score of its symbol. */
  lemma CandidateShowsItsSnapshot(lane: Lane, eligible: seq<Snapshot>, measures: map<string, Criteria>,
                                  scores: map<string, real>, k: nat)
    requires eligible != [] && scores.Keys == measures.Keys && forall s :: s in eligible ==> s.symbol in measures
    requires k < |ReadyResult(lane, eligible, measures, scores).ranked|
    ensures
      var c := ReadyResult(lane, eligible, measures, scores).ranked[k];
      exists s :: s in eligible && c.symbol == s.symbol && c.pair == s.pair && c.underlying == s.underlying
        && c.direction == measures[s.symbol].direction && c.score == scores[s.symbol]
  {
    hide Ranked;
    KeyedItems(eligible, scores);
    var order := Ranked(Keyed(eligible, scores));
    assert order[k] in order;
    assert order[k].item in eligible;
  }

  // ----- penalties

  /** A forex pair of six letters. */
  predicate IsPair(lane: Lane, c: Candidate) {
    lane.assetClass == "FOREX" && |c.pair| == 6
  }

  /** Two pairs share an exposure when one currency is held the same way by both: the same side of the same leg, or
      opposite sides of opposite legs. Nothing else has exposures. */
  lemma PairsShareExactly(a: Lane, c: Candidate, b: Lane, d: Candidate)
    ensures !IsPair(a, c) ==> Exposures(a, c) == {}
    ensures IsPair(a, c) && IsPair(b, d) ==>
      (Exposures(a, c) * Exposures(b, d) != {} <==>
        || (c.pair[..3] == d.pair[..3] && c.direction == d.direction)
        || (c.pair[3..] == d.pair[3..] && c.direction == d.direction)
        || (c.pair[..3] == d.pair[3..] && c.direction == -d.direction)
        || (c.pair[3..] == d.pair[..3] && c.direction == -d.direction))
  {
    if IsPair(a, c) && IsPair(b, d) {
      var x, y := Exposures(a, c), Exposures(b, d);
      var overlap := x * y;
      if (c.pair[..3], c.direction) in y {
        assert (c.pair[..3], c.direction) in overlap;
      }
      if (c.pair[3..], -c.direction) in y {
        assert (c.pair[3..], -c.direction) in overlap;
      }
      if e :| e in overlap {
        assert e in x && e in y;
      } else {
        assert forall e :: e !in overlap;
      }
    }
  }

  /** The penalty: ten points for an underlying that a winner has, five for each shared exposure, fifteen at most. */
  lemma PenaltyExactly(lane: Lane, c: Candidate, taken: set<int>, carried: set<Exposure>)
    ensures
      var shared, penalty := |Exposures(lane, c) * carried|, Penalty(lane, c, taken, carried);
      && shared <= 2
      && (c.underlying !in taken ==> penalty == 5.0 * shared as real)
      && (c.underlying in taken ==> penalty == if shared == 0 then 10.0 else 15.0)
  {
    var exposures := Exposures(lane, c);
    SmallerSet(exposures * carried, exposures);
  }

  lemma SmallerSet(small: set<Exposure>, large: set<Exposure>)
    requires small <= large
    ensures |small| <= |large|
  {
    assert large == small + (large - small);
  }

  /** Re-ranking lowers every candidate by its penalty, to zero at the least, and loses and invents none. */
  lemma RerankedLowersByPenalty(r: LaneResult, taken: set<int>, carried: set<Exposure>)
    requires r.ranked != []
    ensures
      var next := Reranked(r, taken, carried);
      && |next.ranked| == |r.ranked|
      && (forall i :: 0 <= i < |next.ranked| ==> next.ranked[i].rank == i + 1)
      && (forall i :: 0 <= i < |next.ranked| ==> LoweredFrom(r, next.ranked[i], taken, carried))
      && forall k :: 0 <= k < |r.ranked| ==> IsShown(r, next, k, taken, carried)
  {
    hide Ranked, Penalized, Before;
    var values := PenalizedAll(r, taken, carried);
    var entries := ByScore(values);
    var order, next := Ranked(entries), Reranked(r, taken, carried);
    forall i | 0 <= i < |order|
      ensures LoweredFrom(r, next.ranked[i], taken, carried)
    {
      assert order[i] in multiset(entries);
      var k :| 0 <= k < |entries| && entries[k] == order[i];
      assert next.ranked[i] == Penalized(r.lane, r.ranked[k], taken, carried).(rank := i + 1);
    }
    forall k | 0 <= k < |r.ranked|
      ensures IsShown(r, next, k, taken, carried)
    {
      assert entries[k] in multiset(order);
      var i :| 0 <= i < |order| && order[i] == entries[k];
      assert next.ranked[i] == Penalized(r.lane, r.ranked[k], taken, carried).(rank := i + 1);
    }
  }

  ghost predicate LoweredFrom(r: LaneResult, c: Candidate, taken: set<int>, carried: set<Exposure>) {
    exists k :: 0 <= k < |r.ranked| && c == Penalized(r.lane, r.ranked[k], taken, carried).(rank := c.rank)
  }

  ghost predicate IsShown(r: LaneResult, next: LaneResult, k: nat, taken: set<int>, carried: set<Exposure>)
    requires k < |r.ranked|
  {
    exists i :: 0 <= i < |next.ranked|
      && next.ranked[i] == Penalized(r.lane, r.ranked[k], taken, carried).(rank := i + 1)
  }

  /** A penalized candidate is lowered by exactly its penalty, to zero at the least. */
  lemma PenalizedIsLowered(lane: Lane, c: Candidate, taken: set<int>, carried: set<Exposure>)
    ensures
      var after, penalty := Penalized(lane, c, taken, carried), Penalty(lane, c, taken, carried);
      && after == c.(score := after.score)
      && (c.score >= penalty ==> after.score == c.score - penalty) && (c.score < penalty ==> after.score == 0.0)
  {
  }

  // ----- the greedy pass

  /** The winner of a visited lane. */
  function WinnerOf(results: seq<LaneResult>, i: nat): Candidate
    requires i < |results| && results[i].ranked != []
  {
    results[i].ranked[0]
  }

  /** Underlyings of the first `k` winners, besides those already taken. */
  ghost function TakenBy(final: seq<LaneResult>, order: seq<nat>, k: nat, taken: set<int>): set<int>
    requires k <= |order| && Visits(final, order)
  {
    taken + set j | 0 <= j < k :: WinnerOf(final, order[j]).underlying
  }

  ghost function CarriedBy(final: seq<LaneResult>, order: seq<nat>, k: nat, carried: set<Exposure>): set<Exposure>
    requires k <= |order| && Visits(final, order)
  {
    carried + set j, e | 0 <= j < k && e in Exposures(final[order[j]].lane, WinnerOf(final, order[j])) :: e
  }

  lemma RerankedIsRanked(r: LaneResult, taken: set<int>, carried: set<Exposure>)
    requires r.ranked != []
    ensures Reranked(r, taken, carried).ranked != [] && Reranked(r, taken, carried).lane == r.lane
  {
  }

  lemma {:induction false} PassVisits(results: seq<LaneResult>, order: seq<nat>, taken: set<int>,
                                      carried: set<Exposure>)
    requires Visits(results, order)
    ensures
      var final := Pass(results, order, taken, carried);
      && |final| == |results| && Visits(final, order)
      && forall i :: 0 <= i < |results| && i !in order ==> final[i] == results[i]
    decreases |order|
  {
    hide Reranked, Exposures;
    if order != [] {
      var r := Reranked(results[order[0]], taken, carried);
      RerankedIsRanked(results[order[0]], taken, carried);
      VisitsOn(results, order, r);
      var rest := order[1..];
      var final := Pass(results, order, taken, carried);
      PassVisits(results[order[0] := r], rest, taken + {r.ranked[0].underlying},
                 carried + Exposures(r.lane, r.ranked[0]));
      assert forall k :: 0 <= k < |rest| ==> rest[k] == order[k + 1];
      assert order[0] !in rest;
      assert final[order[0]] == r;
      forall k | 0 <= k < |order| ensures order[k] < |final| && final[order[k]].ranked != [] {
        if k > 0 {
          assert order[k] == rest[k - 1];
        }
      }
      assert forall i :: i in rest ==> i in order;
    }
  }

  /** The pass is greedy: every visited lane ends re-ranked against exactly the winners of the lanes visited before
      it, by their underlyings and their exposures, and every other lane stays. */
  lemma {:induction false} LanesFaceEarlierWinners(results: seq<LaneResult>, order: seq<nat>, taken: set<int>,
                                                   carried: set<Exposure>, k: nat)
    requires Visits(results, order) && k < |order|
    ensures
      var final := Pass(results, order, taken, carried);
      && |final| == |results| && Visits(final, order)
      && final[order[k]] ==
           Reranked(results[order[k]], TakenBy(final, order, k, taken), CarriedBy(final, order, k, carried))
    decreases |order|
  {
    hide Reranked, Exposures;
    PassVisits(results, order, taken, carried);
    var final := Pass(results, order, taken, carried);
    var r := Reranked(results[order[0]], taken, carried);
    RerankedIsRanked(results[order[0]], taken, carried);
    VisitsOn(results, order, r);
    var next, rest := results[order[0] := r], order[1..];
    var winner := r.ranked[0];
    var taken', carried' := taken + {winner.underlying}, carried + Exposures(r.lane, winner);
    PassVisits(next, rest, taken', carried');
    assert order[0] !in rest;
    assert final[order[0]] == r;
    if k == 0 {
      assert TakenBy(final, order, 0, taken) == taken;
      assert CarriedBy(final, order, 0, carried) == carried;
    } else {
      LanesFaceEarlierWinners(next, rest, taken', carried', k - 1);
      assert rest[k - 1] == order[k];
      OneMoreWinner(final, order, k, taken, carried);
    }
  }

  lemma OneMoreWinner(final: seq<LaneResult>, order: seq<nat>, k: nat, taken: set<int>, carried: set<Exposure>)
    requires 0 < k <= |order| && Visits(final, order) && Visits(final, order[1..])
    ensures
      var r := final[order[0]];
      && TakenBy(final, order[1..], k - 1, taken + {r.ranked[0].underlying}) == TakenBy(final, order, k, taken)
      && CarriedBy(final, order[1..], k - 1, carried + Exposures(r.lane, r.ranked[0]))
        == CarriedBy(final, order, k, carried)
  {
    hide Exposures;
    var r, rest := final[order[0]], order[1..];
    assert forall j :: 0 <= j < |rest| ==> rest[j] == order[j + 1];
    forall x
      ensures x in TakenBy(final, rest, k - 1, taken + {r.ranked[0].underlying}) <==>
        x in TakenBy(final, order, k, taken)
    {
      if j :| 0 <= j < k && WinnerOf(final, order[j]).underlying == x {
        if j > 0 {
          assert WinnerOf(final, rest[j - 1]).underlying == x;
        }
      }
    }
    forall e
      ensures e in CarriedBy(final, rest, k - 1, carried + Exposures(r.lane, r.ranked[0]))
        <==> e in CarriedBy(final, order, k, carried)
    {
      if j :| 0 <= j < k && e in Exposures(final[order[j]].lane, WinnerOf(final, order[j])) {
        if j > 0 {
          assert e in Exposures(final[rest[j - 1]].lane, WinnerOf(final, rest[j - 1]));
        }
      }
    }
  }
}
