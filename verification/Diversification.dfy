/** The diversification pass: ready lanes in order of their winners, each re-ranked against the
    underlyings and currency exposures of the winners before it. */
module Diversification {
  import opened Numbers
  import opened Ranking
  import opened Lanes
  import opened LaneRuns

  type Exposure = (string, real)

  /** A six-letter forex pair is long one currency and short the other. */
  function Exposures(lane: Lane, c: Candidate): set<Exposure> {
    if lane.assetClass == "FOREX" && |c.pair| == 6 then {(c.pair[..3], c.direction), (c.pair[3..], -c.direction)}
    else {}
  }

  function Penalty(lane: Lane, c: Candidate, taken: set<int>, carried: set<Exposure>): real {
    Min(15.0, (if c.underlying in taken then 10.0 else 0.0) + 5.0 * |Exposures(lane, c) * carried| as real)
  }

  function Penalized(lane: Lane, c: Candidate, taken: set<int>, carried: set<Exposure>): Candidate {
    c.(score := Max(0.0, c.score - Penalty(lane, c, taken, carried)))
  }

  function PenalizedAll(r: LaneResult, taken: set<int>, carried: set<Exposure>): seq<Candidate> {
    seq(|r.ranked|, i requires 0 <= i < |r.ranked| => Penalized(r.lane, r.ranked[i], taken, carried))
  }

  /** Ranks 1 to k along the order. */
  function Numbered(order: seq<Entry<Candidate>>): seq<Candidate> {
    seq(|order|, i requires 0 <= i < |order| => order[i].item.(rank := i + 1))
  }

  function Reranked(r: LaneResult, taken: set<int>, carried: set<Exposure>): LaneResult
    requires r.ranked != []
  {
    var ranked := Numbered(Ranked(ByScore(PenalizedAll(r, taken, carried))));
    r.(ranked := ranked, candidate := Some(ranked[0]))
  }

  /** Ready results by their winner's score, then by lane name. */
  function ReadyEntries(results: seq<LaneResult>): seq<Entry<nat>> {
    if results == [] then []
    else
      var n := |results| - 1;
      var r := results[n];
      ReadyEntries(results[..n])
        + if r.status == Ready && r.candidate.Some? then [Entry(r.candidate.value.score, LaneName(r.lane), n)] else []
  }

  function RankedReady(results: seq<LaneResult>): seq<Entry<nat>> {
    Ranked<nat>(ReadyEntries(results))
  }

  function Order(results: seq<LaneResult>): seq<nat> {
    var ranked := RankedReady(results);
    seq(|ranked|, i requires 0 <= i < |ranked| => ranked[i].item)
  }

  ghost predicate Visits(results: seq<LaneResult>, order: seq<nat>) {
    && (forall k :: 0 <= k < |order| ==> order[k] < |results| && results[order[k]].ranked != [])
    && (forall j, k :: 0 <= j < k < |order| ==> order[j] != order[k])
  }

  /** The greedy pass from the lanes in `order` on. */
  ghost function Pass(results: seq<LaneResult>, order: seq<nat>, taken: set<int>,
                      carried: set<Exposure>): seq<LaneResult>
    requires Visits(results, order)
    decreases |order|
  {
    if order == [] then results
    else
      var r := Reranked(results[order[0]], taken, carried);
      var winner := r.ranked[0];
      Pass(results[order[0] := r], order[1..], taken + {winner.underlying}, carried + Exposures(r.lane, winner))
  }

  // ----- the order visits each ready lane once

  /** The entry of a ready lane. */
  ghost predicate EntryOf(results: seq<LaneResult>, e: Entry<nat>) {
    && e.item < |results| && results[e.item].status == Ready && results[e.item].candidate.Some?
    && e == Entry(results[e.item].candidate.value.score, LaneName(results[e.item].lane), e.item)
  }

  lemma {:induction false} EntriesAreReady(results: seq<LaneResult>, e: Entry<nat>)
    ensures e in ReadyEntries(results) <==> EntryOf(results, e)
  {
    hide LaneName;
    if results != [] {
      var n := |results| - 1;
      EntriesAreReady(results[..n], e);
      assert e.item < n ==> results[..n][e.item] == results[e.item];
    }
  }

  lemma {:induction false} EntriesOnce(results: seq<LaneResult>, e: Entry<nat>)
    ensures multiset(ReadyEntries(results))[e] <= 1
  {
    hide LaneName;
    if results != [] {
      var n := |results| - 1;
      EntriesOnce(results[..n], e);
      EntriesAreReady(results[..n], e);
      assert e.item >= n ==> e !in multiset(ReadyEntries(results[..n]));
    }
  }

  lemma Twice<T>(s: seq<T>, j: nat, k: nat)
    requires j < k < |s| && s[j] == s[k]
    ensures multiset(s)[s[k]] >= 2
  {
    var front, back := s[..k], s[k..];
    assert s == front + back;
    assert front[j] == s[k] && back[0] == s[k];
    assert s[k] in multiset(front) && s[k] in multiset(back);
  }

  lemma NoRepeats<T>(s: seq<T>)
    requires forall x :: x in s ==> multiset(s)[x] <= 1
    ensures forall j, k :: 0 <= j < k < |s| ==> s[j] != s[k]
  {
    forall j, k | 0 <= j < k < |s|
      ensures s[j] != s[k]
    {
      if s[j] == s[k] {
        Twice(s, j, k);
      }
    }
  }

  lemma RankedVisit(results: seq<LaneResult>, e: Entry<nat>)
    ensures multiset(RankedReady(results))[e] <= 1
    ensures e in RankedReady(results) <==> EntryOf(results, e)
  {
    hide EntryOf, ReadyEntries, Ranked;
    EntriesAreReady(results, e);
    EntriesOnce(results, e);
    assert multiset(RankedReady(results)) == multiset(ReadyEntries(results));
    assert e in RankedReady(results) <==> e in multiset(RankedReady(results));
  }

  /** Every ready lane is visited once, and no other lane. */
  lemma OrderVisitsReady(results: seq<LaneResult>)
    requires forall i :: 0 <= i < |results| ==> Consistent(results[i])
    ensures Visits(results, Order(results))
    ensures forall i :: 0 <= i < |results| ==> (results[i].status == Ready <==> i in Order(results))
  {
    hide Consistent, LaneName, RankedReady;
    var ranked := RankedReady(results);
    VisitedAreReady(results);
    forall j, k | 0 <= j < k < |ranked|
      ensures ranked[j].item != ranked[k].item
    {
      assert ranked[j] != ranked[k];
    }
    forall i | 0 <= i < |results|
      ensures results[i].status == Ready <==> i in Order(results)
    {
      if results[i].status == Ready {
        ReadyIsVisited(results, i);
      }
      if i in Order(results) {
        var k :| 0 <= k < |Order(results)| && Order(results)[k] == i;
        assert ranked[k].item == i;
      }
    }
  }

  lemma VisitedAreReady(results: seq<LaneResult>)
    requires forall i :: 0 <= i < |results| ==> Consistent(results[i])
    ensures
      var ranked := RankedReady(results);
      && (forall j, k :: 0 <= j < k < |ranked| ==> ranked[j] != ranked[k])
      && forall k :: 0 <= k < |ranked| ==> Visited(results, ranked[k])
  {
    hide Consistent, RankedReady, LaneName;
    var ranked := RankedReady(results);
    forall e | e in ranked
      ensures multiset(ranked)[e] <= 1 && Visited(results, e)
    {
      RankedVisit(results, e);
      ConsistentReady(results[e.item]);
    }
    NoRepeats(ranked);
  }

  /** A ready lane as the pass looks at it. */
  ghost predicate Visited(results: seq<LaneResult>, e: Entry<nat>) {
    EntryOf(results, e) && results[e.item].ranked != []
  }

  lemma ReadyIsVisited(results: seq<LaneResult>, i: nat)
    requires i < |results| && results[i].status == Ready && Consistent(results[i])
    ensures i in Order(results)
  {
    hide Consistent, RankedReady, LaneName;
    ConsistentReady(results[i]);
    var e: Entry<nat> := Entry(results[i].candidate.value.score, LaneName(results[i].lane), i);
    RankedVisit(results, e);
    var ranked := RankedReady(results);
    var k :| 0 <= k < |ranked| && ranked[k] == e;
    assert Order(results)[k] == i;
  }

  lemma ConsistentReady(r: LaneResult)
    requires Consistent(r)
    ensures r.status == Ready <==> r.ranked != []
    ensures r.status == Ready <==> r.candidate.Some?
  {
  }

  lemma VisitsOn(results: seq<LaneResult>, order: seq<nat>, r: LaneResult)
    requires Visits(results, order) && order != [] && r.ranked != []
    ensures Visits(results[order[0] := r], order[1..])
  {
  }

  // ----- what the pass keeps

  /** The penalty lies between 0 and 15, and is 0 exactly for a candidate that shares neither its underlying
      nor an exposure with the winners so far. */
  lemma PenaltyBounds(lane: Lane, c: Candidate, taken: set<int>, carried: set<Exposure>)
    ensures 0.0 <= Penalty(lane, c, taken, carried) <= 15.0
    ensures Penalty(lane, c, taken, carried) == 0.0 <==> c.underlying !in taken && Exposures(lane, c) !! carried
  {
    hide Exposures;
    var overlap := Exposures(lane, c) * carried;
    if overlap != {} {
      assert |overlap| as real >= 1.0;
    } else {
      assert |overlap| as real == 0.0;
    }
  }

  /** The candidate after the pass is the one before with its rank changed and up to 15 points taken off. */
  ghost predicate CameFrom(c: Candidate, before: seq<Candidate>) {
    exists k :: 0 <= k < |before| && Lowered(before[k], c)
  }

  predicate Lowered(before: Candidate, after: Candidate) {
    && after == before.(score := after.score, rank := after.rank)
    && Max(0.0, before.score - 15.0) <= after.score <= before.score
  }

  lemma RerankedIsConsistent(r: LaneResult, taken: set<int>, carried: set<Exposure>)
    requires Consistent(r) && r.status == Ready
    ensures
      var next := Reranked(r, taken, carried);
      && Consistent(next) && next.lane == r.lane && next.status == Ready && |next.ranked| == |r.ranked|
      && forall c :: c in next.ranked ==> CameFrom(c, r.ranked)
  {
    hide Before, Ranked, InOrder, Penalty;
    var entries := ByScore(PenalizedAll(r, taken, carried));
    var order, next := Ranked(entries), Reranked(r, taken, carried);
    RankedIsInOrder(entries);
    forall i | 0 <= i < |order|
      ensures order[i].score == order[i].item.score && order[i].name == order[i].item.symbol
        && 0.0 <= order[i].score <= 100.0
      ensures CameFrom(next.ranked[i], r.ranked)
    {
      assert order[i] in multiset(entries);
      var k :| 0 <= k < |entries| && entries[k] == order[i];
      PenaltyBounds(r.lane, r.ranked[k], taken, carried);
      assert Lowered(r.ranked[k], next.ranked[i]);
    }
    SameKeysSameOrder(order, ByScore(next.ranked));
  }

  /** A result the pass may have re-ranked. */
  ghost predicate Follows(before: LaneResult, after: LaneResult) {
    && Consistent(after) && after.lane == before.lane && after.status == before.status
        && |after.ranked| == |before.ranked|
    && (before.status != Ready ==> after == before)
    && forall c :: c in after.ranked ==> CameFrom(c, before.ranked)
  }

  lemma SameFollows(r: LaneResult)
    requires Consistent(r)
    ensures Follows(r, r)
  {
    forall c | c in r.ranked
      ensures CameFrom(c, r.ranked)
    {
      var k :| 0 <= k < |r.ranked| && r.ranked[k] == c;
      assert Lowered(r.ranked[k], c);
    }
  }

  /** The pass keeps every lane's result consistent, touches only ready lanes, and each only once. */
  lemma {:induction false} PassKeepsResults(results: seq<LaneResult>, order: seq<nat>, taken: set<int>,
                                            carried: set<Exposure>)
    requires Visits(results, order) && forall i :: 0 <= i < |results| ==> Consistent(results[i])
    ensures
      var final := Pass(results, order, taken, carried);
      && |final| == |results|
      && (forall i :: 0 <= i < |results| ==> Follows(results[i], final[i]))
      && (forall i :: 0 <= i < |results| && i !in order ==> final[i] == results[i])
    decreases |order|
  {
    hide Consistent, Follows, Reranked, Exposures;
    if order == [] {
      forall i | 0 <= i < |results|
        ensures Follows(results[i], results[i])
      {
        SameFollows(results[i]);
      }
    } else {
      var at := order[0];
      ConsistentReady(results[at]);
      var r := Reranked(results[at], taken, carried);
      RerankedFollows(results[at], taken, carried);
      VisitsOn(results, order, r);
      var next := results[at := r];
      PassKeepsResults(next, order[1..], taken + {r.ranked[0].underlying}, carried + Exposures(r.lane, r.ranked[0]));
      assert at !in order[1..];
      assert forall i :: i in order[1..] ==> i in order;
    }
  }

  lemma RerankedFollows(r: LaneResult, taken: set<int>, carried: set<Exposure>)
    requires Consistent(r) && r.status == Ready
    ensures r.ranked != [] && Follows(r, Reranked(r, taken, carried)) && Consistent(Reranked(r, taken, carried))
    ensures Reranked(r, taken, carried).ranked != []
  {
    hide Reranked;
    RerankedIsConsistent(r, taken, carried);
  }

  /** With no winners before it a lane keeps its list. */
  lemma FirstLaneIsUntouched(r: LaneResult)
    requires Consistent(r) && r.status == Ready
    ensures Reranked(r, {}, {}) == r
  {
    hide Before, Ranked, Penalty;
    forall i | 0 <= i < |r.ranked|
      ensures PenalizedAll(r, {}, {})[i] == r.ranked[i]
    {
      PenaltyBounds(r.lane, r.ranked[i], {}, {});
    }
    assert PenalizedAll(r, {}, {}) == r.ranked;
    InOrderStays(ByScore(r.ranked));
    assert Numbered(ByScore(r.ranked)) == r.ranked;
  }

  /** The results of a whole run. */
  ghost function Final(works: seq<Work>): seq<LaneResult>
    requires Upto(works).Some?
  {
    UptoIsConsistent(works);
    OrderVisitsReady(Upto(works).value);
    Pass(Upto(works).value, Order(Upto(works).value), {}, {})
  }

  /** The whole matrix, for any provider and agent behaviour that raises nothing: the final results follow
      the answered lanes in order, each is consistent, ready lists are sorted and ranked with their candidate
      first, and no candidate moved by more than its penalty. */
  lemma MatrixIsConsistent(works: seq<Work>)
    requires Upto(works).Some?
    ensures LanesOf(Final(works)) == Answered(works)
    ensures |Final(works)| == |Upto(works).value|
    ensures forall i :: 0 <= i < |Final(works)| ==> Follows(Upto(works).value[i], Final(works)[i])
  {
    hide Consistent, Order, Pass, Follows, Upto, Answered, LanesOf;
    var results := Upto(works).value;
    UptoIsConsistent(works);
    ResultsFollowRequests(works);
    OrderVisitsReady(results);
    PassKeepsResults(results, Order(results), {}, {});
    SameLanes(results, Final(works));
  }

  /** The lane with the best winner keeps its list as its agents left it. */
  lemma BestLaneIsUntouched(works: seq<Work>)
    requires Upto(works).Some? && Order(Upto(works).value) != []
    ensures
      var best := Order(Upto(works).value)[0];
      best < |Upto(works).value| && best < |Final(works)| && Final(works)[best] == Upto(works).value[best]
  {
    hide Consistent, Order, Follows, Upto, Exposures, Reranked;
    var results := Upto(works).value;
    UptoIsConsistent(works);
    OrderVisitsReady(results);
    var order := Order(results);
    var r := results[order[0]];
    ConsistentReady(r);
    FirstLaneIsUntouched(r);
    assert results[order[0] := r] == results;
    VisitsOn(results, order, r);
    PassKeepsResults(results, order[1..], {} + {r.ranked[0].underlying}, {} + Exposures(r.lane, r.ranked[0]));
    assert order[0] !in order[1..];
  }

  lemma SameLanes(a: seq<LaneResult>, b: seq<LaneResult>)
    requires |a| == |b| && forall i :: 0 <= i < |a| ==> Follows(a[i], b[i])
    ensures LanesOf(a) == LanesOf(b)
  {
    hide Consistent, CameFrom;
  }

  lemma {:induction false} UptoIsConsistent(works: seq<Work>)
    ensures Upto(works).Some? ==> forall i :: 0 <= i < |Upto(works).value| ==> Consistent(Upto(works).value[i])
  {
    hide Judged, Consistent;
    if works != [] && Upto(works).Some? {
      var n := |works| - 1;
      UptoIsConsistent(works[..n]);
      LaneScoresAreBounded(works[n]);
    }
  }
}
