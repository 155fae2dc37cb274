/** The diversification pass on objects: candidates and results are rewritten in place, and a result's
    candidate is the very object that leads its ranked list. */
module LaneRecords {
  import opened Numbers
  import opened Ranking
  import opened Lanes
  import opened LaneRuns
  import opened Diversification

  class CandidateRecord {
    const symbol: string
    const pair: string
    const underlying: int
    const direction: real
    var score: real
    var rank: nat

    constructor (c: Candidate)
      ensures View() == c
    {
      symbol, pair, underlying, direction, score, rank := c.symbol, c.pair, c.underlying, c.direction, c.score, c.rank;
    }

    function View(): Candidate
      reads this
    {
      Candidate(symbol, pair, underlying, direction, score, rank)
    }
  }

  ghost predicate Distinct(cs: seq<CandidateRecord>) {
    forall i, j :: 0 <= i < j < |cs| ==> cs[i] != cs[j]
  }

  // A candidate object with its value of the moment.
  type Shown = (CandidateRecord, Candidate)

  function Pairs(cs: seq<CandidateRecord>): (r: seq<Entry<Shown>>)
    reads cs
    ensures |r| == |cs|
    ensures forall i :: 0 <= i < |r| ==> r[i] == Entry(cs[i].score, cs[i].symbol, (cs[i], cs[i].View()))
  {
    if cs == [] then []
    else
      var n := |cs| - 1;
      Pairs(cs[..n]) + [Entry(cs[n].score, cs[n].symbol, (cs[n], cs[n].View()))]
  }

  function Objects(order: seq<Entry<Shown>>): (r: seq<CandidateRecord>)
    ensures |r| == |order|
  {
    seq(|order|, i requires 0 <= i < |order| => order[i].item.0)
  }

  class ResultRecord {
    const lane: Lane
    const status: Status
    const reason: string
    var candidate: CandidateRecord?
    var ranked: seq<CandidateRecord>

    /** A record of a result that names the first of its list. */
    constructor (r: LaneResult)
      requires r.candidate == if r.ranked == [] then None else Some(r.ranked[0])
      ensures Shows(r) && fresh(ranked)
    {
      lane, status, reason := r.lane, r.status, r.reason;
      candidate, ranked := null, [];
      new;
      var cs: seq<CandidateRecord> := [];
      for i := 0 to |r.ranked|
        invariant |cs| == i && fresh(cs) && Distinct(cs)
        invariant forall k :: 0 <= k < i ==> cs[k].View() == r.ranked[k]
        invariant lane == r.lane && status == r.status && reason == r.reason && candidate == null
      {
        var c := new CandidateRecord(r.ranked[i]);
        cs := cs + [c];
      }
      ranked := cs;
      if cs != [] {
        candidate := cs[0];
      }
    }

    /** The record stands for this result. */
    ghost predicate Shows(r: LaneResult)
      reads this, ranked
    {
      && lane == r.lane && status == r.status && reason == r.reason
      && |ranked| == |r.ranked| && Distinct(ranked)
      && (forall k :: 0 <= k < |ranked| ==> ranked[k].View() == r.ranked[k])
      && candidate == (if ranked == [] then null else ranked[0])
      && r.candidate == (if r.ranked == [] then None else Some(r.ranked[0]))
    }

    /** The inner part of the pass: penalize every candidate, sort, renumber, take the first. */
    method Rerank(taken: set<int>, carried: set<Exposure>, ghost r: LaneResult)
      requires Shows(r) && ranked != []
      modifies this, ranked
      ensures Shows(Reranked(r, taken, carried))
      ensures multiset(ranked) == multiset(old(ranked))
    {
      hide Penalized, Reranked, ByScore, PenalizedAll, Ranked, CandidateRecord.View;
      PenalizeAll(lane, ranked, taken, carried, r);
      ghost var values := Ranked(ByScore(PenalizedAll(r, taken, carried)));
      ranked := SortedRecords(ranked, PenalizedAll(r, taken, carried));
      Renumber(ranked, values);
      candidate := ranked[0];
      ShowsReranked(r, taken, carried, values);
    }
  }

  method PenalizeAll(lane: Lane, cs: seq<CandidateRecord>, taken: set<int>, carried: set<Exposure>, ghost r: LaneResult)
    requires Distinct(cs) && lane == r.lane && |cs| == |r.ranked| && forall k :: 0 <= k < |cs| ==>
      cs[k].View() == r.ranked[k]
    modifies cs
    ensures |PenalizedAll(r, taken, carried)| == |cs|
    ensures forall k :: 0 <= k < |cs| ==> cs[k].View() == PenalizedAll(r, taken, carried)[k]
  {
    hide Penalty;
    for i := 0 to |cs|
      invariant forall k :: 0 <= k < i ==> cs[k].View() == Penalized(lane, r.ranked[k], taken, carried)
      invariant forall k :: i <= k < |cs| ==> cs[k].View() == r.ranked[k]
    {
      var c := cs[i];
      c.score := Max(0.0, c.score - Penalty(lane, c.View(), taken, carried));
    }
  }

  /** The same objects, sorted by their values. */
  method SortedRecords(cs: seq<CandidateRecord>, ghost values: seq<Candidate>) returns (sorted: seq<CandidateRecord>)
    requires Distinct(cs) && |cs| == |values| && forall k :: 0 <= k < |cs| ==> cs[k].View() == values[k]
    ensures multiset(sorted) == multiset(cs) && Distinct(sorted)
    ensures |sorted| == |Ranked(ByScore(values))| == |cs|
    ensures forall k :: 0 <= k < |sorted| ==> sorted[k] in cs && sorted[k].View() == Ranked(ByScore(values))[k].item
  {
    hide ByScore, Pairs, Objects, Ranked;
    SortedValues(cs, values);
    SortedObjects(cs);
    sorted := Objects(Ranked(Pairs(cs)));
    SameMembers(sorted, cs);
  }

  /** Ranks 1 to k along the list. */
  method Renumber(cs: seq<CandidateRecord>, ghost values: seq<Entry<Candidate>>)
    requires Distinct(cs) && |cs| == |values| && forall k :: 0 <= k < |cs| ==> cs[k].View() == values[k].item
    modifies cs
    ensures forall k :: 0 <= k < |cs| ==> cs[k].View() == values[k].item.(rank := k + 1)
  {
    for i := 0 to |cs|
      invariant forall k :: 0 <= k < i ==> cs[k].View() == values[k].item.(rank := k + 1)
      invariant forall k :: i <= k < |cs| ==> cs[k].View() == values[k].item
    {
      cs[i].rank := i + 1;
    }
  }

  lemma ShowsReranked(r: LaneResult, taken: set<int>, carried: set<Exposure>, values: seq<Entry<Candidate>>)
    requires r.ranked != [] && values == Ranked(ByScore(PenalizedAll(r, taken, carried)))
    ensures
      var next := Reranked(r, taken, carried);
      && (next.lane, next.status, next.reason) == (r.lane, r.status, r.reason)
      && |next.ranked| == |values| == |r.ranked| && next.candidate == Some(next.ranked[0])
      && forall k :: 0 <= k < |values| ==> next.ranked[k] == values[k].item.(rank := k + 1)
  {
    hide Penalty, Ranked;
  }

  /** Sorting the objects sorts their values. */
  lemma SortedValues(cs: seq<CandidateRecord>, values: seq<Candidate>)
    requires |cs| == |values| && forall k :: 0 <= k < |cs| ==> cs[k].View() == values[k]
    ensures |Objects(Ranked(Pairs(cs)))| == |Ranked(ByScore(values))| == |cs|
    ensures forall k :: 0 <= k < |cs| ==> Objects(Ranked(Pairs(cs)))[k].View() == Ranked(ByScore(values))[k].item
  {
    hide Ranked, Pairs;
    var pairs, order := Pairs(cs), Ranked(Pairs(cs));
    var second := (p: Shown) => p.1;
    assert MapItems(pairs, second) == ByScore(values);
    RankedMaps(pairs, second);
    forall k | 0 <= k < |order|
      ensures order[k].item.1 == order[k].item.0.View() && MapItems(order, second)[k].item == order[k].item.1
    {
      RankedIsShown(cs, k);
    }
  }

  lemma RankedIsShown(cs: seq<CandidateRecord>, k: nat)
    requires k < |Ranked(Pairs(cs))|
    ensures Ranked(Pairs(cs))[k].item.1 == Ranked(Pairs(cs))[k].item.0.View()
  {
    hide Ranked, Pairs;
    var pairs, order := Pairs(cs), Ranked(Pairs(cs));
    assert order[k] in multiset(order) && order[k] in multiset(pairs);
    var i :| 0 <= i < |pairs| && pairs[i] == order[k];
  }

  lemma ObjectsSnoc(s: seq<Entry<Shown>>, e: Entry<Shown>)
    ensures Objects(s + [e]) == Objects(s) + [e.item.0]
  {
  }

  lemma {:induction false} InsertKeepsObjects(s: seq<Entry<Shown>>, e: Entry<Shown>)
    ensures multiset(Objects(Insert(s, e))) == multiset(Objects(s)) + multiset{e.item.0}
  {
    hide Before;
    if s != [] {
      hide Objects;
      var n := |s| - 1;
      assert s == s[..n] + [s[n]];
      ObjectsSnoc(s[..n], s[n]);
      InsertKeepsObjects(s[..n], e);
      ObjectsSnoc(Insert(s[..n], e), s[n]);
      ObjectsSnoc(s, e);
    }
  }

  lemma {:induction false} RankedKeepsObjects(s: seq<Entry<Shown>>)
    ensures multiset(Objects(Ranked(s))) == multiset(Objects(s))
  {
    if s != [] {
      hide Objects, Insert;
      var n := |s| - 1;
      assert s == s[..n] + [s[n]];
      RankedKeepsObjects(s[..n]);
      ObjectsSnoc(s[..n], s[n]);
      InsertKeepsObjects(Ranked(s[..n]), s[n]);
    }
  }

  lemma SortedObjects(cs: seq<CandidateRecord>)
    requires Distinct(cs)
    ensures multiset(Objects(Ranked(Pairs(cs)))) == multiset(cs)
    ensures Distinct(Objects(Ranked(Pairs(cs))))
  {
    hide Ranked, Pairs;
    RankedKeepsObjects(Pairs(cs));
    assert Objects(Pairs(cs)) == cs;
    var sorted := Objects(Ranked(Pairs(cs)));
    forall c | c in sorted
      ensures multiset(sorted)[c] <= 1
    {
      OnceInDistinct(cs, c);
    }
    NoRepeats(sorted);
  }

  lemma {:induction false} OnceInDistinct(cs: seq<CandidateRecord>, c: CandidateRecord)
    requires Distinct(cs)
    ensures multiset(cs)[c] <= 1
  {
    if cs != [] {
      var n := |cs| - 1;
      OnceInDistinct(cs[..n], c);
      assert cs == cs[..n] + [cs[n]];
      assert cs[n] !in cs[..n];
    }
  }

  // ----- all results

  ghost function CandidatesOf(r: ResultRecord): set<CandidateRecord>
    reads r
  {
    set c | c in r.ranked
  }

  /** The records stand for these results, share no object, and draw their candidates from `pool`. */
  ghost predicate ShowAll(records: seq<ResultRecord>, results: seq<LaneResult>, pool: set<CandidateRecord>)
    reads records, pool
  {
    && |records| == |results|
    && (forall i :: 0 <= i < |records| ==> CandidatesOf(records[i]) <= pool)
    && (forall i, j :: 0 <= i < j < |records| ==> Apart(records[i], records[j]))
    && (forall i :: 0 <= i < |records| ==> ShowsWithin(records[i], results[i], pool))
  }

  ghost predicate Apart(a: ResultRecord, b: ResultRecord)
    reads a, b
  {
    a != b && CandidatesOf(a) !! CandidatesOf(b)
  }

  ghost predicate ShowsWithin(record: ResultRecord, r: LaneResult, pool: set<CandidateRecord>)
    reads record, pool
  {
    (forall k :: 0 <= k < |record.ranked| ==> record.ranked[k] in pool) && record.Shows(r)
  }

  lemma ShownAt(records: seq<ResultRecord>, results: seq<LaneResult>, pool: set<CandidateRecord>, n: nat)
    requires ShowAll(records, results, pool) && n < |records| == |results|
    ensures records[n].lane == results[n].lane && records[n].status == results[n].status
    ensures records[n].candidate == null <==> results[n].candidate.None?
    ensures records[n].candidate != null ==> results[n].candidate == Some(records[n].candidate.View())
  {
    assert ShowsWithin(records[n], results[n], pool);
    assert records[n].Shows(results[n]);
  }

  /** Ready records, best candidate first. */
  method ReadyOrder(records: seq<ResultRecord>, ghost results: seq<LaneResult>, ghost pool: set<CandidateRecord>)
    returns (order: seq<nat>)
    requires ShowAll(records, results, pool)
    ensures order == Order(results)
  {
    hide LaneName, Ranked, ShowAll;
    SameLength(records, results, pool);
    var entries: seq<Entry<nat>> := [];
    for n := 0 to |records|
      invariant entries == ReadyEntries(results[..n])
    {
      assert results[..n + 1][..n] == results[..n];
      ShownAt(records, results, pool, n);
      if records[n].status == Ready && records[n].candidate != null {
        var winner := records[n].candidate;
        entries := entries + [Entry(winner.score, LaneName(records[n].lane), n)];
      }
    }
    assert results[..|results|] == results;
    var ranked := Ranked<nat>(entries);
    order := seq(|ranked|, i requires 0 <= i < |ranked| => ranked[i].item);
  }

  /** The pass: every ready lane once, best winner first. */
  method Diversify(records: seq<ResultRecord>, ghost results: seq<LaneResult>, ghost pool: set<CandidateRecord>)
    requires ShowAll(records, results, pool) && forall i :: 0 <= i < |results| ==> Consistent(results[i])
    modifies records, pool
    ensures Visits(results, Order(results))
    ensures ShowAll(records, Pass(results, Order(results), {}, {}), pool)
  {
    hide Consistent, Order, Reranked, Exposures, ShowAll;
    OrderVisitsReady(results);
    var order := ReadyOrder(records, results, pool);
    ghost var final := results;
    var taken: set<int>, carried: set<Exposure> := {}, {};
    for n := 0 to |order|
      invariant Visits(final, order[n..]) && ShowAll(records, final, pool)
      invariant Pass(results, order, {}, {}) == Pass(final, order[n..], taken, carried)
    {
      var i := order[n];
      assert order[n..][0] == i && order[n..][1..] == order[n + 1..];
      ghost var r := Reranked(final[i], taken, carried);
      SameLength(records, final, pool);
      var winner, lane := RerankAt(records, i, taken, carried, final, pool);
      VisitsOn(final, order[n..], r);
      final := final[i := r];
      taken := taken + {winner.underlying};
      carried := carried + Exposures(lane, winner);
    }
    assert order[|order|..] == [];
  }

  lemma SameLength(records: seq<ResultRecord>, results: seq<LaneResult>, pool: set<CandidateRecord>)
    requires ShowAll(records, results, pool)
    ensures |records| == |results|
  {
  }

  /** Re-ranks one record, leaves the others as they are, and reports the winner. */
  method RerankAt(records: seq<ResultRecord>, i: nat, taken: set<int>, carried: set<Exposure>,
                  ghost results: seq<LaneResult>, ghost pool: set<CandidateRecord>)
    returns (winner: Candidate, lane: Lane)
    requires ShowAll(records, results, pool) && i < |records| == |results| && results[i].ranked != []
    modifies records, pool
    ensures ShowAll(records, results[i := Reranked(results[i], taken, carried)], pool)
    ensures Reranked(results[i], taken, carried).ranked != []
    ensures lane == Reranked(results[i], taken, carried).lane
      && winner == Reranked(results[i], taken, carried).ranked[0]
  {
    hide Reranked, Penalty;
    var record := records[i];
    assert ShowsWithin(record, results[i], pool);
    assert record.Shows(results[i]);
    ghost var before := record.ranked;
    assert |before| > 0;
    record.Rerank(taken, carried, results[i]);
    SameMembers(record.ranked, before);
    winner, lane := record.ranked[0].View(), record.lane;
    ghost var r := Reranked(results[i], taken, carried);
    assert record.Shows(r);
    forall j | 0 <= j < |records| && j != i
      ensures records[j] != record && old(CandidatesOf(records[j])) !! old(CandidatesOf(record))
    {
      assert old(Apart(records[if i < j then i else j], records[if i < j then j else i]));
    }
    forall j | 0 <= j < |records|
      ensures CandidatesOf(records[j]) == old(CandidatesOf(records[j]))
    {
    }
    forall j | 0 <= j < |records|
      ensures ShowsWithin(records[j], results[i := r][j], pool)
    {
      if j != i {
        assert old(ShowsWithin(records[j], results[j], pool));
        assert forall k :: 0 <= k < |records[j].ranked| ==> records[j].ranked[k] in old(CandidatesOf(records[j]));
      } else {
        assert forall k :: 0 <= k < |record.ranked| ==> record.ranked[k] in CandidatesOf(record);
      }
    }
    forall j, k | 0 <= j < k < |records|
      ensures Apart(records[j], records[k])
    {
      assert old(Apart(records[j], records[k]));
    }
  }

  lemma SameMembers(a: seq<CandidateRecord>, b: seq<CandidateRecord>)
    requires multiset(a) == multiset(b)
    ensures (set c | c in a) == (set c | c in b) && forall c :: c in a ==> c in b
  {
    forall c
      ensures c in a <==> c in b
    {
      assert c in a <==> c in multiset(a);
      assert c in b <==> c in multiset(b);
    }
  }

  /** `run_matrix`: the lane loop, then the pass over its result objects. */
  method RunMatrix(works: seq<Work>) returns (records: Option<seq<ResultRecord>>, ghost pool: set<CandidateRecord>)
    ensures records.Some? <==> Upto(works).Some?
    ensures records.Some? ==> ShowAll(records.value, Final(works), pool)
  {
    hide Consistent, Upto, Order, Pass, ShowAll;
    pool := {};
    var results := RunLanes(works);
    if results.None? {
      return None, {};
    }
    UptoIsConsistent(works);
    var rs;
    rs, pool := Recorded(results.value);
    Diversify(rs, results.value, pool);
    records := Some(rs);
  }

  method Recorded(results: seq<LaneResult>) returns (records: seq<ResultRecord>, ghost pool: set<CandidateRecord>)
    requires forall i :: 0 <= i < |results| ==> Consistent(results[i])
    ensures ShowAll(records, results, pool) && fresh(records) && fresh(pool)
  {
    hide Consistent, ShowAll;
    records, pool := [], {};
    NothingShown();
    for n := 0 to |results|
      invariant ShowAll(records, results[..n], pool)
      invariant fresh(records) && fresh(pool)
    {
      ConsistentCandidate(results[n]);
      var r := new ResultRecord(results[n]);
      records, pool := Added(records, r, results[..n], results[n], pool);
      assert results[..n + 1] == results[..n] + [results[n]];
    }
    assert results[..|results|] == results;
  }

  lemma NothingShown()
    ensures ShowAll([], [], {})
  {
  }

  lemma ConsistentCandidate(r: LaneResult)
    requires Consistent(r)
    ensures r.candidate == if r.ranked == [] then None else Some(r.ranked[0])
  {
  }

  /** Adds a record whose objects are none of the old ones. */
  method Added(records: seq<ResultRecord>, record: ResultRecord, ghost results: seq<LaneResult>, ghost r: LaneResult,
               ghost pool: set<CandidateRecord>)
    returns (more: seq<ResultRecord>, ghost larger: set<CandidateRecord>)
    requires ShowAll(records, results, pool) && record.Shows(r)
    requires record !in records && CandidatesOf(record) !! pool
    ensures more == records + [record] && larger == pool + CandidatesOf(record)
    ensures ShowAll(more, results + [r], larger)
  {
    more, larger := records + [record], pool + CandidatesOf(record);
    forall i | 0 <= i < |more|
      ensures ShowsWithin(more[i], (results + [r])[i], larger) && CandidatesOf(more[i]) <= larger
    {
      if i < |records| {
        assert ShowsWithin(records[i], results[i], pool);
      } else {
        assert forall k :: 0 <= k < |record.ranked| ==> record.ranked[k] in CandidatesOf(record);
      }
    }
    forall i, j | 0 <= i < j < |more|
      ensures Apart(more[i], more[j])
    {
      if j < |records| {
        assert Apart(records[i], records[j]);
      } else {
        assert more[i] == records[i] && records[i] in records;
      }
    }
  }
}
