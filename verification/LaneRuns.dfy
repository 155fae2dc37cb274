/** What the research matrix guarantees for arbitrary providers and agents, and the diversification pass
    over its ready lanes. */
module LaneRuns {
  import opened Numbers
  import opened Fingerprint
  import opened Ranking
  import opened Lanes

  // ----- one result per lane

  function LanesOf(results: seq<LaneResult>): seq<Lane> {
    seq(|results|, i requires 0 <= i < |results| => results[i].lane)
  }

  /** A lane right behind an equal one that its analysts send back gets no result of its own. */
  predicate Skipped(works: seq<Work>, i: nat)
    requires i < |works|
  {
    i > 0 && works[i - 1].lane == works[i].lane && Judged(works[i]).Reassessed?
  }

  function Answered(works: seq<Work>): seq<Lane> {
    if works == [] then []
    else
      var n := |works| - 1;
      Answered(works[..n]) + if Skipped(works, n) then [] else [works[n].lane]
  }

  lemma JudgedKeepsLane(w: Work)
    ensures var v := Judged(w); !v.Raises? ==> v.result.lane == w.lane
  {
    hide Eligible, Measures, ReviewAll, BaseScores, AdjustAll, Candidates, Keyed;
  }

  lemma NoLanes()
    ensures LanesOf([]) == []
  {
  }

  lemma LanesOfSnoc(results: seq<LaneResult>, r: LaneResult)
    ensures LanesOf(results + [r]) == LanesOf(results) + [r.lane]
  {
  }

  ghost predicate EndsWith(results: seq<LaneResult>, lane: Lane) {
    results != [] && results[|results| - 1].lane == lane
  }

  /** The results follow the requests in order, missing exactly the skipped ones. */
  lemma {:induction false} ResultsFollowRequests(works: seq<Work>)
    ensures Upto(works).Some? ==>
      && LanesOf(Upto(works).value) == Answered(works)
      && (works != [] ==> EndsWith(Upto(works).value, works[|works| - 1].lane))
  {
    hide Judged, LanesOf;
    if works == [] {
      assert LanesOf([]) == [] by {
        NoLanes();
      }
    } else if Upto(works).Some? {
      var n := |works| - 1;
      ResultsFollowRequests(works[..n]);
      JudgedKeepsLane(works[n]);
      assert n > 0 ==> works[..n][n - 1] == works[n - 1];
      LanesOfSnoc(Upto(works[..n]).value, Judged(works[n]).result);
    }
  }

  lemma {:induction false} AnsweredCounts(works: seq<Work>)
    ensures |Answered(works)| <= |works|
    ensures |Answered(works)| == |works| <==> forall i :: 0 <= i < |works| ==> !Skipped(works, i)
    ensures |Answered(works)| == |works| ==>
      Answered(works) == seq(|works|, i requires 0 <= i < |works| => works[i].lane)
  {
    hide Judged;
    if works != [] {
      var n := |works| - 1;
      AnsweredCounts(works[..n]);
      forall i | 0 <= i < n
        ensures Skipped(works[..n], i) == Skipped(works, i)
      {
      }
    }
  }

  /** Totality: a run yields exactly one result per requested lane, in request order, if and only if no lane
      stands right behind an equal one and is sent back by its analysts; distinct lanes never do. */
  lemma OneResultPerLane(works: seq<Work>)
    requires Upto(works).Some?
    ensures LanesOf(Upto(works).value) == seq(|works|, i requires 0 <= i < |works| => works[i].lane)
      <==> forall i :: 0 <= i < |works| ==> !Skipped(works, i)
    ensures (forall i, j :: 0 <= i < j < |works| ==> works[i].lane != works[j].lane) ==>
      LanesOf(Upto(works).value) == seq(|works|, i requires 0 <= i < |works| => works[i].lane)
  {
    hide Judged, Upto, Answered;
    ResultsFollowRequests(works);
    AnsweredCounts(works);
  }

  /** Distinct requests always give results that the run model accepts. */
  lemma DistinctLanesGiveOneResultEach(works: seq<Work>)
    requires Upto(works).Some? && forall i, j :: 0 <= i < j < |works| ==> works[i].lane != works[j].lane
    ensures OnePerLane(Upto(works).value)
  {
    hide Judged, Upto;
    OneResultPerLane(works);
    var results := Upto(works).value;
    forall i, j | 0 <= i < j < |results|
      ensures results[i].lane != results[j].lane
    {
      assert LanesOf(results)[i] == works[i].lane && LanesOf(results)[j] == works[j].lane;
    }
  }

  /** Prices that step up and down by one. */
  function Alternating(): (prices: seq<real>)
    ensures |prices| == 20
  {
    seq(20, i => if i % 2 == 0 then 1.0 else 2.0)
  }

  function PlainSnapshot(): Snapshot {
    MarketSnapshot("EURUSD", "EURUSD", 1, Alternating(), 1.0, 1.0, 0, None, None, false, 1, None)
  }

  lemma PlainSnapshotIsEligible()
    ensures Ineligible(PlainSnapshot(), 0, None).None?
  {
    hide Mean, Sum;
    var moves := Differences(Alternating());
    MagnitudesBound(moves);
    MeanPositive(Magnitudes(moves));
    assert moves[0] == 1.0;
    assert Last(moves, 20) == moves;
  }

  /** A lane with an eligible snapshot whose analyst disagrees. */
  function SentBack(lane: Lane, critic: Reply): Work {
    Work(lane, Delivers([PlainSnapshot()]), [Answer(false, Unreadable)], critic, 0, None)
  }

  lemma SentBackIsReassessed(lane: Lane, critic: Reply)
    ensures Judged(SentBack(lane, critic)) == Reassessed(Ended(lane, NoTrade, "ANALYST_REASSESS"))
  {
    hide Ineligible, Measures, BaseScores;
    PlainSnapshotIsEligible();
    assert [PlainSnapshot()][..0] == [];
    assert Eligible([PlainSnapshot()], 0, None) == Eligible([], 0, None) + [PlainSnapshot()];
  }

  /** What the run model demands of its results. */
  ghost predicate OnePerLane(results: seq<LaneResult>) {
    forall i, j :: 0 <= i < j < |results| ==> results[i].lane != results[j].lane
  }

  /** `run_matrix` itself does not refuse a repeated lane. Usually it answers it twice, which the run model
      forbids; sent back by an analyst, the repeat gets no result. */
  lemma RepeatedLaneIsAnsweredTwiceOrNotAtAll(lane: Lane, critic: Reply)
    ensures
      var first := Work(lane, NoCapability, [], critic, 0, None);
      var answer := Ended(lane, NotConfigured, "PROVIDER_LANE_CAPABILITY_MISSING");
      && Upto([first, first]) == Some([answer, answer]) && !OnePerLane([answer, answer])
      && Upto([first, SentBack(lane, critic)]) == Some([answer]) && OnePerLane([answer])
  {
    hide Judged;
    var first := Work(lane, NoCapability, [], critic, 0, None);
    var answer := Ended(lane, NotConfigured, "PROVIDER_LANE_CAPABILITY_MISSING");
    FirstIsNotConfigured(first);
    SentBackIsReassessed(lane, critic);
    assert Upto([first][..0]) == Some([]);
    assert Upto([first]) == Some([] + [answer]) && [] + [answer] == [answer];
    var twice, back := [first, first], [first, SentBack(lane, critic)];
    assert twice[..1] == [first] && back[..1] == [first];
    assert Upto(twice[..|twice| - 1]) == Some([answer]) && Upto(back[..|back| - 1]) == Some([answer]);
    assert [answer] + [answer] == [answer, answer];
    assert [answer, answer][0].lane == [answer, answer][1].lane;
  }

  lemma FirstIsNotConfigured(w: Work)
    requires w.gathered.NoCapability?
    ensures Judged(w) == Ends(Ended(w.lane, NotConfigured, "PROVIDER_LANE_CAPABILITY_MISSING"))
  {
  }

  /** A delivery that does not validate, or a provider error whose result would not. */
  predicate Unanswerable(w: Work) {
    w.gathered.Malformed? || (w.gathered.Fails? && w.gathered.claim in {Nonsense, Claims(Ready)})
  }

  lemma RaisesExactly(w: Work)
    ensures Judged(w).Raises? <==> Unanswerable(w)
  {
    hide Eligible, Measures, ReviewAll, BaseScores, AdjustAll, ReadyResult;
  }

  /** The run fails as a whole exactly when some lane's delivery does not validate or its provider error claims
      the status READY or no valid one; agents never make it fail. */
  lemma {:induction false} RunFailsExactly(works: seq<Work>)
    ensures Upto(works).None? <==> exists i :: 0 <= i < |works| && Unanswerable(works[i])
  {
    hide Judged, Unanswerable;
    if works != [] {
      var n := |works| - 1;
      RunFailsExactly(works[..n]);
      RaisesExactly(works[n]);
    }
  }

  // ----- score bounds

  ghost predicate Near(base: map<string, real>, scores: map<string, real>) {
    && scores.Keys == base.Keys
    && forall symbol :: symbol in base ==> NearBase(base[symbol], scores[symbol])
  }

  /** Within 15 points of the base score and within [0, 100]. */
  predicate NearBase(base: real, score: real) {
    base - 15.0 <= score <= base + 15.0 && 0.0 <= score <= 100.0
  }

  lemma HeldIsNear(base: real, moved: real)
    requires 0.0 <= base <= 100.0
    ensures NearBase(base, Held(base, moved))
  {
  }

  lemma AdjustKeepsNear(base: map<string, real>, scores: map<string, real>, adjustments: map<string, real>)
    requires Near(base, scores) && forall symbol :: symbol in base ==> 0.0 <= base[symbol] <= 100.0
    ensures Near(base, AdjustAll(base, scores, adjustments))
  {
    hide NearBase, Held;
    forall symbol | symbol in base && symbol in adjustments
      ensures NearBase(base[symbol], Held(base[symbol], scores[symbol] + adjustments[symbol]))
    {
      HeldIsNear(base[symbol], scores[symbol] + adjustments[symbol]);
    }
  }

  lemma {:induction false} ReviewKeepsNear(base: map<string, real>, scores: map<string, real>, replies: seq<Reply>)
    requires Near(base, scores) && forall symbol :: symbol in base ==> 0.0 <= base[symbol] <= 100.0
    ensures var r := ReviewAll(base, scores, replies); r.Passed? ==> Near(base, r.scores)
    decreases |replies|
  {
    hide NearBase, AdjustAll, Bounded, Fields;
    if replies != [] && replies[0].Answer? && replies[0].pass {
      var adjustments := Bounded(Fields(replies[0].adjustments));
      AdjustKeepsNear(base, scores, adjustments);
      ReviewKeepsNear(base, AdjustAll(base, scores, adjustments), replies[1..]);
    }
  }

  lemma {:induction false} BaseIsInRange(snapshots: seq<Snapshot>, now: int, close: Option<int>)
    ensures
      var base := BaseScores(Measures(snapshots, now, close));
      && (forall symbol :: symbol in base ==> 0.0 <= base[symbol] <= 100.0)
      && Near(base, base)
  {
    hide Measured, Score, Ineligible;
    if snapshots != [] {
      var n := |snapshots| - 1;
      BaseIsInRange(snapshots[..n], now, close);
      if Ineligible(snapshots[n], now, close).None? {
        ScoreIsBounded(snapshots[n], now, close);
      }
    }
  }

  /** A result is consistent: READY results, and only they, name a candidate, which is the first of a list
      in rank order. */
  ghost predicate Consistent(r: LaneResult) {
    && (r.status == Ready <==> r.ranked != [])
    && r.candidate == (if r.ranked == [] then None else Some(r.ranked[0]))
    && InOrder(ByScore(r.ranked))
    && forall i :: 0 <= i < |r.ranked| ==> r.ranked[i].rank == i + 1 && 0.0 <= r.ranked[i].score <= 100.0
  }

  function ByScore(candidates: seq<Candidate>): seq<Entry<Candidate>> {
    seq(|candidates|, i requires 0 <= i < |candidates| =>
      Entry(candidates[i].score, candidates[i].symbol, candidates[i]))
  }

  lemma ReadyIsConsistent(lane: Lane, eligible: seq<Snapshot>, measures: map<string, Criteria>,
                          base: map<string, real>, scores: map<string, real>)
    requires eligible != [] && scores.Keys == measures.Keys && forall s :: s in eligible ==> s.symbol in measures
    requires base.Keys == measures.Keys && Near(base, scores)
    ensures
      var r := ReadyResult(lane, eligible, measures, scores);
      && Consistent(r) && |r.ranked| == |eligible|
      && forall c :: c in r.ranked ==> c.symbol in base && NearBase(base[c.symbol], c.score)
  {
    hide Before, Ranked, InOrder;
    KeyedItems(eligible, scores);
    var order, r := Ranked(Keyed(eligible, scores)), ReadyResult(lane, eligible, measures, scores);
    RankedIsInOrder(Keyed(eligible, scores));
    SameKeysSameOrder(order, ByScore(r.ranked));
    forall i | 0 <= i < |r.ranked|
      ensures r.ranked[i].symbol in base && NearBase(base[r.ranked[i].symbol], r.ranked[i].score)
    {
      assert order[i] in order;
    }
  }

  lemma SameKeysSameOrder<S, T>(a: seq<Entry<S>>, b: seq<Entry<T>>)
    requires InOrder(a) && |a| == |b|
    requires forall i :: 0 <= i < |a| ==> a[i].score == b[i].score && a[i].name == b[i].name
    ensures InOrder(b)
  {
    forall i, j | 0 <= i < j < |b|
      ensures !Before(b[j], b[i])
    {
      assert !Before(a[j], a[i]);
    }
  }

  lemma EndedIsConsistent(lane: Lane, status: Status, reason: string)
    requires status != Ready
    ensures Consistent(Ended(lane, status, reason))
  {
  }

  /** The lane gets past its provider, its analysts and its critic. */
  predicate Reaches(w: Work) {
    && w.gathered.Delivers? && Eligible(w.gathered.snapshots, w.now, w.close) != []
    && var base := BaseScores(Measures(w.gathered.snapshots, w.now, w.close));
       ReviewAll(base, base, w.analysts).Passed? && w.critic.Answer? && w.critic.pass
  }

  predicate Agrees(reply: Reply) {
    reply.Answer? && reply.pass
  }

  /** A review passes exactly when every analyst answers and agrees, whatever the scores; it breaks exactly
      when the first that does not agree is a fault. */
  lemma {:induction false} ReviewPassesExactly(base: map<string, real>, scores: map<string, real>, replies: seq<Reply>)
    requires scores.Keys == base.Keys
    ensures ReviewAll(base, scores, replies).Passed? <==> forall i :: 0 <= i < |replies| ==> Agrees(replies[i])
    ensures ReviewAll(base, scores, replies).Broken? <==>
      exists i :: 0 <= i < |replies| && replies[i].Fault? && forall k :: 0 <= k < i ==> Agrees(replies[k])
    decreases |replies|
  {
    hide AdjustAll, Bounded, Fields;
    if replies != [] && Agrees(replies[0]) {
      var rest := replies[1..];
      ReviewPassesExactly(base, AdjustAll(base, scores, Bounded(Fields(replies[0].adjustments))), rest);
      assert forall i :: 0 <= i < |rest| ==> rest[i] == replies[i + 1];
      if i :| 0 <= i < |replies| && replies[i].Fault? && forall k :: 0 <= k < i ==> Agrees(replies[k]) {
        assert rest[i - 1].Fault? && forall k :: 0 <= k < i - 1 ==> Agrees(rest[k]);
      }
      if j :| 0 <= j < |rest| && rest[j].Fault? && forall k :: 0 <= k < j ==> Agrees(rest[k]) {
        assert replies[j + 1].Fault? && forall k :: 0 <= k < j + 1 ==> Agrees(replies[k]) by {
          assert forall k :: 1 <= k < j + 1 ==> replies[k] == rest[k - 1];
        }
      }
    }
  }

  lemma {:induction false} SomeEligible(snapshots: seq<Snapshot>, now: int, close: Option<int>)
    ensures Eligible(snapshots, now, close) != [] <==>
      exists i :: 0 <= i < |snapshots| && Ineligible(snapshots[i], now, close).None?
  {
    hide Ineligible;
    if snapshots != [] {
      SomeEligible(snapshots[..|snapshots| - 1], now, close);
    }
  }

  ghost predicate HasEvidence(w: Work) {
    && w.gathered.Delivers?
    && exists i :: 0 <= i < |w.gathered.snapshots| && Ineligible(w.gathered.snapshots[i], w.now, w.close).None?
  }

  /** An agent that was asked failed to answer: everyone before it agreed. */
  ghost predicate FaultReached(w: Work) {
    || (exists i :: 0 <= i < |w.analysts| && w.analysts[i].Fault? && forall k :: 0 <= k < i ==> Agrees(w.analysts[k]))
    || (w.critic.Fault? && forall k :: 0 <= k < |w.analysts| ==> Agrees(w.analysts[k]))
  }

  /** The status follows from the replies alone, whatever scores they propose: with an eligible snapshot a lane
      is READY exactly when every analyst and the critic agree, UNAVAILABLE exactly when an agent that was
      asked failed to answer, and NO_TRADE otherwise; delivered without one it is NO_TRADE. */
  lemma StatusTellsTheExit(w: Work)
    requires !Judged(w).Raises?
    ensures Judged(w).result.status == Ready <==>
      HasEvidence(w) && Agrees(w.critic) && forall k :: 0 <= k < |w.analysts| ==> Agrees(w.analysts[k])
    ensures w.gathered.Delivers? ==>
      && Judged(w).result.status in {Ready, NoTrade, Unavailable}
      && (Judged(w).result.status == Unavailable <==> HasEvidence(w) && FaultReached(w))
    ensures w.gathered.NoCapability? ==> Judged(w).result.status == NotConfigured
    ensures w.gathered.Fails? ==>
      Judged(w).result.status == match w.gathered.claim case Claims(status) => status case _ => Unavailable
  {
    hide Eligible, Measures, ReviewAll, BaseScores, AdjustAll, Ineligible;
    if w.gathered.Delivers? {
      SomeEligible(w.gathered.snapshots, w.now, w.close);
      var base := BaseScores(Measures(w.gathered.snapshots, w.now, w.close));
      ReviewPassesExactly(base, base, w.analysts);
    }
  }

  /** Whatever a lane's provider and agents do, its result is consistent, and every ready candidate's score
      is within 15 points of its measured base score and within [0, 100]. */
  lemma LaneScoresAreBounded(w: Work)
    requires !Judged(w).Raises?
    ensures Consistent(Judged(w).result)
    ensures Judged(w).result.status == Ready ==>
      && w.gathered.Delivers?
      && |Judged(w).result.ranked| == |Eligible(w.gathered.snapshots, w.now, w.close)|
      && var base := BaseScores(Measures(w.gathered.snapshots, w.now, w.close));
         forall c :: c in Judged(w).result.ranked ==> c.symbol in base && NearBase(base[c.symbol], c.score)
  {
    hide Consistent, Near, NearBase, Eligible, Measures, ReviewAll, BaseScores, AdjustAll, ReadyResult, Bounded, Fields;
    var r := Judged(w).result;
    if !Reaches(w) {
      EndedIsConsistent(r.lane, r.status, r.reason);
    } else {
      var eligible, measures := Eligible(w.gathered.snapshots, w.now, w.close),
          Measures(w.gathered.snapshots, w.now, w.close);
      var base := BaseScores(measures);
      BaseIsInRange(w.gathered.snapshots, w.now, w.close);
      ReviewKeepsNear(base, base, w.analysts);
      var scores := ReviewAll(base, base, w.analysts).scores;
      var adjustments := Bounded(Fields(w.critic.adjustments));
      AdjustKeepsNear(base, scores, adjustments);
      ReadyIsConsistent(w.lane, eligible, measures, base, AdjustAll(base, scores, adjustments));
    }
  }
}
