/** The research matrix: every requested lane ends in one result, whatever providers and agents do, and
    ready lanes are re-ranked so that their winners overlap less. */
module Lanes {
  import opened Numbers
  import opened Fingerprint
  import opened Ranking

  datatype Lane = Lane(assetClass: string, instrumentType: string)

  function LaneName(lane: Lane): string {
    lane.assetClass + ":" + lane.instrumentType
  }

  datatype Status = Ready | NoTrade | NotConfigured | Unavailable | Stale | Blocked

  datatype Candidate = Candidate(symbol: string, pair: string, underlying: int, direction: real, score: real, rank: nat)

  datatype LaneResult = LaneResult(lane: Lane, status: Status, reason: string, candidate: Option<Candidate>,
                                   ranked: seq<Candidate>)

  // ----- arbitrary agents

  datatype Value = Number(value: real) | NotANumber

  // One entry of an adjustment list; entries without an instrument are dropped.
  datatype Item = Item(instrument: Option<string>, adjustment: Value)

  datatype Raw = Listed(items: seq<Item>) | Mapped(fields: map<string, Value>) | Unreadable

  datatype Reply = Fault(kind: string) | Answer(pass: bool, adjustments: Raw)

  // The `lane_status` an exception may carry: none, a status, or something that is no status.
  datatype Claim = NoClaim | Claims(status: Status) | Nonsense

  // What a lane meets: its provider, then the analysts in order and the asset-class role, then the critic.
  // `Malformed` is a delivery that is no list of valid snapshots.
  datatype Gathered = NoCapability | Fails(kind: string, claim: Claim) | Malformed | Delivers(snapshots: seq<Snapshot>)

  datatype Work = Work(lane: Lane, gathered: Gathered, analysts: seq<Reply>, critic: Reply, now: int,
                       close: Option<int>)

  /** The last entry of an instrument counts. */
  function Table(items: seq<Item>): map<string, Value> {
    if items == [] then map[]
    else
      var last := items[|items| - 1];
      if last.instrument.Some? then Table(items[..|items| - 1])[last.instrument.value := last.adjustment]
      else Table(items[..|items| - 1])
  }

  function Fields(raw: Raw): map<string, Value> {
    match raw
    case Listed(items) => Table(items)
    case Mapped(fields) => fields
    case Unreadable => map[]
  }

  function Bounded(fields: map<string, Value>): map<string, real> {
    map symbol | symbol in fields && fields[symbol].Number? :: Max(-10.0, Min(10.0, fields[symbol].value))
  }

  /** `_bounded_adjustments`. */
  method BoundedAdjustments(raw: Raw) returns (adjustments: map<string, real>)
    ensures adjustments == Bounded(Fields(raw))
  {
    var fields := map[];
    match raw {
      case Listed(items) =>
        for i := 0 to |items|
          invariant fields == Table(items[..i])
        {
          assert items[..i + 1][..i] == items[..i];
          if items[i].instrument.Some? {
            fields := fields[items[i].instrument.value := items[i].adjustment];
          }
        }
        assert items[..|items|] == items;
      case Mapped(given) => fields := given;
      case Unreadable => return map[];
    }
    adjustments := map[];
    var left := fields.Keys;
    while left != {}
      invariant left <= fields.Keys
      invariant adjustments == map symbol | symbol in fields.Keys - left && fields[symbol].Number? ::
        Max(-10.0, Min(10.0, fields[symbol].value))
      decreases left
    {
      var symbol :| symbol in left;
      left := left - {symbol};
      if fields[symbol].Number? {
        adjustments := adjustments[symbol := Max(-10.0, Min(10.0, fields[symbol].value))];
      }
    }
  }

  // ----- scores

  /** A move from the current score, held within 15 points of the base and within [0, 100]. */
  function Held(base: real, moved: real): real {
    Max(Max(0.0, base - 15.0), Min(100.0, Min(base + 15.0, moved)))
  }

  function AdjustAll(base: map<string, real>, scores: map<string, real>,
                     adjustments: map<string, real>): (r: map<string, real>)
    requires scores.Keys == base.Keys
    ensures r.Keys == base.Keys
  {
    map symbol | symbol in scores :: if symbol in adjustments
      then Held(base[symbol], scores[symbol] + adjustments[symbol]) else scores[symbol]
  }

  method ApplyAdjustments(base: map<string, real>, scores: map<string, real>, adjustments: map<string, real>)
    returns (r: map<string, real>)
    requires scores.Keys == base.Keys
    ensures r == AdjustAll(base, scores, adjustments)
  {
    r := scores;
    var left := adjustments.Keys;
    while left != {}
      invariant left <= adjustments.Keys && r.Keys == base.Keys
      invariant forall symbol :: symbol in r ==>
        r[symbol] == if symbol in adjustments.Keys - left then Held(base[symbol], scores[symbol] + adjustments[symbol])
          else scores[symbol]
      decreases left
    {
      var symbol :| symbol in left;
      left := left - {symbol};
      if symbol in r {
        r := r[symbol := Held(base[symbol], r[symbol] + adjustments[symbol])];
      }
    }
  }

  datatype Review = Broken(kind: string) | Rejected | Passed(scores: map<string, real>)

  /** The analysts in turn; the first fault or reassessment ends the review. */
  function ReviewAll(base: map<string, real>, scores: map<string, real>, replies: seq<Reply>): (r: Review)
    requires scores.Keys == base.Keys
    ensures r.Passed? ==> r.scores.Keys == base.Keys
  {
    if replies == [] then Passed(scores)
    else
      match replies[0]
      case Fault(kind) => Broken(kind)
      case Answer(pass, adjustments) =>
        if !pass then Rejected
        else ReviewAll(base, AdjustAll(base, scores, Bounded(Fields(adjustments))), replies[1..])
  }

  method ConsultAnalysts(base: map<string, real>, replies: seq<Reply>) returns (r: Review)
    ensures r == ReviewAll(base, base, replies)
  {
    hide AdjustAll, Bounded, Fields;
    var scores := base;
    for i := 0 to |replies|
      invariant scores.Keys == base.Keys
      invariant ReviewAll(base, base, replies) == ReviewAll(base, scores, replies[i..])
    {
      assert replies[i..][0] == replies[i] && replies[i..][1..] == replies[i + 1..];
      if replies[i].Fault? {
        return Broken(replies[i].kind);
      }
      var adjustments := BoundedAdjustments(replies[i].adjustments);
      if !replies[i].pass {
        return Rejected;
      }
      scores := ApplyAdjustments(base, scores, adjustments);
    }
    r := Passed(scores);
  }

  // ----- one lane

  /** Snapshots that pass the deterministic gates. */
  function Eligible(snapshots: seq<Snapshot>, now: int, close: Option<int>): seq<Snapshot> {
    if snapshots == [] then []
    else
      var last := snapshots[|snapshots| - 1];
      Eligible(snapshots[..|snapshots| - 1], now, close) + if Ineligible(last, now, close).None? then [last] else []
  }

  /** Criteria by symbol; the last eligible snapshot of a symbol counts. */
  function Measures(snapshots: seq<Snapshot>, now: int, close: Option<int>): (r: map<string, Criteria>)
    ensures forall s :: s in Eligible(snapshots, now, close) ==> s.symbol in r
  {
    if snapshots == [] then map[]
    else
      var last := snapshots[|snapshots| - 1];
      var before := Measures(snapshots[..|snapshots| - 1], now, close);
      if Ineligible(last, now, close).None? then before[last.symbol := Measured(last, now, close)] else before
  }

  method MeasureAll(snapshots: seq<Snapshot>, now: int, close: Option<int>)
    returns (eligible: seq<Snapshot>, measured: map<string, Criteria>)
    ensures eligible == Eligible(snapshots, now, close) && measured == Measures(snapshots, now, close)
  {
    hide Measured, Ineligible;
    eligible, measured := [], map[];
    for i := 0 to |snapshots|
      invariant eligible == Eligible(snapshots[..i], now, close) && measured == Measures(snapshots[..i], now, close)
    {
      assert snapshots[..i + 1][..i] == snapshots[..i];
      if Ineligible(snapshots[i], now, close).None? {
        measured := measured[snapshots[i].symbol := Measured(snapshots[i], now, close)];
        eligible := eligible + [snapshots[i]];
      }
    }
    assert snapshots[..|snapshots|] == snapshots;
  }

  function BaseScores(measures: map<string, Criteria>): (base: map<string, real>)
    ensures base.Keys == measures.Keys
  {
    map symbol | symbol in measures :: Score(measures[symbol])
  }

  function Keyed(eligible: seq<Snapshot>, scores: map<string, real>): seq<Entry<Snapshot>>
    requires forall s :: s in eligible ==> s.symbol in scores
  {
    seq(|eligible|, i requires 0 <= i < |eligible| =>
      Entry(scores[eligible[i].symbol], eligible[i].symbol, eligible[i]))
  }

  function Candidates(order: seq<Entry<Snapshot>>, measures: map<string, Criteria>): seq<Candidate>
    requires forall e :: e in order ==> e.item.symbol in measures
  {
    seq(|order|, i requires 0 <= i < |order| =>
      var s: Snapshot := order[i].item;
      Candidate(s.symbol, s.pair, s.underlying, measures[s.symbol].direction, order[i].score, i + 1))
  }

  lemma KeyedItems(eligible: seq<Snapshot>, scores: map<string, real>)
    requires forall s :: s in eligible ==> s.symbol in scores
    ensures forall e :: e in Ranked(Keyed(eligible, scores)) ==>
      e.item in eligible && e.name == e.item.symbol && e.score == scores[e.name]
  {
    var keyed := Keyed(eligible, scores);
    forall e | e in Ranked(keyed)
      ensures e.item in eligible && e.name == e.item.symbol && e.score == scores[e.name]
    {
      assert e in multiset(Ranked(keyed));
      assert e in multiset(keyed);
      var i :| 0 <= i < |keyed| && keyed[i] == e;
    }
  }

  /** A ready result: the eligible snapshots, best first. */
  function ReadyResult(lane: Lane, eligible: seq<Snapshot>, measures: map<string, Criteria>,
                       scores: map<string, real>): LaneResult
    requires eligible != [] && scores.Keys == measures.Keys && forall s :: s in eligible ==> s.symbol in measures
  {
    KeyedItems(eligible, scores);
    var candidates := Candidates(Ranked(Keyed(eligible, scores)), measures);
    LaneResult(lane, Ready, "", Some(candidates[0]), candidates)
  }

  function Ended(lane: Lane, status: Status, reason: string): LaneResult {
    LaneResult(lane, status, reason, None, [])
  }

  datatype Verdict = Raises | Ends(result: LaneResult) | Reassessed(result: LaneResult)

  /** How a lane ends. Snapshots are validated outside any handler, and a provider error that claims the status
      READY, or no status at all, fails the result's own validation. */
  function Judged(w: Work): Verdict {
    match w.gathered
    case NoCapability => Ends(Ended(w.lane, NotConfigured, "PROVIDER_LANE_CAPABILITY_MISSING"))
    case Fails(kind, claim) =>
      if claim == Nonsense || claim == Claims(Ready) then Raises
      else Ends(Ended(w.lane, if claim.Claims? then claim.status else Unavailable, "PROVIDER_ERROR:" + kind))
    case Malformed => Raises
    case Delivers(snapshots) =>
      var eligible, measures := Eligible(snapshots, w.now, w.close), Measures(snapshots, w.now, w.close);
      if eligible == [] then Ends(Ended(w.lane, NoTrade, "NO_ELIGIBLE_CANDIDATE"))
      else
        match ReviewAll(BaseScores(measures), BaseScores(measures), w.analysts)
        case Broken(kind) => Ends(Ended(w.lane, Unavailable, "AGENT_ERROR:" + kind))
        case Rejected => Reassessed(Ended(w.lane, NoTrade, "ANALYST_REASSESS"))
        case Passed(scores) => Ends(Criticized(w.lane, eligible, measures, scores, w.critic))
  }

  function Criticized(lane: Lane, eligible: seq<Snapshot>, measures: map<string, Criteria>, scores: map<string, real>,
                      critic: Reply): LaneResult
    requires eligible != [] && scores.Keys == measures.Keys && forall s :: s in eligible ==> s.symbol in measures
  {
    match critic
    case Fault(kind) => Ended(lane, Unavailable, "CRITIC_ERROR:" + kind)
    case Answer(pass, adjustments) =>
      if !pass then Ended(lane, NoTrade, "CRITIC_REASSESS")
      else ReadyResult(lane, eligible, measures, AdjustAll(BaseScores(measures), scores, Bounded(Fields(adjustments))))
  }

  /** The results so far; a reassessed lane adds one only when the last result is not of that lane. */
  function Upto(works: seq<Work>): Option<seq<LaneResult>> {
    if works == [] then Some([])
    else
      var before, w := Upto(works[..|works| - 1]), works[|works| - 1];
      if before.None? then None
      else
        match Judged(w)
        case Raises => None
        case Ends(result) => Some(before.value + [result])
        case Reassessed(result) =>
          if before.value == [] || before.value[|before.value| - 1].lane != w.lane then Some(before.value + [result])
          else before
  }

  /** The lane loop, with its many ways to end a lane. */
  method RunLanes(works: seq<Work>) returns (r: Option<seq<LaneResult>>)
    ensures r == Upto(works)
  {
    hide Eligible, Measures, ReviewAll, BaseScores, ReadyResult, AdjustAll;
    var results: seq<LaneResult> := [];
    for n := 0 to |works|
      invariant Upto(works[..n]) == Some(results)
    {
      var w := works[n];
      assert works[..n + 1][..n] == works[..n];
      UptoStopsAt(works, n);
      if w.gathered.NoCapability? {
        results := results + [Ended(w.lane, NotConfigured, "PROVIDER_LANE_CAPABILITY_MISSING")];
        continue;
      }
      if w.gathered.Fails? {
        if w.gathered.claim.Nonsense? {
          return None;
        }
        var status := if w.gathered.claim.Claims? then w.gathered.claim.status else Unavailable;
        if status == Ready {
          return None;
        }
        results := results + [Ended(w.lane, status, "PROVIDER_ERROR:" + w.gathered.kind)];
        continue;
      }
      if w.gathered.Malformed? {
        return None;
      }
      var eligible, measures := MeasureAll(w.gathered.snapshots, w.now, w.close);
      if eligible == [] {
        results := results + [Ended(w.lane, NoTrade, "NO_ELIGIBLE_CANDIDATE")];
        continue;
      }
      var base := BaseScores(measures);
      var review := ConsultAnalysts(base, w.analysts);
      var failed := !review.Passed?;
      if review.Broken? {
        results := results + [Ended(w.lane, Unavailable, "AGENT_ERROR:" + review.kind)];
      }
      if failed {
        if results == [] || results[|results| - 1].lane != w.lane {
          results := results + [Ended(w.lane, NoTrade, "ANALYST_REASSESS")];
        }
        continue;
      }
      if w.critic.Fault? {
        results := results + [Ended(w.lane, Unavailable, "CRITIC_ERROR:" + w.critic.kind)];
        continue;
      }
      if !w.critic.pass {
        results := results + [Ended(w.lane, NoTrade, "CRITIC_REASSESS")];
        continue;
      }
      var adjustments := BoundedAdjustments(w.critic.adjustments);
      var scores := ApplyAdjustments(base, review.scores, adjustments);
      results := results + [ReadyResult(w.lane, eligible, measures, scores)];
    }
    assert works[..|works|] == works;
    r := Some(results);
  }

  /** A lane that raises ends the whole run. */
  lemma {:induction false} UptoStopsAt(works: seq<Work>, n: nat)
    requires n < |works|
    ensures Upto(works[..n + 1]).None? ==> Upto(works).None?
    decreases |works|
  {
    hide Judged;
    if n + 1 == |works| {
      assert works[..n + 1] == works;
    } else {
      var init := works[..|works| - 1];
      assert init[..n + 1] == works[..n + 1];
      UptoStopsAt(init, n);
    }
  }
}
