/** Forward paper observation: completed candles are frozen, entry intents are recorded
    before their outcome candle closes, and the evidence is replayed from the frozen history. */
module Monitoring {
  import opened Numbers
  import opened Signals
  import opened Protection
  import opened ProtectionProofs
  import opened ProtectionRuns
  import opened Accounting

  // What stays fixed during a session. `closedSession` says whether the market is closed at an
  // instant; entries are allowed from `startedAt` until `cutoff`.
  datatype Session = Session(
    s: Strategy, c: Config, riskPercent: real, timeframeSeconds: nat,
    startedAt: int, cutoff: Option<int>, closedSession: int -> bool)

  type Paper = p: Session | p.timeframeSeconds > 0
    witness Session(
      Strategy([], [], [], [], [], [], false, false, 20, None, prefix => map[], Rules(Long, 1.0, [1.0])),
      Configuration(1.0, 0.0, 0.0, 0.0, None, 1.0, 1.0), 1.0, 60, 0, None, at => false)

  datatype Status = Signal | MarketClosed | NoSetup | Blocked | PositionOpen | Wait

  // The evidence persisted between observations; the initial state has no candles.
  datatype Evidence = Evidence(
    candles: seq<Candle>, intents: map<int, int>, contexts: map<int, real>,
    trades: seq<Trade>, accountPnls: seq<real>, open: Option<Position>,
    policyPassed: bool, dataComplete: bool, latest: Status)

  const EMPTY_EVIDENCE := Evidence([], map[], map[], [], [], None, true, true, NoSetup)

  // One delivery. The strategy setup, the entry context and the news state are whatever
  // their providers answer at that moment.
  datatype Delivery = Delivery(incoming: seq<Candle>, now: int, setup: Status, contextBlocked: bool, newsCode: real)

  function Timeframe(p: Paper): int {
    p.timeframeSeconds * SECOND
  }

  function Completed(incoming: seq<Candle>, period: int, now: int): seq<Candle> {
    if incoming == [] then []
    else
      var rest := Completed(incoming[1..], period, now);
      if incoming[0].at + period <= now then [incoming[0]] + rest else rest
  }

  /** Stable sort by time. */
  function SortByTime(cs: seq<Candle>): seq<Candle> {
    if cs == [] then [] else InsertByTime(cs[0], SortByTime(cs[1..]))
  }

  function InsertByTime(c: Candle, sorted: seq<Candle>): seq<Candle> {
    if sorted == [] || c.at <= sorted[0].at then [c] + sorted
    else [sorted[0]] + InsertByTime(c, sorted[1..])
  }

  function Newer(cs: seq<Candle>, at: int): seq<Candle> {
    if cs == [] then []
    else
      var rest := Newer(cs[1..], at);
      if cs[0].at > at then [cs[0]] + rest else rest
  }

  predicate ValidPrices(c: Candle) {
    && c.open > 0.0 && c.high > 0.0 && c.low > 0.0 && c.close > 0.0
    && c.high >= Max(Max(c.open, c.close), c.low) && c.low <= Min(c.open, c.close)
  }

  /** The completed candles of a delivery, or why they are refused. */
  function Accepted(p: Paper, delivery: Delivery): (r: Result<seq<Candle>, string>)
    ensures r.Success? ==> |r.value| >= 6
  {
    var closed := SortByTime(Completed(delivery.incoming, Timeframe(p), delivery.now));
    if |closed| < 6 then Failure("At least six completed candles are required for monitoring")
    else if exists i :: 0 <= i < |closed| && !ValidPrices(closed[i]) then Failure("Invalid monitoring price evidence")
    else Success(closed)
  }

  /** The first delivery is warm-up only; later ones extend the frozen history. */
  function Frozen(candles: seq<Candle>, closed: seq<Candle>): seq<Candle> {
    if candles == [] then Last(closed, 100) else candles + Newer(closed, candles[|candles| - 1].at)
  }

  function EntryTime(p: Paper, frozen: seq<Candle>): int
    requires frozen != []
  {
    frozen[|frozen| - 1].at + Timeframe(p)
  }

  /** Observed after the entry bar opened, within five minutes and a quarter of the timeframe. */
  predicate Fresh(p: Paper, entryTime: int, now: int) {
    && p.startedAt <= entryTime <= now
    && now - entryTime <= 300 * SECOND && 4 * (now - entryTime) <= Timeframe(p)
  }

  predicate GapAt(p: Paper, before: int, after: int, steps: nat) {
    && steps >= 1
    && before + steps * Timeframe(p) < after
    && !p.closedSession(before + steps * Timeframe(p))
  }

  /** An instant expected between two candles falls in an open session. */
  ghost predicate SpansOpenSession(p: Paper, before: int, after: int) {
    exists steps: nat :: GapAt(p, before, after, steps)
  }

  /** Some consecutive candles since the start span an expected candle of an open session. */
  ghost predicate HasGap(p: Paper, frozen: seq<Candle>) {
    exists k :: 0 <= k < |frozen| - 1 && frozen[k + 1].at >= p.startedAt
      && SpansOpenSession(p, frozen[k].at, frozen[k + 1].at)
  }

  function PaperSetting(intents: map<int, int>, contexts: map<int, real>): Setting {
    Setting(Some(intents.Keys), at => false, Recorded(contexts), false)
  }

  function SetDefault<T>(m: map<int, T>, key: int, value: T): map<int, T> {
    if key in m then m else m[key := value]
  }

  /** The setup, unless the entry context, missing data or a failed loss policy blocks it. */
  function Setup(st: Evidence, delivery: Delivery): Status {
    if (delivery.contextBlocked || !st.dataComplete || !st.policyPassed) && delivery.setup != MarketClosed then Blocked
    else delivery.setup
  }

  predicate Records(p: Paper, st: Evidence, delivery: Delivery, at: int, holding: bool, missing: bool) {
    && !holding && Setup(st, delivery) == Signal && !missing && Fresh(p, at, delivery.now)
    && (p.cutoff.None? || at < p.cutoff.value)
  }

  /** A new intent survives only an observation without a breach. */
  function NextIntents(p: Paper, st: Evidence, delivery: Delivery, at: int, holding: bool, missing: bool,
                       policy: bool): map<int, int> {
    if Records(p, st, delivery, at, holding, missing) && policy then SetDefault(st.intents, at, delivery.now)
    else st.intents
  }

  function LatestStatus(p: Paper, st: Evidence, delivery: Delivery, holding: bool, missing: bool,
                        policy: bool): Status {
    if !policy || missing then Blocked
    else if holding then PositionOpen
    else if p.cutoff.Some? && delivery.now >= p.cutoff.value then Wait
    else Setup(st, delivery)
  }

  /** What a paper observation persists. */
  ghost function Observed(p: Paper, st: Evidence, delivery: Delivery): Result<Evidence, string> {
    var accepted := Accepted(p, delivery);
    if accepted.Failure? then Failure(accepted.error) else
    var frozen := Frozen(st.candles, accepted.value);
    if |frozen| > 100_000 then Failure("Paper observation limit reached; finish this session") else
    FrozenLength(st.candles, accepted.value);
    var at := EntryTime(p, frozen);
    var timely := Fresh(p, at, delivery.now);
    var contexts := if timely then SetDefault(st.contexts, at, delivery.newsCode) else st.contexts;
    var missing := HasGap(p, frozen);
    var book := Simulation(p.s, p.c, PaperSetting(st.intents, contexts), frozen);
    RisksArePositive(p, PaperSetting(st.intents, contexts), frozen);
    var policy := PolicyPassed(p.c, book.trades, p.riskPercent);
    Success(Evidence(
      frozen, NextIntents(p, st, delivery, at, book.open.Some?, missing, policy), contexts,
      book.trades, AccountPnls(p.c.initialEquity, book.trades, p.riskPercent), book.open,
      policy, st.dataComplete && !missing, LatestStatus(p, st, delivery, book.open.Some?, missing, policy)))
  }

  lemma FrozenLength(candles: seq<Candle>, closed: seq<Candle>)
    requires |closed| >= 6
    ensures Frozen(candles, closed) != []
  {
  }

  lemma RisksArePositive(p: Paper, setting: Setting, frozen: seq<Candle>)
    ensures PositiveRisks(Simulation(p.s, p.c, setting, frozen).trades)
  {
    hide Simulated;
    RunKeepsOk(p.s, p.c, setting, frozen, |frozen|);
  }

  // ----- the observation loops

  /** The cursor over the instants expected between two candles. */
  method ScanBetween(p: Paper, before: int, after: int) returns (missing: bool)
    ensures missing <==> SpansOpenSession(p, before, after)
  {
    missing := false;
    if after - before > Timeframe(p) {
      var cursor := before + Timeframe(p);
      ghost var steps: nat := 1;
      while cursor < after
        invariant steps >= 1 && cursor == before + steps * Timeframe(p)
        invariant forall j: nat :: j < steps ==> !GapAt(p, before, after, j)
        decreases after - cursor
      {
        if !p.closedSession(cursor) {
          assert GapAt(p, before, after, steps);
          return true;
        }
        NextStep(steps, Timeframe(p));
        cursor := cursor + Timeframe(p);
        steps := steps + 1;
      }
      NoLaterStep(p, before, after, steps);
    } else {
      NoLaterStep(p, before, after, 1);
    }
  }

  /** The scan over consecutive frozen candles. */
  method DetectGap(p: Paper, frozen: seq<Candle>) returns (missing: bool)
    ensures missing <==> HasGap(p, frozen)
  {
    hide SpansOpenSession;
    missing := false;
    var k := 0;
    while k + 1 < |frozen|
      invariant 0 <= k
      invariant missing <==> (exists j :: 0 <= j < |frozen| - 1 && j < k &&
                                frozen[j + 1].at >= p.startedAt && SpansOpenSession(p, frozen[j].at, frozen[j + 1].at))
    {
      if frozen[k + 1].at >= p.startedAt {
        var spans := ScanBetween(p, frozen[k].at, frozen[k + 1].at);
        missing := missing || spans;
      }
      k := k + 1;
    }
  }

  lemma NextStep(steps: nat, period: int)
    ensures (steps + 1) * period == steps * period + period
  {
  }

  lemma NoLaterStep(p: Paper, before: int, after: int, steps: nat)
    requires before + steps * Timeframe(p) >= after
    requires forall j: nat :: j < steps ==> !GapAt(p, before, after, j)
    ensures !SpansOpenSession(p, before, after)
  {
    forall j: nat | j >= steps ensures !GapAt(p, before, after, j) {
      assert j * Timeframe(p) >= steps * Timeframe(p);
    }
  }

  /** Records the entry decision, then takes it back on a breach discovered by the same observation. */
  method DecideEntry(p: Paper, st: Evidence, delivery: Delivery, at: int, holding: bool, missing: bool, policy: bool)
    returns (intents: map<int, int>, latest: Status)
    ensures intents == NextIntents(p, st, delivery, at, holding, missing, policy)
    ensures latest == LatestStatus(p, st, delivery, holding, missing, policy)
  {
    hide Fresh;
    intents, latest := st.intents, delivery.setup;
    if (delivery.contextBlocked || !st.dataComplete || !st.policyPassed) && latest != MarketClosed {
      latest := Blocked;
    }
    if !holding && latest == Signal && !missing && Fresh(p, at, delivery.now)
      && (p.cutoff.None? || at < p.cutoff.value) {
      intents := SetDefault(intents, at, delivery.now);
    }
    if holding {
      latest := PositionOpen;
    } else if p.cutoff.Some? && delivery.now >= p.cutoff.value {
      latest := Wait;
    }
    if !policy || missing {
      if at !in st.intents {
        intents := intents - {at};
      }
      assert intents == st.intents;
      latest := Blocked;
    }
  }

  /** `observe` for a paper session, in the order of its steps. */
  method Observe(p: Paper, st: Evidence, delivery: Delivery) returns (r: Result<Evidence, string>)
    ensures r == Observed(p, st, delivery)
  {
    hide Simulated, Simulation, PolicyPassed, AccountPnls, HasGap, Accepted, Frozen, EntryTime, PaperSetting, Fresh,
         PositiveRisks, Compounded, MaxDrawdown, Sum, Chosen, DaysTrack, SumOver, NextIntents, LatestStatus, SetDefault;
    var accepted := Accepted(p, delivery);
    if accepted.Failure? {
      return Failure(accepted.error);
    }
    var frozen := Frozen(st.candles, accepted.value);
    if |frozen| > 100_000 {
      return Failure("Paper observation limit reached; finish this session");
    }
    FrozenLength(st.candles, accepted.value);
    var contexts := st.contexts;
    var at := EntryTime(p, frozen);
    if Fresh(p, at, delivery.now) {
      contexts := SetDefault(contexts, at, delivery.newsCode);
    }
    var missing := DetectGap(p, frozen);
    var trades, costs, position := SimulateProtectedTrades(p.s, frozen, p.c, PaperSetting(st.intents, contexts));
    RisksArePositive(p, PaperSetting(st.intents, contexts), frozen);
    var account := AccountMetrics(trades, p.c, p.riskPercent);
    var policy := account.value.policyPassed;
    var intents, latest := DecideEntry(p, st, delivery, at, position.Some?, missing, policy);
    r := Success(Evidence(frozen, intents, contexts, trades, account.value.accountPnls, position,
                          policy, st.dataComplete && !missing, latest));
  }
}
