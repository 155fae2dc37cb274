/** Whole paper sessions: evidence only grows, every trade was intended in time, and
    detected gaps and drawdown breaches end the recording of entries. */
module MonitoringRuns {
  import opened Numbers
  import opened Signals
  import opened Protection
  import opened ProtectionProofs
  import opened ProtectionRuns
  import opened Accounting
  import opened Monitoring

  // ----- time order of the frozen history

  ghost predicate Ordered(cs: seq<Candle>) {
    forall i, j :: 0 <= i <= j < |cs| ==> cs[i].at <= cs[j].at
  }

  lemma {:induction false} InsertKeepsCandles(c: Candle, cs: seq<Candle>)
    ensures multiset(InsertByTime(c, cs)) == multiset(cs) + multiset{c}
  {
    if cs != [] && c.at > cs[0].at {
      InsertKeepsCandles(c, cs[1..]);
      assert cs == [cs[0]] + cs[1..];
    }
  }

  lemma {:induction false} InsertKeepsOrder(c: Candle, cs: seq<Candle>)
    requires Ordered(cs)
    ensures Ordered(InsertByTime(c, cs))
    ensures cs != [] ==> InsertByTime(c, cs)[0].at == if c.at <= cs[0].at then c.at else cs[0].at
  {
    if cs != [] && c.at > cs[0].at {
      InsertKeepsOrder(c, cs[1..]);
      ConsKeepsOrder(cs[0], InsertByTime(c, cs[1..]));
    } else if cs != [] {
      ConsKeepsOrder(c, cs);
    }
  }

  lemma ConsKeepsOrder(c: Candle, cs: seq<Candle>)
    requires Ordered(cs) && (cs != [] ==> c.at <= cs[0].at)
    ensures Ordered([c] + cs)
  {
    var r := [c] + cs;
    forall i, j | 0 <= i <= j < |r| ensures r[i].at <= r[j].at {
      if 0 < i {
        assert r[i] == cs[i - 1] && r[j] == cs[j - 1];
      } else if 0 < j {
        assert r[j] == cs[j - 1];
      }
    }
  }

  /** Sorting loses and invents no candle. */
  lemma {:induction false} SortOrders(cs: seq<Candle>)
    ensures Ordered(SortByTime(cs)) && multiset(SortByTime(cs)) == multiset(cs)
  {
    if cs != [] {
      SortOrders(cs[1..]);
      InsertKeepsOrder(cs[0], SortByTime(cs[1..]));
      InsertKeepsCandles(cs[0], SortByTime(cs[1..]));
      assert cs == [cs[0]] + cs[1..];
    }
  }

  lemma {:induction false} NewerIsNewer(cs: seq<Candle>, at: int)
    requires Ordered(cs)
    ensures Ordered(Newer(cs, at))
    ensures forall c :: c in Newer(cs, at) <==> c in cs && c.at > at
  {
    if cs != [] {
      NewerIsNewer(cs[1..], at);
      var rest, r := Newer(cs[1..], at), Newer(cs, at);
      assert cs == [cs[0]] + cs[1..];
      if cs[0].at > at {
        assert r == [cs[0]] + rest;
        assert forall i :: 0 < i < |r| ==> r[i] == rest[i - 1] && r[i] in rest;
        assert forall c :: c in cs[1..] ==> cs[0].at <= c.at;
      }
    }
  }

  lemma FrozenExtends(candles: seq<Candle>, closed: seq<Candle>)
    requires Ordered(candles) && Ordered(closed)
    ensures candles <= Frozen(candles, closed) && Ordered(Frozen(candles, closed))
    ensures candles != [] ==> forall i :: |candles| <= i < |Frozen(candles, closed)| ==>
      Frozen(candles, closed)[i].at > candles[|candles| - 1].at
  {
    if candles != [] {
      var at := candles[|candles| - 1].at;
      var newer := Newer(closed, at);
      NewerIsNewer(closed, at);
      assert forall i :: 0 <= i < |newer| ==> newer[i] in newer;
    }
  }

  // ----- the invariant of a session

  /** An entry intent: recorded while its entry bar was still open, inside the session. */
  ghost predicate Timely(p: Paper, at: int, observedAt: int) {
    && p.startedAt <= at <= observedAt < at + Timeframe(p)
    && observedAt - at <= 300 * SECOND && 4 * (observedAt - at) <= Timeframe(p)
    && (p.cutoff.Some? ==> at < p.cutoff.value)
  }

  ghost predicate Replayed(p: Paper, st: Evidence) {
    var book := Simulation(p.s, p.c, PaperSetting(st.intents, st.contexts), st.candles);
    st.trades == book.trades && st.open == book.open
  }

  ghost predicate TradesIntended(p: Paper, st: Evidence) {
    forall i :: 0 <= i < |st.trades| ==> st.trades[i].enteredAt in st.intents
  }

  ghost predicate SessionOk(p: Paper, st: Evidence) {
    && Ordered(st.candles)
    && Replayed(p, st)
    && PositiveRisks(st.trades)
    && st.accountPnls == AccountPnls(p.c.initialEquity, st.trades, p.riskPercent)
    && st.policyPassed == PolicyPassed(p.c, st.trades, p.riskPercent)
    && st.dataComplete == !HasGap(p, st.candles)
    && (forall at :: at in st.intents ==> Timely(p, at, st.intents[at]))
    && TradesIntended(p, st)
  }

  ghost predicate Past(st: Evidence, at: int) {
    exists i :: 0 <= i < |st.candles| && at <= st.candles[i].at
  }

  /** `after` keeps all evidence of `before` and adds nothing to its past. */
  ghost predicate Extends(before: Evidence, after: Evidence) {
    && before.candles <= after.candles
    && before.trades <= after.trades
    && before.accountPnls <= after.accountPnls
    && (forall at :: at in before.intents ==> at in after.intents && after.intents[at] == before.intents[at])
    && (forall at :: at in before.contexts ==> at in after.contexts && after.contexts[at] == before.contexts[at])
    && (forall at :: Past(before, at) && at in after.intents ==> at in before.intents)
    && (forall at :: Past(before, at) && at in after.contexts ==> at in before.contexts)
    && (!before.dataComplete ==> !after.dataComplete)
  }

  lemma ExtendsIsTransitive(a: Evidence, b: Evidence, c: Evidence)
    requires Extends(a, b) && Extends(b, c)
    ensures Extends(a, c)
  {
    forall at | Past(a, at) ensures Past(b, at) {
      var i :| 0 <= i < |a.candles| && at <= a.candles[i].at;
      assert b.candles[i] == a.candles[i];
    }
  }

  lemma EmptyEvidenceOk(p: Paper)
    ensures SessionOk(p, EMPTY_EVIDENCE)
  {
    hide RequiresNewsContext;
    assert PolicyPassed(p.c, [], p.riskPercent);
  }

  lemma GapsStay(p: Paper, xs: seq<Candle>, ys: seq<Candle>)
    requires xs <= ys && HasGap(p, xs)
    ensures HasGap(p, ys)
  {
    hide SpansOpenSession;
    var k :| 0 <= k < |xs| - 1 && xs[k + 1].at >= p.startedAt && SpansOpenSession(p, xs[k].at, xs[k + 1].at);
    assert ys[k] == xs[k] && ys[k + 1] == xs[k + 1];
  }

  /** Decisions about bars up to `last` are untouched by entries and contexts recorded later. */
  lemma LaterRecordsDoNotMatter(intents: map<int, int>, contexts: map<int, real>,
                                intents': map<int, int>, contexts': map<int, real>, candles: seq<Candle>, at: int)
    requires forall t :: t != at ==> (t in intents <==> t in intents')
    requires forall t :: t != at ==>
      (t in contexts <==> t in contexts') && (t in contexts ==> contexts[t] == contexts'[t])
    requires forall i :: 0 <= i < |candles| ==> candles[i].at != at
    ensures SameDecisions(PaperSetting(intents, contexts), PaperSetting(intents', contexts'), candles)
  {
  }

  /** The replay of the longer history starts with the trades of the shorter one. */
  lemma ReplayExtends(p: Paper, st: Evidence, delivery: Delivery)
    requires SessionOk(p, st) && Observed(p, st, delivery).Success?
    ensures
      var out := Observed(p, st, delivery).value;
      && Replayed(p, out) && st.trades <= out.trades
      && EntriesAllowed(PaperSetting(out.intents, out.contexts), out.candles, |out.candles|,
                        Simulation(p.s, p.c, PaperSetting(out.intents, out.contexts), out.candles))
  {
    hide Simulated, HasGap, PolicyPassed, AccountPnls, PositiveRisks, MayEnterAt, Fresh, Accepted, SameDecisions,
         TradesIntended,
         EntriesAllowed, Frozen;
    var out := Observed(p, st, delivery).value;
    ObservedFrontier(p, st, delivery);
    var at := EntryTime(p, out.candles);
    var a, b := PaperSetting(st.intents, st.contexts), PaperSetting(st.intents, out.contexts);
    var c := PaperSetting(out.intents, out.contexts);
    LaterRecordsDoNotMatter(st.intents, st.contexts, st.intents, out.contexts, st.candles, at);
    NoLookAhead(p.s, p.c, a, b, st.candles, out.candles);
    LaterRecordsDoNotMatter(st.intents, out.contexts, out.intents, out.contexts, out.candles, at);
    NoLookAhead(p.s, p.c, b, c, out.candles, out.candles);
    EntriesAreAllowed(p.s, p.c, c, out.candles, |out.candles|);
  }

  /** The frozen history grows, stays ordered, and ends before the entry instant it leads to. */
  lemma ObservedFrontier(p: Paper, st: Evidence, delivery: Delivery)
    requires Ordered(st.candles) && Observed(p, st, delivery).Success?
    ensures
      var out := Observed(p, st, delivery).value;
      && out.candles != [] && st.candles <= out.candles && Ordered(out.candles)
      && forall i :: 0 <= i < |out.candles| ==> out.candles[i].at < EntryTime(p, out.candles)
  {
    hide Simulated, Simulation, HasGap, PolicyPassed, AccountPnls, PositiveRisks, Fresh, Completed, SortByTime, Newer,
         ValidPrices;
    var completed := Completed(delivery.incoming, Timeframe(p), delivery.now);
    SortOrders(completed);
    var closed := SortByTime(completed);
    assert Accepted(p, delivery) == Success(closed);
    FrozenExtends(st.candles, closed);
    FrozenLength(st.candles, closed);
    var out := Observed(p, st, delivery).value;
    assert out.candles == Frozen(st.candles, closed);
  }

  /** One observation keeps the invariant and only extends the evidence. */
  lemma ObserveExtends(p: Paper, st: Evidence, delivery: Delivery)
    requires SessionOk(p, st) && Observed(p, st, delivery).Success?
    ensures SessionOk(p, Observed(p, st, delivery).value)
    ensures Extends(st, Observed(p, st, delivery).value)
  {
    hide Simulated, Simulation, HasGap, PolicyPassed, AccountPnls, PositiveRisks, MayEnterAt, Accepted, Frozen;
    var out := Observed(p, st, delivery).value;
    ReplayExtends(p, st, delivery);
    ObservedFrontier(p, st, delivery);
    var setting := PaperSetting(st.intents, out.contexts);
    assert PositiveRisks(out.trades) by { RisksArePositive(p, setting, out.candles); }
    assert out.trades[..|st.trades|] == st.trades;
    AccountPnlsOfPrefix(p.c.initialEquity, out.trades, p.riskPercent, |st.trades|);
    if HasGap(p, st.candles) {
      GapsStay(p, st.candles, out.candles);
    }
    assert TradesIntended(p, out) by {
      TradesAreIntended(p, out);
    }
    forall at | Past(st, at) ensures at != EntryTime(p, out.candles) {
      var i :| 0 <= i < |st.candles| && at <= st.candles[i].at;
      assert out.candles[i] == st.candles[i];
    }
  }

  lemma TradesAreIntended(p: Paper, st: Evidence)
    requires Replayed(p, st)
    requires EntriesAllowed(PaperSetting(st.intents, st.contexts), st.candles, |st.candles|,
                            Simulation(p.s, p.c, PaperSetting(st.intents, st.contexts), st.candles))
    ensures TradesIntended(p, st)
  {
    hide Simulation;
    forall i | 0 <= i < |st.trades| ensures st.trades[i].enteredAt in st.intents {
      assert EntryAllowed(PaperSetting(st.intents, st.contexts), st.candles, |st.candles|, st.trades[i].enteredAt);
    }
  }

  // ----- whole sessions

  /** A refused delivery raises and persists nothing. */
  ghost function Next(p: Paper, st: Evidence, delivery: Delivery): Evidence {
    var r := Observed(p, st, delivery);
    if r.Success? then r.value else st
  }

  ghost function RunSession(p: Paper, deliveries: seq<Delivery>): Evidence {
    if deliveries == [] then EMPTY_EVIDENCE
    else Next(p, RunSession(p, deliveries[..|deliveries| - 1]), deliveries[|deliveries| - 1])
  }

  lemma {:induction false} SessionsAreOk(p: Paper, deliveries: seq<Delivery>)
    ensures SessionOk(p, RunSession(p, deliveries))
  {
    hide SessionOk, Observed;
    if deliveries == [] {
      EmptyEvidenceOk(p);
    } else {
      var before := RunSession(p, deliveries[..|deliveries| - 1]);
      SessionsAreOk(p, deliveries[..|deliveries| - 1]);
      if Observed(p, before, deliveries[|deliveries| - 1]).Success? {
        ObserveExtends(p, before, deliveries[|deliveries| - 1]);
      }
    }
  }

  /** Append-only evidence: over any deliveries, overlapping, repeated or late, what a session has
      recorded by one point is a prefix of what it has recorded at any later point. */
  lemma {:induction false} EvidenceOnlyGrows(p: Paper, deliveries: seq<Delivery>, m: nat)
    requires m <= |deliveries|
    ensures Extends(RunSession(p, deliveries[..m]), RunSession(p, deliveries))
    decreases |deliveries|
  {
    hide Extends, SessionOk, Observed;
    if m == |deliveries| {
      assert deliveries[..m] == deliveries;
      ExtendsItself(RunSession(p, deliveries));
    } else {
      var init := deliveries[..|deliveries| - 1];
      var before := RunSession(p, init);
      assert init[..m] == deliveries[..m];
      EvidenceOnlyGrows(p, init, m);
      SessionsAreOk(p, init);
      if Observed(p, before, deliveries[|deliveries| - 1]).Success? {
        ObserveExtends(p, before, deliveries[|deliveries| - 1]);
        ExtendsIsTransitive(RunSession(p, deliveries[..m]), before, RunSession(p, deliveries));
      }
    }
  }

  lemma ExtendsItself(st: Evidence)
    ensures Extends(st, st)
  {
  }

  /** Every paper trade entered at an intent that was recorded during the session, after the entry
      bar opened and before it closed. */
  lemma EveryTradeWasIntended(p: Paper, deliveries: seq<Delivery>, i: nat)
    requires i < |RunSession(p, deliveries).trades|
    ensures
      var st := RunSession(p, deliveries);
      var at := st.trades[i].enteredAt;
      at in st.intents && Timely(p, at, st.intents[at])
  {
    SessionsAreOk(p, deliveries);
  }

  /** Data are complete exactly while no gap has been frozen. */
  lemma DataCompleteMeansNoGap(p: Paper, deliveries: seq<Delivery>)
    ensures RunSession(p, deliveries).dataComplete <==> !HasGap(p, RunSession(p, deliveries).candles)
  {
    SessionsAreOk(p, deliveries);
  }

  /** Delivering nothing new changes no candle, trade, result or position. */
  lemma DuplicateDeliveryIsIdempotent(p: Paper, st: Evidence, delivery: Delivery)
    requires SessionOk(p, st) && st.candles != []
    requires forall c :: c in delivery.incoming ==> c.at <= st.candles[|st.candles| - 1].at
    ensures
      var out := Next(p, st, delivery);
      && out.candles == st.candles && out.trades == st.trades && out.accountPnls == st.accountPnls
      && out.open == st.open && out.policyPassed == st.policyPassed && out.dataComplete == st.dataComplete
  {
    hide Simulated, HasGap, PolicyPassed, AccountPnls, PositiveRisks, ValidPrices, SessionOk, Observed;
    if Observed(p, st, delivery).Success? {
      var out := Observed(p, st, delivery).value;
      ObserveExtends(p, st, delivery);
      SessionFacts(p, st);
      NothingNewIsFrozen(p, st, delivery);
      SessionFacts(p, out);
      ReplayIsDetermined(p, st, out);
    }
  }

  lemma SessionFacts(p: Paper, st: Evidence)
    requires SessionOk(p, st)
    ensures Replayed(p, st) && PositiveRisks(st.trades) && Ordered(st.candles)
    ensures st.accountPnls == AccountPnls(p.c.initialEquity, st.trades, p.riskPercent)
    ensures st.policyPassed == PolicyPassed(p.c, st.trades, p.riskPercent)
    ensures st.dataComplete == !HasGap(p, st.candles)
  {
  }

  /** Equal histories with records that agree on the past replay to the same book. */
  lemma ReplayIsDetermined(p: Paper, a: Evidence, b: Evidence)
    requires Replayed(p, a) && Replayed(p, b) && a.candles == b.candles && Extends(a, b)
    ensures a.trades == b.trades && a.open == b.open
  {
    hide Simulated;
    var x, y := PaperSetting(a.intents, a.contexts), PaperSetting(b.intents, b.contexts);
    forall i | 0 <= i < |a.candles| ensures SameDecision(x, y, a.candles[i].at) {
      assert Past(a, a.candles[i].at);
    }
    NoLookAhead(p.s, p.c, x, y, a.candles, b.candles);
  }

  lemma {:induction false} CompletedIsIncoming(incoming: seq<Candle>, period: int, now: int)
    ensures forall c :: c in Completed(incoming, period, now) <==> c in incoming && c.at + period <= now
  {
    if incoming != [] {
      CompletedIsIncoming(incoming[1..], period, now);
      assert incoming == [incoming[0]] + incoming[1..];
    }
  }

  lemma NothingNewIsFrozen(p: Paper, st: Evidence, delivery: Delivery)
    requires Ordered(st.candles) && st.candles != [] && Observed(p, st, delivery).Success?
    requires forall c :: c in delivery.incoming ==> c.at <= st.candles[|st.candles| - 1].at
    ensures Observed(p, st, delivery).value.candles == st.candles
  {
    hide Simulated, Simulation, HasGap, PolicyPassed, AccountPnls, PositiveRisks, ValidPrices, Fresh, Completed,
         SortByTime, Newer;
    var completed := Completed(delivery.incoming, Timeframe(p), delivery.now);
    CompletedIsIncoming(delivery.incoming, Timeframe(p), delivery.now);
    SortOrders(completed);
    var closed := SortByTime(completed);
    var at := st.candles[|st.candles| - 1].at;
    forall c | c in closed ensures c.at <= at {
      assert c in multiset(closed) && c in multiset(completed);
    }
    NoneIsNewer(closed, at);
  }

  lemma {:induction false} NoneIsNewer(cs: seq<Candle>, at: int)
    requires forall c :: c in cs ==> c.at <= at
    ensures Newer(cs, at) == []
  {
    if cs != [] {
      NoneIsNewer(cs[1..], at);
    }
  }

  // ----- what ends the recording of entries

  /** No entry is recorded on or after an observation that has missing data or fails the loss policy,
      nor while a position is open. */
  lemma HeldSessionsRecordNothing(p: Paper, st: Evidence, delivery: Delivery)
    requires SessionOk(p, st)
    requires !st.dataComplete || !st.policyPassed || !Next(p, st, delivery).dataComplete
      || !Next(p, st, delivery).policyPassed || Next(p, st, delivery).open.Some?
    ensures Next(p, st, delivery).intents == st.intents
  {
    hide Simulated, Simulation, PolicyPassed, AccountPnls, PositiveRisks, Accepted, Frozen, HasGap, Fresh;
  }

  /** After a gap or a drawdown breach no further entry is ever recorded. */
  lemma {:induction false} BreachEndsEntries(p: Paper, deliveries: seq<Delivery>, m: nat)
    requires m <= |deliveries|
    requires
      var st := RunSession(p, deliveries[..m]);
      !st.dataComplete || MaxDrawdown(p.c.initialEquity, st.accountPnls) > p.c.maxTotalLoss
    ensures RunSession(p, deliveries).intents == RunSession(p, deliveries[..m]).intents
    decreases |deliveries|
  {
    hide SessionOk, Observed, MaxDrawdown;
    if m == |deliveries| {
      assert deliveries[..m] == deliveries;
    } else {
      var init := deliveries[..|deliveries| - 1];
      assert init[..m] == deliveries[..m];
      BreachEndsEntries(p, init, m);
      EvidenceOnlyGrows(p, init, m);
      SessionsAreOk(p, init);
      SessionsAreOk(p, deliveries[..m]);
      BreachHolds(p, RunSession(p, deliveries[..m]), RunSession(p, init));
      HeldSessionsRecordNothing(p, RunSession(p, init), deliveries[|deliveries| - 1]);
    }
  }

  lemma BreachHolds(p: Paper, before: Evidence, after: Evidence)
    requires SessionOk(p, before) && SessionOk(p, after) && Extends(before, after)
    requires !before.dataComplete || MaxDrawdown(p.c.initialEquity, before.accountPnls) > p.c.maxTotalLoss
    ensures !after.dataComplete || !after.policyPassed
  {
    hide Replayed, HasGap, MaxDrawdown;
    if before.dataComplete {
      var k := |before.trades|;
      assert after.trades[..k] == before.trades;
      DrawdownBreachLatches(p.c, after.trades, p.riskPercent, k);
    }
  }
}
