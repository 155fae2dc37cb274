/** What one observation records, told from the delivery and the evidence alone: which candles it freezes or
    refuses, when it records an intent or a context, and what it reports. */
module MonitoringIntents {
  import opened Numbers
  import opened Signals
  import opened Protection
  import opened ProtectionProofs
  import opened Accounting
  import opened Monitoring
  import opened MonitoringRuns

  const PER_SECOND := 1_000_000

  /** The instant the next bar opens. */
  function NextOpen(p: Paper, candles: seq<Candle>): int
    requires candles != []
  {
    candles[|candles| - 1].at + p.timeframeSeconds * PER_SECOND
  }

  /** Observed after the bar opened inside the session, within five minutes and a quarter of the timeframe. */
  predicate InTime(p: Paper, at: int, now: int) {
    && p.startedAt <= at <= now
    && now <= at + 5 * 60 * PER_SECOND
    && 4 * (now - at) <= p.timeframeSeconds * PER_SECOND
  }

  lemma InTimeIsFresh(p: Paper, at: int, now: int)
    ensures InTime(p, at, now) <==> Fresh(p, at, now)
  {
  }

  /** What one observation hides from its parts. */
  lemma ObservedParts(p: Paper, st: Evidence, delivery: Delivery)
    requires Observed(p, st, delivery).Success?
    ensures
      var out := Observed(p, st, delivery).value;
      && out.candles != []
      && var at, missing := NextOpen(p, out.candles), HasGap(p, out.candles);
         && out.intents == NextIntents(p, st, delivery, at, out.open.Some?, missing, out.policyPassed)
         && out.contexts == (if Fresh(p, at, delivery.now) then SetDefault(st.contexts, at, delivery.newsCode)
                             else st.contexts)
         && out.dataComplete == (st.dataComplete && !missing)
         && out.latest == LatestStatus(p, st, delivery, out.open.Some?, missing, out.policyPassed)
  {
    hide Simulation, HasGap, PolicyPassed, AccountPnls, PositiveRisks, Accepted, Fresh, NextIntents, LatestStatus,
         SetDefault;
    FrozenLength(st.candles, Accepted(p, delivery).value);
  }

  // ----- intents and contexts

  /** An observation records the entry of the next bar exactly when the delivery's own setup signals it in a free
      context, the evidence is complete and within its loss limits before and after, no position is open, the
      observation is in time and the entry precedes the cutoff. Every other intent stays as it was. */
  lemma IntentExactly(p: Paper, st: Evidence, delivery: Delivery)
    requires Observed(p, st, delivery).Success?
    ensures
      var out := Observed(p, st, delivery).value;
      && out.candles != []
      && var at := NextOpen(p, out.candles);
         && (at !in st.intents ==>
               (at in out.intents <==>
                 && delivery.setup == Signal && !delivery.contextBlocked
                 && st.dataComplete && out.dataComplete && st.policyPassed && out.policyPassed
                 && out.open.None?
                 && InTime(p, at, delivery.now)
                 && (p.cutoff.Some? ==> at < p.cutoff.value))
               && (at in out.intents ==> out.intents[at] == delivery.now))
         && (at in st.intents ==> at in out.intents && out.intents[at] == st.intents[at])
         && forall other :: other != at ==>
              (other in out.intents <==> other in st.intents)
              && (other in st.intents ==> out.intents[other] == st.intents[other])
  {
    hide Observed, HasGap, Fresh, InTime;
    ObservedParts(p, st, delivery);
    var out := Observed(p, st, delivery).value;
    InTimeIsFresh(p, NextOpen(p, out.candles), delivery.now);
  }

  /** The news state of the next bar is recorded once, by the first observation in time for it. */
  lemma ContextExactly(p: Paper, st: Evidence, delivery: Delivery)
    requires Observed(p, st, delivery).Success?
    ensures
      var out := Observed(p, st, delivery).value;
      && out.candles != []
      && var at := NextOpen(p, out.candles);
         && (at in out.contexts <==> at in st.contexts || InTime(p, at, delivery.now))
         && (at in out.contexts ==>
               out.contexts[at] == if at in st.contexts then st.contexts[at] else delivery.newsCode)
         && forall other :: other != at ==>
              (other in out.contexts <==> other in st.contexts)
              && (other in st.contexts ==> out.contexts[other] == st.contexts[other])
  {
    hide Observed, HasGap, Fresh, InTime;
    ObservedParts(p, st, delivery);
    var out := Observed(p, st, delivery).value;
    InTimeIsFresh(p, NextOpen(p, out.candles), delivery.now);
  }

  /** What the observation reports: a signal only when an intent could be recorded but for its timing, an open
      position or an ended window only while the evidence stands, and otherwise the delivery's own status. */
  lemma LatestExactly(p: Paper, st: Evidence, delivery: Delivery)
    requires SessionOk(p, st) && Observed(p, st, delivery).Success?
    ensures
      var out := Observed(p, st, delivery).value;
      var stands := out.policyPassed && out.dataComplete;
      var ended := p.cutoff.Some? && delivery.now >= p.cutoff.value;
      && (out.latest == Signal <==>
            stands && out.open.None? && !ended && delivery.setup == Signal && !delivery.contextBlocked
            && st.policyPassed)
      && (!stands ==> out.latest == Blocked)
      && (stands && out.open.Some? ==> out.latest == PositionOpen)
      && (stands && out.open.None? && ended ==> out.latest == Wait)
      && (stands && out.open.None? && !ended ==>
            out.latest == if (delivery.contextBlocked || !st.policyPassed) && delivery.setup != MarketClosed
              then Blocked else delivery.setup)
  {
    hide Observed, HasGap, SessionOk;
    ObservedParts(p, st, delivery);
    SessionFacts(p, st);
    ObservedFrontier(p, st, delivery);
    var out := Observed(p, st, delivery).value;
    if HasGap(p, st.candles) {
      GapsStay(p, st.candles, out.candles);
    }
  }

  // ----- candles

  /** A completed candle of the delivery. */
  predicate IsCompleted(p: Paper, delivery: Delivery, c: Candle) {
    c in delivery.incoming && c.at + p.timeframeSeconds * PER_SECOND <= delivery.now
  }

  function CompletedOf(p: Paper, delivery: Delivery): seq<Candle> {
    Completed(delivery.incoming, Timeframe(p), delivery.now)
  }

  predicate Malformed(c: Candle) {
    || c.open <= 0.0 || c.high <= 0.0 || c.low <= 0.0 || c.close <= 0.0
    || c.open > c.high || c.close > c.high || c.low > c.high || c.open < c.low || c.close < c.low
  }

  lemma MalformedIsInvalid(c: Candle)
    ensures Malformed(c) <==> !ValidPrices(c)
  {
  }

  /** The completed candles of a delivery, sorted. */
  lemma AcceptedMeans(p: Paper, delivery: Delivery)
    ensures
      var closed := SortByTime(CompletedOf(p, delivery));
      && Ordered(closed) && |closed| == |CompletedOf(p, delivery)|
      && (forall c :: c in closed <==> IsCompleted(p, delivery, c))
      && (Accepted(p, delivery).Failure? <==>
            |CompletedOf(p, delivery)| < 6 || exists c :: IsCompleted(p, delivery, c) && Malformed(c))
      && (Accepted(p, delivery).Success? ==> Accepted(p, delivery).value == closed)
  {
    hide ValidPrices, Malformed, Completed, SortByTime;
    var completed := CompletedOf(p, delivery);
    var closed := SortByTime(completed);
    SortOrders(completed);
    SameLength(closed, completed);
    CompletedIsIncoming(delivery.incoming, Timeframe(p), delivery.now);
    forall c ensures c in closed <==> IsCompleted(p, delivery, c) {
      assert c in closed <==> c in multiset(closed);
      assert c in completed <==> c in multiset(completed);
    }
    if i :| 0 <= i < |closed| && !ValidPrices(closed[i]) {
      MalformedIsInvalid(closed[i]);
      assert IsCompleted(p, delivery, closed[i]) && Malformed(closed[i]);
    }
    if c :| IsCompleted(p, delivery, c) && Malformed(c) {
      MalformedIsInvalid(c);
      assert c in closed;
      var i :| 0 <= i < |closed| && closed[i] == c;
    }
  }

  lemma SameLength(a: seq<Candle>, b: seq<Candle>)
    requires multiset(a) == multiset(b)
    ensures |a| == |b|
  {
    assert |multiset(a)| == |a| && |multiset(b)| == |b|;
  }

  /** What is frozen. A later observation appends exactly the completed candles newer than the last frozen one; the
      first keeps the newest hundred of the completed ones. */
  lemma FrozenExactly(p: Paper, st: Evidence, delivery: Delivery)
    requires Ordered(st.candles) && Observed(p, st, delivery).Success?
    ensures
      var out, completed := Observed(p, st, delivery).value.candles, |CompletedOf(p, delivery)|;
      && Ordered(out)
      && (st.candles != [] ==>
            && st.candles <= out
            && forall c :: c in out <==>
                 c in st.candles || (IsCompleted(p, delivery, c) && c.at > st.candles[|st.candles| - 1].at))
      && (st.candles == [] ==>
            && |out| == (if completed < 100 then completed else 100) && |out| >= 6
            && (forall c :: c in out ==> IsCompleted(p, delivery, c))
            && forall c :: IsCompleted(p, delivery, c) && c !in out ==> c.at <= out[0].at)
  {
    hide Simulation, HasGap, PolicyPassed, AccountPnls, PositiveRisks, Accepted, Fresh, Completed, SortByTime, Newer,
         IsCompleted, NextIntents, LatestStatus;
    AcceptedMeans(p, delivery);
    var closed := SortByTime(CompletedOf(p, delivery));
    var out := Observed(p, st, delivery).value.candles;
    assert out == Frozen(st.candles, closed);
    FrozenExtends(st.candles, closed);
    if st.candles == [] {
      NewestOf(closed, 100);
    } else {
      NewerIsNewer(closed, st.candles[|st.candles| - 1].at);
    }
  }

  lemma NewestOf(cs: seq<Candle>, count: nat)
    requires Ordered(cs) && cs != [] && count > 0
    ensures
      var newest := Last(cs, count);
      && |newest| == (if |cs| < count then |cs| else count)
      && (forall c :: c in newest ==> c in cs)
      && forall c :: c in cs && c !in newest ==> c.at <= newest[0].at
  {
    var newest := Last(cs, count);
    var from := |cs| - |newest|;
    assert cs == cs[..from] + newest;
    forall c | c in cs && c !in newest
      ensures c.at <= newest[0].at
    {
      assert c in cs[..from];
      var i :| 0 <= i < from && cs[i] == c;
    }
  }

  /** A delivery is refused exactly when it brings fewer than six completed candles, a malformed one among them, or
      more than a session may freeze. */
  lemma RefusedExactly(p: Paper, st: Evidence, delivery: Delivery)
    ensures Observed(p, st, delivery).Failure? <==>
      || |CompletedOf(p, delivery)| < 6
      || (exists c :: IsCompleted(p, delivery, c) && Malformed(c))
      || |Frozen(st.candles, SortByTime(CompletedOf(p, delivery)))| > 100_000
  {
    hide Simulation, HasGap, PolicyPassed, AccountPnls, PositiveRisks, Accepted, Fresh, Completed, SortByTime, Newer,
         IsCompleted, NextIntents, LatestStatus, Malformed, Frozen;
    AcceptedMeans(p, delivery);
  }
}
