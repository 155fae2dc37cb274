/** The loss policy over growing lists of trades: which breaches of the daily limit are final. */
module LossPolicy {
  import opened Numbers
  import opened Protection
  import opened Accounting
  import S = Signals

  ghost function Results(c: Config, trades: seq<Trade>, riskPercent: real): (pnls: seq<real>)
    requires PositiveRisks(trades)
    ensures |pnls| == |trades|
  {
    AccountPnls(c.initialEquity, trades, riskPercent)
  }

  ghost function EquityAfter(c: Config, trades: seq<Trade>, riskPercent: real): real
    requires PositiveRisks(trades)
  {
    c.initialEquity + Sum(Results(c, trades, riskPercent))
  }

  ghost function DayResult(c: Config, trades: seq<Trade>, riskPercent: real, day: int): real
    requires PositiveRisks(trades)
  {
    DayTotal(trades, Results(c, trades, riskPercent), day)
  }

  /** The day's total is below the daily limit. */
  ghost predicate Breached(c: Config, trades: seq<Trade>, riskPercent: real, day: int)
    requires PositiveRisks(trades)
  {
    Closes(trades, day) && DayResult(c, trades, riskPercent, day) < -c.maxDailyLoss
  }

  ghost predicate WithinTotalLoss(c: Config, trades: seq<Trade>, riskPercent: real)
    requires PositiveRisks(trades)
  {
    MaxDrawdown(c.initialEquity, Results(c, trades, riskPercent)) <= c.maxTotalLoss
  }

  // ----- one trade more

  lemma ClosesOneMore(trades: seq<Trade>, t: Trade, day: int)
    ensures Closes(trades + [t], day) <==> Closes(trades, day) || DayOf(t.exitedAt) == day
  {
    hide DayOf;
    var ts := trades + [t];
    if Closes(trades, day) {
      var i :| 0 <= i < |trades| && DayOf(trades[i].exitedAt) == day;
      assert DayOf(ts[i].exitedAt) == day;
    }
    if DayOf(t.exitedAt) == day {
      assert DayOf(ts[|trades|].exitedAt) == day;
    }
  }

  lemma OneMore(c: Config, trades: seq<Trade>, t: Trade, riskPercent: real, day: int)
    requires PositiveRisks(trades) && t.risk > 0.0
    ensures PositiveRisks(trades + [t])
    ensures
      var gain := Gain(t, riskPercent, EquityAfter(c, trades, riskPercent));
      && Results(c, trades + [t], riskPercent) == Results(c, trades, riskPercent) + [gain]
      && EquityAfter(c, trades + [t], riskPercent) == EquityAfter(c, trades, riskPercent) + gain
      && DayResult(c, trades + [t], riskPercent, day)
         == DayResult(c, trades, riskPercent, day) + if DayOf(t.exitedAt) == day then gain else 0.0
  {
    hide Gain, Sum, DayOf;
    var ts := trades + [t];
    assert ts[..|trades|] == trades;
    var gain := Gain(t, riskPercent, EquityAfter(c, trades, riskPercent));
    var pnls := Results(c, trades, riskPercent);
    assert (pnls + [gain])[..|trades|] == pnls;
    SumSnoc(pnls, gain);
  }

  lemma GainKeepsDrawdown(start: real, pnls: seq<real>, gain: real)
    requires gain >= 0.0
    ensures MaxDrawdown(start, pnls + [gain]) == MaxDrawdown(start, pnls)
  {
    assert pnls == [] ==> Sum(pnls) == 0.0;
    hide Sum;
    var equity := start + Sum(pnls);
    assert pnls[..|pnls|] == pnls && pnls[..0] == [];
    DrawdownOnlyGrows(start, pnls, 0);
    assert Peak(start, pnls) - equity <= MaxDrawdown(start, pnls);
    DrawdownTracksStep(start, pnls, equity, Peak(start, pnls), MaxDrawdown(start, pnls), gain);
  }

  // ----- a breach that is final

  lemma {:induction false} DayTotalOfPrefix(trades: seq<Trade>, pnls: seq<real>, day: int, k: nat)
    requires k <= |trades| == |pnls|
    requires forall i :: k <= i < |trades| ==> DayOf(trades[i].exitedAt) != day
    ensures DayTotal(trades, pnls, day) == DayTotal(trades[..k], pnls[..k], day)
    decreases |trades|
  {
    if k == |trades| {
      assert trades[..k] == trades && pnls[..k] == pnls;
    } else {
      var n := |trades| - 1;
      DayTotalOfPrefix(trades[..n], pnls[..n], day, k);
      assert trades[..n][..k] == trades[..k] && pnls[..n][..k] == pnls[..k];
    }
  }

  /** A daily breach is undone only by trades that close on the breached day. */
  lemma DailyBreachLatchesAfterItsDay(c: Config, trades: seq<Trade>, riskPercent: real, k: nat, day: int)
    requires PositiveRisks(trades) && k <= |trades| && Closes(trades[..k], day)
    requires DayTotal(trades[..k], AccountPnls(c.initialEquity, trades[..k], riskPercent), day) < -c.maxDailyLoss
    requires forall i :: k <= i < |trades| ==> DayOf(trades[i].exitedAt) != day
    ensures !PolicyPassed(c, trades, riskPercent)
  {
    var pnls := AccountPnls(c.initialEquity, trades, riskPercent);
    AccountPnlsOfPrefix(c.initialEquity, trades, riskPercent, k);
    DayTotalOfPrefix(trades, pnls, day, k);
    var i :| 0 <= i < k && DayOf(trades[..k][i].exitedAt) == day;
    assert trades[i] == trades[..k][i];
    assert Closes(trades, day);
  }

  // ----- a breach that is not

  /** The account can still move: it is not at zero and risks something. */
  ghost predicate Alive(c: Config, trades: seq<Trade>, riskPercent: real)
    requires PositiveRisks(trades)
  {
    EquityAfter(c, trades, riskPercent) != 0.0 && riskPercent != 0.0
  }

  /** A winning trade that closes on `day` and lifts its total to the limit. The gain is larger by one where the
      account would otherwise end at zero. */
  ghost function Repairing(c: Config, trades: seq<Trade>, riskPercent: real, day: int): Trade
    requires PositiveRisks(trades) && Alive(c, trades, riskPercent)
  {
    var equity := EquityAfter(c, trades, riskPercent);
    var missing := -c.maxDailyLoss - DayResult(c, trades, riskPercent, day);
    var gain := if equity + missing == 0.0 then missing + 1.0 else missing;
    Trade(day * DAY, day * DAY, 0.0, 0.0, [], [], gain * 100.0 / (riskPercent * equity), 1.0, 0.0, 0.0,
          S.Regime("", "", "", None))
  }

  lemma ScaledGain(gain: real, riskPercent: real, equity: real)
    requires riskPercent != 0.0 && equity != 0.0
    ensures gain * 100.0 / (riskPercent * equity) / 1.0 * (riskPercent / 100.0) * equity == gain
  {
    var product := riskPercent * equity;
    assert product != 0.0;
    var x := gain * 100.0 / product;
    assert x * product == gain * 100.0;
    assert x / 1.0 == x;
    assert x * (riskPercent / 100.0) * equity == x * product / 100.0;
  }

  ghost function BreachedDays(c: Config, trades: seq<Trade>, riskPercent: real): set<int>
    requires PositiveRisks(trades)
  {
    set k | 0 <= k < |trades| && Breached(c, trades, riskPercent, DayOf(trades[k].exitedAt)) ::
      DayOf(trades[k].exitedAt)
  }

  lemma BreachedDaysAre(c: Config, trades: seq<Trade>, riskPercent: real, day: int)
    requires PositiveRisks(trades)
    ensures day in BreachedDays(c, trades, riskPercent) <==> Breached(c, trades, riskPercent, day)
  {
    hide DayResult, DayOf;
  }

  lemma RepairingRepairs(c: Config, trades: seq<Trade>, riskPercent: real, day: int)
    requires PositiveRisks(trades) && Alive(c, trades, riskPercent) && Breached(c, trades, riskPercent, day)
    ensures
      var t := Repairing(c, trades, riskPercent, day);
      && t.risk > 0.0 && DayOf(t.exitedAt) == day && PositiveRisks(trades + [t])
      && Alive(c, trades + [t], riskPercent)
      && (WithinTotalLoss(c, trades, riskPercent) ==> WithinTotalLoss(c, trades + [t], riskPercent))
      && (forall other :: Breached(c, trades + [t], riskPercent, other) <==>
          Breached(c, trades, riskPercent, other) && other != day)
      && |BreachedDays(c, trades + [t], riskPercent)| < |BreachedDays(c, trades, riskPercent)|
  {
    hide Results, EquityAfter, MaxDrawdown, BreachedDays, Closes, DayResult;
    var t := Repairing(c, trades, riskPercent, day);
    var equity := EquityAfter(c, trades, riskPercent);
    var missing := -c.maxDailyLoss - DayResult(c, trades, riskPercent, day);
    var gain := if equity + missing == 0.0 then missing + 1.0 else missing;
    ScaledGain(gain, riskPercent, equity);
    assert Gain(t, riskPercent, equity) == gain;
    assert DayOf(t.exitedAt) == day;
    hide Gain, Repairing, DayOf;
    OneMore(c, trades, t, riskPercent, day);
    GainKeepsDrawdown(c.initialEquity, Results(c, trades, riskPercent), gain);
    forall other ensures
        Breached(c, trades + [t], riskPercent, other) <==> Breached(c, trades, riskPercent, other) && other != day
    {
      OneMore(c, trades, t, riskPercent, other);
      ClosesOneMore(trades, t, other);
    }
    FewerBreachedDays(c, trades, trades + [t], riskPercent, day);
  }

  lemma FewerBreachedDays(c: Config, before: seq<Trade>, after: seq<Trade>, riskPercent: real, day: int)
    requires PositiveRisks(before) && PositiveRisks(after)
    requires forall other :: Breached(c, after, riskPercent, other) <==>
      Breached(c, before, riskPercent, other) && other != day
    requires Breached(c, before, riskPercent, day)
    ensures |BreachedDays(c, after, riskPercent)| < |BreachedDays(c, before, riskPercent)|
  {
    hide Breached, BreachedDays;
    forall other ensures
        other in BreachedDays(c, after, riskPercent) <==> other in BreachedDays(c, before, riskPercent) - {day}
    {
      BreachedDaysAre(c, before, riskPercent, other);
      BreachedDaysAre(c, after, riskPercent, other);
    }
    BreachedDaysAre(c, before, riskPercent, day);
    assert BreachedDays(c, after, riskPercent) == BreachedDays(c, before, riskPercent) - {day};
  }

  /** The later trades close on open days only, and with them the policy passes. */
  ghost predicate Repairs(c: Config, trades: seq<Trade>, riskPercent: real, open: iset<int>, later: seq<Trade>) {
    && PositiveRisks(trades + later)
    && (forall i :: 0 <= i < |later| ==> DayOf(later[i].exitedAt) in open)
    && PolicyPassed(c, trades + later, riskPercent)
  }

  ghost predicate Recoverable(c: Config, trades: seq<Trade>, riskPercent: real, open: iset<int>) {
    exists later :: Repairs(c, trades, riskPercent, open, later)
  }

  lemma PassedMeans(c: Config, trades: seq<Trade>, riskPercent: real)
    requires PositiveRisks(trades)
    ensures PolicyPassed(c, trades, riskPercent)
       <==> WithinTotalLoss(c, trades, riskPercent) && forall day :: !Breached(c, trades, riskPercent, day)
  {
    hide MaxDrawdown, AccountPnls;
    if forall day :: !Breached(c, trades, riskPercent, day) {
      forall day | Closes(trades, day) ensures DayResult(c, trades, riskPercent, day) >= -c.maxDailyLoss {
        assert !Breached(c, trades, riskPercent, day);
      }
    } else {
      var day :| Breached(c, trades, riskPercent, day);
      assert Closes(trades, day);
    }
  }

  lemma RepairsFromEarlier(c: Config, trades: seq<Trade>, riskPercent: real, open: iset<int>, t: Trade,
                           later: seq<Trade>)
    requires Repairs(c, trades + [t], riskPercent, open, later) && DayOf(t.exitedAt) in open
    ensures Repairs(c, trades, riskPercent, open, [t] + later)
  {
    hide PolicyPassed, DayOf;
    assert trades + ([t] + later) == trades + [t] + later;
  }

  lemma {:induction false} OpenDaysRecover(c: Config, trades: seq<Trade>, riskPercent: real, open: iset<int>)
    requires PositiveRisks(trades) && WithinTotalLoss(c, trades, riskPercent)
    requires forall day :: Breached(c, trades, riskPercent, day) ==> day in open && Alive(c, trades, riskPercent)
    ensures Recoverable(c, trades, riskPercent, open)
    decreases |BreachedDays(c, trades, riskPercent)|
  {
    hide WithinTotalLoss, BreachedDays, Alive, PolicyPassed, DayOf, Repairing, Breached, EquityAfter, PositiveRisks;
    if day :| Breached(c, trades, riskPercent, day) {
      var t := Repairing(c, trades, riskPercent, day);
      RepairingRepairs(c, trades, riskPercent, day);
      OpenDaysRecover(c, trades + [t], riskPercent, open);
      var later :| Repairs(c, trades + [t], riskPercent, open, later);
      RepairsFromEarlier(c, trades, riskPercent, open, t, later);
    } else {
      PassedMeans(c, trades, riskPercent);
      assert trades + [] == trades;
      assert Repairs(c, trades, riskPercent, open, []);
    }
  }

  /** An account at zero, or one that risks nothing, gains and loses nothing more. */
  lemma {:induction false} DeadStaysDead(c: Config, trades: seq<Trade>, later: seq<Trade>, riskPercent: real, day: int)
    requires PositiveRisks(trades + later) && PositiveRisks(trades) && !Alive(c, trades, riskPercent)
    ensures !Alive(c, trades + later, riskPercent)
    ensures DayResult(c, trades + later, riskPercent, day) == DayResult(c, trades, riskPercent, day)
    decreases |later|
  {
    hide Results, EquityAfter, DayOf, DayResult;
    if later == [] {
      assert trades + later == trades;
    } else {
      var n := |later| - 1;
      assert trades + later == trades + later[..n] + [later[n]];
      assert later[n] == (trades + later)[|trades| + n];
      assert PositiveRisks(trades + later[..n]) by {
        assert forall i :: 0 <= i < |trades| + n ==> (trades + later[..n])[i] == (trades + later)[i];
      }
      DeadStaysDead(c, trades, later[..n], riskPercent, day);
      OneMore(c, trades + later[..n], later[n], riskPercent, day);
    }
  }

  lemma StillCloses(trades: seq<Trade>, later: seq<Trade>, day: int)
    requires Closes(trades, day)
    ensures Closes(trades + later, day)
  {
    hide DayOf;
    var i :| 0 <= i < |trades| && DayOf(trades[i].exitedAt) == day;
    assert (trades + later)[i] == trades[i];
  }

  lemma RecoverableMeans(c: Config, trades: seq<Trade>, riskPercent: real, open: iset<int>, later: seq<Trade>)
    requires PositiveRisks(trades) && Repairs(c, trades, riskPercent, open, later)
    ensures WithinTotalLoss(c, trades, riskPercent)
    ensures forall day :: Breached(c, trades, riskPercent, day) ==> day in open && Alive(c, trades, riskPercent)
  {
    hide Alive, DayOf, MaxDrawdown;
    var all, k := trades + later, |trades|;
    assert all[..k] == trades;
    if !WithinTotalLoss(c, trades, riskPercent) {
      DrawdownBreachLatches(c, all, riskPercent, k);
    }
    forall day | Breached(c, trades, riskPercent, day)
      ensures day in open && Alive(c, trades, riskPercent)
    {
      if !Alive(c, trades, riskPercent) {
        DeadStaysDead(c, trades, later, riskPercent, day);
        StillCloses(trades, later, day);
      } else if day !in open {
        forall i | k <= i < |all| ensures DayOf(all[i].exitedAt) != day {
          assert all[i] == later[i - k];
        }
        DailyBreachLatchesAfterItsDay(c, all, riskPercent, k, day);
      }
    }
  }

  /** Exactly which breaches are final. Some later trades closing only on days in `open` make the policy pass if
      and only if the drawdown is within its limit, every breached day is among them and, where there is one, the
      account is not at zero and risks something. */
  lemma BreachIsUndoneExactly(c: Config, trades: seq<Trade>, riskPercent: real, open: iset<int>)
    requires PositiveRisks(trades)
    ensures Recoverable(c, trades, riskPercent, open) <==>
      && WithinTotalLoss(c, trades, riskPercent)
      && (forall day :: Breached(c, trades, riskPercent, day) ==> day in open)
      && ((exists day :: Breached(c, trades, riskPercent, day)) ==> Alive(c, trades, riskPercent))
  {
    hide Breached, Alive, PolicyPassed, DayOf, MaxDrawdown, WithinTotalLoss, Repairs;
    if Recoverable(c, trades, riskPercent, open) {
      var later :| Repairs(c, trades, riskPercent, open, later);
      RecoverableMeans(c, trades, riskPercent, open, later);
    }
    if WithinTotalLoss(c, trades, riskPercent)
       && (forall day :: Breached(c, trades, riskPercent, day) ==> day in open)
       && ((exists day :: Breached(c, trades, riskPercent, day)) ==> Alive(c, trades, riskPercent))
    {
      OpenDaysRecover(c, trades, riskPercent, open);
    }
  }

  predicate NotBefore(day: int, first: int) {
    day >= first
  }

  ghost function DaysFrom(first: int): iset<int> {
    iset day | NotBefore(day, first)
  }

  /** Trades close in time order, so a breach is undone by trades from the last closing day on if and only if that
      day is the only one breached: once its day is over a breach is final. */
  lemma BreachIsFinalAfterItsDay(c: Config, trades: seq<Trade>, riskPercent: real)
    requires PositiveRisks(trades) && trades != [] && Alive(c, trades, riskPercent)
    requires forall i, j :: 0 <= i < j < |trades| ==> trades[i].exitedAt <= trades[j].exitedAt
    ensures
      var last := DayOf(trades[|trades| - 1].exitedAt);
      Recoverable(c, trades, riskPercent, DaysFrom(last)) <==>
        && WithinTotalLoss(c, trades, riskPercent)
        && (forall day :: Breached(c, trades, riskPercent, day) ==> day == last)
  {
    hide WithinTotalLoss, DayResult, Alive;
    var last := DayOf(trades[|trades| - 1].exitedAt);
    BreachIsUndoneExactly(c, trades, riskPercent, DaysFrom(last));
  }

  /** Until that day is over a daily breach can be undone: here a later win repairs it. */
  lemma DailyBreachCanRecover(c: Config, first: Trade, second: Trade)
    requires c.initialEquity == 100.0 && c.maxDailyLoss == 10.0 && c.maxTotalLoss == 50.0
    requires first.pnl == -2.0 && second.pnl == 3.0 && first.risk == second.risk == 1.0
    requires DayOf(first.exitedAt) == DayOf(second.exitedAt)
    ensures !PolicyPassed(c, [first], 10.0) && PolicyPassed(c, [first, second], 10.0)
  {
    var day := DayOf(first.exitedAt);
    assert [first][..0] == [] && [first, second][..1] == [first];
    assert AccountPnls(100.0, [first], 10.0) == [-20.0];
    assert Sum([-20.0]) == -20.0 by { SumSnoc([], -20.0); assert [] + [-20.0] == [-20.0]; }
    var pnls := AccountPnls(100.0, [first, second], 10.0);
    assert pnls == [-20.0, 24.0];
    assert pnls[..1] == [-20.0] && [-20.0][..0] == [] && pnls[..2] == pnls && [-20.0][..1] == [-20.0];
    assert Sum(pnls) == 4.0;
    assert Closes([first], day) by { assert DayOf([first][0].exitedAt) == day; }
    assert DayTotal([first], [-20.0], day) == -20.0;
    assert Peak(100.0, [-20.0]) == 100.0 && MaxDrawdown(100.0, [-20.0]) == 20.0;
    assert MaxDrawdown(100.0, pnls) == 20.0;
    forall other | Closes([first, second], other) ensures DayTotal([first, second], pnls, other) == 4.0 {
      assert DayTotal([first], [-20.0], other) == -20.0;
    }
  }
}
