/** What an entry rule, a regime tag and a protection level demand, in numbers. */
module RuleMeaning {
  import opened Numbers
  import opened Signals

  // ----- conditions

  /** The sign an operator asks of the difference of its sides. */
  predicate Satisfies(op: Op, difference: real) {
    match op
    case Gt => difference > 0.0
    case Ge => difference >= 0.0
    case Lt => difference < 0.0
    case Le => difference <= 0.0
    case Eq => difference == 0.0
  }

  /** A condition holds exactly when its feature is known, its right-hand side is a number, a known feature or a
      numeral, and the difference of the two has the operator's sign. */
  lemma ConditionHoldsExactly(c: Condition, f: Features)
    ensures Holds(c, f) <==>
      && c.feature in f
      && match c.operand
         case Number(value) => Satisfies(c.op, f[c.feature] - value)
         case Text(name, numeral) =>
           || (name in f && Satisfies(c.op, f[c.feature] - f[name]))
           || (name !in f && numeral.Some? && Satisfies(c.op, f[c.feature] - numeral.value))
  {
  }

  /** An entry is admitted exactly when the news state is known to a strategy that asks for it, a wanted regime
      is present, there is an entry condition, every entry, confirmation and filter condition holds, and not every
      invalidation condition does. */
  lemma EntryMatchesExactly(s: Strategy, f: Features)
    ensures EntryMatches(s, f) <==>
      && (RequiresNewsContext(s) ==> "news_regime" in f && f["news_regime"] != -2.0)
      && RegimeMatches(s.regimes, f)
      && s.entry != [] && (forall c :: c in s.entry + s.confirmations + s.filters ==> Holds(c, f))
      && (s.invalidation == [] || exists c :: c in s.invalidation && !Holds(c, f))
  {
    hide Holds, RequiresNewsContext, RegimeMatches;
    MatchesAll(s.entry, f);
    MatchesAll(s.confirmations, f);
    MatchesAll(s.filters, f);
    MatchesAll(s.invalidation, f);
    assert forall c :: c in s.entry + s.confirmations + s.filters <==>
      c in s.entry || c in s.confirmations || c in s.filters;
  }

  lemma MatchesAll(conditions: seq<Condition>, f: Features)
    ensures Matches(conditions, f) <==> conditions != [] && forall c :: c in conditions ==> Holds(c, f)
  {
    hide Holds;
  }

  // ----- regimes

  ghost predicate Ready(f: Features) {
    && "regime_ready" in f && f["regime_ready"] != 0.0
    && "trend_efficiency" in f && "trend_direction" in f && "relative_volatility" in f
  }

  /** The tags of a ready regime: trending from an efficiency of 0.35 on, otherwise ranging; bullish or bearish by
      the sign of the trend; high or low volatility from 1.5 on and up to 0.75. */
  lemma RegimeIsDecidedByThresholds(f: Features)
    requires Ready(f)
    ensures
      var r := RegimeFromFeatures(f);
      && (r.behaviour == "TRENDING" <==> f["trend_efficiency"] >= 0.35)
      && (r.behaviour == "RANGING" <==> f["trend_efficiency"] < 0.35)
    ensures
      var r := RegimeFromFeatures(f);
      && (r.direction == "BULLISH" <==> f["trend_direction"] == 1.0)
      && (r.direction == "BEARISH" <==> f["trend_direction"] == -1.0)
    ensures
      var r := RegimeFromFeatures(f);
      && (r.volatility == "HIGH_VOLATILITY" <==> f["relative_volatility"] >= 1.5)
      && (r.volatility == "LOW_VOLATILITY" <==> f["relative_volatility"] <= 0.75)
  {
  }

  /** The news tag is the recorded state. */
  lemma NewsIsDecidedByCode(f: Features)
    ensures RegimeFromFeatures(f).news.Some? <==> "news_regime" in f
    ensures "news_regime" in f ==>
      var news, code := RegimeFromFeatures(f).news, f["news_regime"];
      && (news == Some("PRE_NEWS") <==> code == -1.0) && (news == Some("NORMAL") <==> code == 0.0)
      && (news == Some("POST_NEWS") <==> code == 1.0)
  {
  }

  /** A wish is met when it is empty, or the regime is known and has every tag of one alternative. */
  lemma RegimeMatchesExactly(wanted: seq<seq<string>>, f: Features)
    ensures RegimeMatches(wanted, f) <==>
      || wanted == []
      || ("regime_ready" in f && f["regime_ready"] != 0.0
          && exists i :: 0 <= i < |wanted| && HasTags(wanted[i], RegimeFromFeatures(f)))
  {
    hide HasTags, RegimeFromFeatures;
    KnownRegime(f);
  }

  lemma KnownRegime(f: Features)
    ensures RegimeFromFeatures(f).behaviour != "UNKNOWN" <==> "regime_ready" in f && f["regime_ready"] != 0.0
  {
  }

  /** A tag holds when it names one of the regime's four tags; four short names stand for longer ones, and no
      regime is UNKNOWN. */
  lemma TagHoldsExactly(tag: string, r: Regime)
    ensures tag != "TREND" && tag != "RANGE" && tag != "VOLATILE" && tag != "NORMAL_NEWS" && tag != "UNKNOWN" ==>
      (TagHolds(tag, r) <==> tag == r.behaviour || tag == r.direction || tag == r.volatility || r.news == Some(tag))
    ensures TagHolds("TREND", r) <==> TagHolds("TRENDING", r)
    ensures TagHolds("RANGE", r) <==> TagHolds("RANGING", r)
    ensures TagHolds("VOLATILE", r) <==> TagHolds("HIGH_VOLATILITY", r)
    ensures TagHolds("NORMAL_NEWS", r) <==> TagHolds("NORMAL", r)
    ensures !TagHolds("UNKNOWN", r)
  {
  }

  /** The tags of one alternative are all needed. */
  lemma EveryTagIsNeeded(tags: seq<string>, tag: string, r: Regime)
    ensures HasTags([], r)
    ensures HasTags(tags + [tag], r) <==> HasTags(tags, r) && TagHolds(tag, r)
  {
    hide TagHolds;
    var more := tags + [tag];
    assert forall k :: 0 <= k < |tags| ==> more[k] == tags[k];
    assert more[|tags|] == tag;
  }

  // ----- protection levels

  /** Within a tick beyond `exact`, and on it without ticks. */
  predicate RoundedUp(level: real, exact: real, tick: Tick) {
    if tick.Some? then exact <= level < exact + tick.value else level == exact
  }

  predicate RoundedDown(level: real, exact: real, tick: Tick) {
    if tick.Some? then exact - tick.value < level <= exact else level == exact
  }

  /** The levels in numbers: the stop at the configured multiple of the volatility, rounded away from the entry,
      and each target at its multiple of the rounded stop's distance, rounded away from it on the other side. */
  lemma LevelsAreMultiples(rules: TradeRules, entry: real, volatility: real, tick: Tick)
    requires ProtectionLevels(rules, entry, volatility, tick).Some?
    ensures
      var levels := ProtectionLevels(rules, entry, volatility, tick).value;
      var distance := Times(volatility, rules.stopMultiple);
      && |levels.targets| == |rules.rMultiples|
      && (rules.direction == Long ==>
            && RoundedDown(levels.stop, entry - distance, tick)
            && forall i :: 0 <= i < |levels.targets| ==>
                 RoundedUp(levels.targets[i], entry + Times(entry - levels.stop, rules.rMultiples[i]), tick))
      && (rules.direction == Short ==>
            && RoundedUp(levels.stop, entry + distance, tick)
            && forall i :: 0 <= i < |levels.targets| ==>
                 RoundedDown(levels.targets[i], entry - Times(levels.stop - entry, rules.rMultiples[i]), tick))
  {
    hide StopLevel, TargetLevel, Times, RoundedUp, RoundedDown, Elements;
    var levels := ProtectionLevels(rules, entry, volatility, tick).value;
    StopIs(rules, entry, volatility, tick);
    forall i | 0 <= i < |levels.targets|
      ensures rules.direction == Long ==>
        RoundedUp(levels.targets[i], entry + Times(entry - levels.stop, rules.rMultiples[i]), tick)
      ensures rules.direction == Short ==>
        RoundedDown(levels.targets[i], entry - Times(levels.stop - entry, rules.rMultiples[i]), tick)
    {
      TargetIs(rules, entry, levels.stop, rules.rMultiples[i], tick);
    }
  }

  lemma StopIs(rules: TradeRules, entry: real, volatility: real, tick: Tick)
    requires volatility > 0.0
    ensures
      var stop, distance := StopLevel(rules, entry, volatility, tick), Times(volatility, rules.stopMultiple);
      && (rules.direction == Long ==> RoundedDown(stop, entry - distance, tick) && stop < entry)
      && (rules.direction == Short ==> RoundedUp(stop, entry + distance, tick) && stop > entry)
  {
    hide StopLevel, Scale, Times;
    StopIsRounded(rules, entry, volatility, tick);
    StopLevelIsProtective(rules, entry, volatility, tick);
    ScaleIs(volatility, rules.stopMultiple);
  }

  lemma TargetIs(rules: TradeRules, entry: real, stop: real, multiple: real, tick: Tick)
    requires if rules.direction == Long then stop < entry else stop > entry
    ensures
      var target := TargetLevel(rules, entry, stop, multiple, tick);
      && (rules.direction == Long ==> RoundedUp(target, entry + Times(entry - stop, multiple), tick))
      && (rules.direction == Short ==> RoundedDown(target, entry - Times(stop - entry, multiple), tick))
  {
    hide TargetLevel, Scale, Times;
    TargetIsRounded(rules, entry, stop, multiple, tick);
    ScaleIs(Abs(entry - stop), multiple);
    if rules.direction == Long {
      assert Abs(entry - stop) == entry - stop;
    } else {
      assert Abs(entry - stop) == stop - entry;
    }
  }

  lemma ScaleIs(x: real, multiple: real)
    ensures Scale(x, multiple) == Times(x, multiple)
  {
  }

  lemma StopIsRounded(rules: TradeRules, entry: real, volatility: real, tick: Tick)
    ensures
      var stop, distance := StopLevel(rules, entry, volatility, tick), Scale(volatility, rules.stopMultiple);
      && (rules.direction == Long ==> RoundedDown(stop, entry - distance, tick))
      && (rules.direction == Short ==> RoundedUp(stop, entry + distance, tick))
  {
    hide RoundTo, Scale;
    RoundToBounds(Shift(rules.direction, entry, -Scale(volatility, rules.stopMultiple)), rules.direction ==
      Short, tick);
  }

  lemma TargetIsRounded(rules: TradeRules, entry: real, stop: real, multiple: real, tick: Tick)
    ensures
      var target, distance := TargetLevel(rules, entry, stop, multiple, tick), Scale(Abs(entry - stop), multiple);
      && (rules.direction == Long ==> RoundedUp(target, entry + distance, tick))
      && (rules.direction == Short ==> RoundedDown(target, entry - distance, tick))
  {
    hide RoundTo, Scale, Abs;
    RoundToBounds(Shift(rules.direction, entry, Scale(Abs(entry - stop), multiple)), rules.direction == Long, tick);
  }
}
